/** One pass of the mapping engine as a function on values: a list of stateful
    rules walked in order over the store. */
module Mapping {
  import opened Words
  import opened Cells

  datatype MappingRule = MappingRule(src: Cell, dst: Cell,
                                     lastSrc: Word, lastDst: Word, initialized: bool)

  /** The static part of a rule. */
  datatype Edge = Edge(src: Cell, dst: Cell)

  datatype Engine = Engine(mem: Store, rules: seq<MappingRule>)

  function EdgeOf(r: MappingRule): Edge {
    Edge(r.src, r.dst)
  }

  ghost predicate Follows(rules: seq<MappingRule>, edges: seq<Edge>) {
    |rules| == |edges| && forall i | 0 <= i < |edges| :: EdgeOf(rules[i]) == edges[i]
  }

  /** What one rule does to the store. */
  function StepStore(m: Store, r: MappingRule): Store {
    var s, d := Read(m, r.src), Read(m, r.dst);
    if !r.initialized then
      if s != d then Write(m, r.dst, s) else m
    else if s != r.lastSrc then Write(m, r.dst, s)
    else if d != r.lastDst then Write(m, r.src, d)
    else if s != d then Write(m, r.dst, s)
    else m
  }

  /** What one rule remembers afterwards. */
  function StepRule(m: Store, r: MappingRule): MappingRule {
    var s, d := Read(m, r.src), Read(m, r.dst);
    if !r.initialized then r.(lastSrc := s, lastDst := s, initialized := true)
    else if s != r.lastSrc then r.(lastSrc := s, lastDst := s)
    else if d != r.lastDst then r.(lastSrc := d, lastDst := d)
    else if s != d then r.(lastSrc := s, lastDst := s)
    else r
  }

  /** Both engines have the same cells and rules that join the same cells, and
      the second has well-formed bits if the first has. */
  ghost predicate SameShape(e: Engine, t: Engine) {
    && t.mem.Keys == e.mem.Keys
    && |t.rules| == |e.rules|
    && (forall i | 0 <= i < |e.rules| :: EdgeOf(t.rules[i]) == EdgeOf(e.rules[i]))
    && (WellFormed(e.mem) ==> WellFormed(t.mem))
  }

  /** Rule `k` of the engine fires. */
  function Step(e: Engine, k: nat): (t: Engine)
    requires k < |e.rules|
    ensures SameShape(e, t)
  {
    Engine(StepStore(e.mem, e.rules[k]), e.rules[k := StepRule(e.mem, e.rules[k])])
  }

  /** The first `k` rules of a pass have fired. */
  function Prefix(e: Engine, k: nat): (t: Engine)
    requires k <= |e.rules|
    ensures SameShape(e, t)
  {
    if k == 0 then e else Step(Prefix(e, k - 1), k - 1)
  }

  function Pass(e: Engine): (t: Engine)
    ensures SameShape(e, t)
  {
    Prefix(e, |e.rules|)
  }

  function Passes(e: Engine, n: nat): (t: Engine)
    ensures SameShape(e, t)
  {
    if n == 0 then e else Pass(Passes(e, n - 1))
  }

  lemma {:induction false} PassesAdd(e: Engine, m: nat, n: nat)
    ensures Passes(Passes(e, m), n) == Passes(e, m + n)
  {
    hide Pass, SameShape;
    if n > 0 {
      PassesAdd(e, m, n - 1);
    }
  }

  /** Both ends of every rule exist and have the same width, and bit cells hold
      bits. Writes through such rules never lose anything. */
  ghost predicate Sound(edges: seq<Edge>, e: Engine) {
    && Follows(e.rules, edges)
    && WellFormed(e.mem)
    && forall i | 0 <= i < |edges| ::
         edges[i].src in e.mem && edges[i].dst in e.mem && SameWidth(edges[i].src, edges[i].dst)
  }

  /** Rule `i` has fired at least once and what it remembers is one value. */
  ghost predicate Primed(e: Engine, i: nat)
    requires i < |e.rules|
  {
    e.rules[i].initialized && e.rules[i].lastSrc == e.rules[i].lastDst
  }

  /** Both ends of every rule hold the same value. */
  ghost predicate Coherent(e: Engine) {
    forall i | 0 <= i < |e.rules| :: Read(e.mem, e.rules[i].src) == Read(e.mem, e.rules[i].dst)
  }

  /** Coherent, and every rule remembers exactly what it sees. */
  ghost predicate Settled(e: Engine) {
    forall i | 0 <= i < |e.rules| ::
      && e.rules[i].initialized
      && e.rules[i].lastSrc == e.rules[i].lastDst
      && Read(e.mem, e.rules[i].src) == e.rules[i].lastSrc
      && Read(e.mem, e.rules[i].dst) == e.rules[i].lastSrc
  }

  /** Firing a rule whose ends exist and have equal width makes both ends and
      both memories equal, touches no other cell, and takes the value that one
      of the two ends already had. */
  lemma StepJoins(edges: seq<Edge>, e: Engine, k: nat)
    requires Sound(edges, e) && k < |edges|
    ensures Sound(edges, Step(e, k))
    ensures Primed(Step(e, k), k)
    ensures var t, x := Step(e, k), edges[k];
            && t.mem.Keys == e.mem.Keys
            && t.mem[x.src] == t.mem[x.dst] == t.rules[k].lastSrc
            && (t.mem[x.src] == e.mem[x.src] || t.mem[x.src] == e.mem[x.dst])
            && (forall c | c in e.mem && c != x.src && c != x.dst :: t.mem[c] == e.mem[c])
            && (t.mem[x.src] != e.mem[x.src] ==> t.mem[x.dst] == e.mem[x.dst])
  {
    assert e.mem[edges[k].src] == Kept(edges[k].src.area, e.mem[edges[k].src]);
    assert e.mem[edges[k].dst] == Kept(edges[k].dst.area, e.mem[edges[k].dst]);
  }

  /** Soundness depends on the shape only, so no number of firings breaks it. */
  lemma ShapeKeepsSound(edges: seq<Edge>, e: Engine, t: Engine)
    requires Sound(edges, e) && SameShape(e, t)
    ensures Sound(edges, t)
  {
    forall i | 0 <= i < |edges| ensures EdgeOf(t.rules[i]) == edges[i] {
      assert EdgeOf(t.rules[i]) == EdgeOf(e.rules[i]);
    }
  }

  lemma PrefixSound(edges: seq<Edge>, e: Engine, k: nat)
    requires Sound(edges, e) && k <= |edges|
    ensures |e.rules| == |edges| && Sound(edges, Prefix(e, k))
  {
    hide Prefix;
    ShapeKeepsSound(edges, e, Prefix(e, k));
  }

  lemma PassesSound(edges: seq<Edge>, e: Engine, n: nat)
    requires Sound(edges, e)
    ensures |Passes(e, n).rules| == |edges| && Sound(edges, Passes(e, n))
  {
    hide Passes;
    ShapeKeepsSound(edges, e, Passes(e, n));
  }

  /** A settled engine is a fixed point of every prefix of a pass. */
  lemma {:induction false} SettledPrefix(e: Engine, k: nat)
    requires Settled(e) && k <= |e.rules|
    ensures Prefix(e, k) == e
  {
    if k > 0 {
      SettledPrefix(e, k - 1);
      assert e.rules[k - 1 := e.rules[k - 1]] == e.rules;
    }
  }

  lemma {:induction false} SettledStays(e: Engine, n: nat)
    requires Settled(e)
    ensures Passes(e, n) == e
  {
    if n > 0 {
      SettledStays(e, n - 1);
      SettledPrefix(e, |e.rules|);
    }
  }
}
