/** One outside write into a settled group of mapped cells. The rules of the
    group may form any graph, rings and shared destinations included. */
module Takeover {
  import opened Words
  import opened Cells
  import opened Mapping

  /** No rule leaves the group. */
  ghost predicate Island(edges: seq<Edge>, group: set<Cell>) {
    forall i | 0 <= i < |edges| :: edges[i].src in group <==> edges[i].dst in group
  }

  /** Whatever way the group is split in two, some rule joins the parts. */
  ghost predicate Connected(edges: seq<Edge>, group: set<Cell>) {
    forall part: set<Cell> | {} < part < group ::
      exists i :: 0 <= i < |edges| && Crosses(edges[i], part, group)
  }

  predicate Crosses(x: Edge, part: set<Cell>, group: set<Cell>) {
    x.src in group && x.dst in group && (x.src in part <==> x.dst !in part)
  }

  ghost predicate Holds(e: Engine, group: set<Cell>, v: Word) {
    forall c | c in group :: c in e.mem && e.mem[c] == v
  }

  /** The group is coherent at `v` and its rules remember exactly that. */
  ghost predicate SettledAt(edges: seq<Edge>, e: Engine, group: set<Cell>, v: Word)
    requires Sound(edges, e)
  {
    && Holds(e, group, v)
    && forall i | 0 <= i < |edges| && edges[i].src in group ::
         Primed(e, i) && e.rules[i].lastSrc == v
  }

  /** While `w` takes over from `v`: only these two values occur, and a rule that
      already remembers `w` has `w` at both ends. */
  ghost predicate Spreading(edges: seq<Edge>, e: Engine, group: set<Cell>, v: Word, w: Word) {
    && Sound(edges, e)
    && (forall c | c in group :: c in e.mem && (e.mem[c] == v || e.mem[c] == w) && Kept(c.area, w) == w)
    && (forall i | 0 <= i < |edges| && edges[i].src in group ::
          && Primed(e, i)
          && (e.rules[i].lastSrc == v || (e.rules[i].lastSrc == w == e.mem[edges[i].src] == e.mem[edges[i].dst])))
  }

  ghost function Taken(e: Engine, group: set<Cell>, w: Word): set<Cell> {
    set c | c in group && Read(e.mem, c) == w
  }

  lemma StepSpreads(edges: seq<Edge>, e: Engine, group: set<Cell>, v: Word, w: Word, k: nat)
    requires Spreading(edges, e, group, v, w) && Island(edges, group) && k < |edges|
    ensures Spreading(edges, Step(e, k), group, v, w)
    ensures Taken(e, group, w) <= Taken(Step(e, k), group, w)
    ensures edges[k].src in Taken(e, group, w) || edges[k].dst in Taken(e, group, w) ==>
              edges[k].src in Taken(Step(e, k), group, w) && edges[k].dst in Taken(Step(e, k), group, w)
  {
    StepJoins(edges, e, k);
    assert EdgeOf(e.rules[k]) == edges[k];
  }

  /** The first `k` rules of a pass that began in `e` have fired: wherever `w`
      was at one end of such a rule it is now at both. */
  ghost predicate Spread(edges: seq<Edge>, e: Engine, t: Engine, group: set<Cell>, v: Word, w: Word, k: nat) {
    && Spreading(edges, t, group, v, w)
    && Taken(e, group, w) <= Taken(t, group, w)
    && forall i | 0 <= i < k && i < |edges| ::
         edges[i].src in Taken(e, group, w) || edges[i].dst in Taken(e, group, w) ==>
           edges[i].src in Taken(t, group, w) && edges[i].dst in Taken(t, group, w)
  }

  lemma {:induction false} PrefixSpreads(edges: seq<Edge>, e: Engine, group: set<Cell>, v: Word, w: Word, k: nat)
    requires Spreading(edges, e, group, v, w) && Island(edges, group) && k <= |edges|
    ensures Spread(edges, e, Prefix(e, k), group, v, w, k)
  {
    hide Step, Spreading, SameShape, Island, Taken;
    assert |e.rules| == |edges| by { PrefixIsDefined(edges, e, group, v, w); }
    if k > 0 {
      PrefixSpreads(edges, e, group, v, w, k - 1);
      StepSpreads(edges, Prefix(e, k - 1), group, v, w, k - 1);
    }
  }

  lemma PrefixIsDefined(edges: seq<Edge>, e: Engine, group: set<Cell>, v: Word, w: Word)
    requires Spreading(edges, e, group, v, w)
    ensures |e.rules| == |edges|
  {
  }

  /** The cells holding `w` never get fewer, and more unless all do. */
  lemma {:induction false} PassesSpread(edges: seq<Edge>, e: Engine, group: set<Cell>, v: Word, w: Word, n: nat)
    requires Spreading(edges, e, group, v, w) && Island(edges, group) && Connected(edges, group)
    requires Taken(e, group, w) != {}
    ensures Spreading(edges, Passes(e, n), group, v, w)
    ensures Taken(e, group, w) <= Taken(Passes(e, n), group, w)
    ensures Taken(Passes(e, n), group, w) == group || n < |Taken(Passes(e, n), group, w)|
  {
    hide Prefix, SameShape, Spreading, Island, Taken;
    if n > 0 {
      PassesSpread(edges, e, group, v, w, n - 1);
      var p := Passes(e, n - 1);
      PrefixIsDefined(edges, p, group, v, w);
      PrefixSpreads(edges, p, group, v, w, |edges|);
      PassTakesMore(edges, p, Pass(p), group, v, w);
    } else {
      assert |Taken(e, group, w)| > 0;
    }
  }

  lemma PassTakesMore(edges: seq<Edge>, e: Engine, t: Engine, group: set<Cell>, v: Word, w: Word)
    requires Spread(edges, e, t, group, v, w, |edges|) && Connected(edges, group)
    requires Taken(e, group, w) != {}
    ensures Taken(t, group, w) == group || |Taken(e, group, w)| < |Taken(t, group, w)|
    ensures Taken(e, group, w) == group ==> Taken(t, group, w) == group
  {
    hide Spreading;
    var a, b := Taken(e, group, w), Taken(t, group, w);
    if a < group {
      var i :| 0 <= i < |edges| && Crosses(edges[i], a, group);
      var c := if edges[i].src in a then edges[i].dst else edges[i].src;
      assert c in b && c !in a;
      Fewer(a, b, c);
    }
  }

  lemma Fewer(a: set<Cell>, b: set<Cell>, c: Cell)
    requires a <= b && c in b && c !in a
    ensures |a| < |b|
  {
    Subset(a, b - {c});
  }

  lemma {:induction false} Subset(a: set<Cell>, b: set<Cell>)
    requires a <= b
    ensures |a| <= |b|
  {
    if a != {} {
      var x :| x in a;
      Subset(a - {x}, b - {x});
    }
  }

  /** An outside write of a single cell, as a client makes it. */
  function Poke(e: Engine, c: Cell, w: Word): Engine {
    e.(mem := Write(e.mem, c, w))
  }

  lemma {:induction false} GroupHasOneWidth(edges: seq<Edge>, e: Engine, group: set<Cell>, c: Cell, d: Cell)
    requires Sound(edges, e) && Connected(edges, group) && c in group && d in group
    ensures SameWidth(c, d)
  {
    var part := set x | x in group && SameWidth(c, x);
    assert c in part;
    forall i | 0 <= i < |edges| ensures !Crosses(edges[i], part, group) {
      assert SameWidth(edges[i].src, edges[i].dst);
    }
    assert !(part < group);
    assert part == group;
  }

  lemma PokeSpreads(edges: seq<Edge>, e: Engine, group: set<Cell>, v: Word, c: Cell, w: Word)
    requires Sound(edges, e) && Connected(edges, group) && SettledAt(edges, e, group, v) && c in group
    ensures var kept := Kept(c.area, w);
            Spreading(edges, Poke(e, c, w), group, v, kept) && c in Taken(Poke(e, c, w), group, kept)
  {
    var kept := Kept(c.area, w);
    forall d | d in group ensures Kept(d.area, kept) == kept {
      GroupHasOneWidth(edges, e, group, c, d);
    }
  }

  /** What the last pass adds: rules that see `w` at both ends remember it. */
  ghost predicate Confirmed(edges: seq<Edge>, e: Engine, group: set<Cell>, v: Word, w: Word, k: nat) {
    && Spreading(edges, e, group, v, w) && Holds(e, group, w)
    && forall i | 0 <= i < k && i < |edges| && edges[i].src in group :: e.rules[i].lastSrc == w
  }

  lemma StepConfirms(edges: seq<Edge>, e: Engine, group: set<Cell>, v: Word, w: Word, k: nat)
    requires Confirmed(edges, e, group, v, w, k) && Island(edges, group) && k < |edges|
    ensures Confirmed(edges, Step(e, k), group, v, w, k + 1)
  {
    StepSpreads(edges, e, group, v, w, k);
    StepJoins(edges, e, k);
    var t := Step(e, k);
    forall c | c in group ensures t.mem[c] == w {
      assert c in Taken(e, group, w);
    }
  }

  lemma {:induction false} PrefixConfirms(edges: seq<Edge>, e: Engine, group: set<Cell>, v: Word, w: Word, k: nat)
    requires Confirmed(edges, e, group, v, w, 0) && Island(edges, group) && k <= |edges| == |e.rules|
    ensures Confirmed(edges, Prefix(e, k), group, v, w, k)
  {
    hide Step, SameShape, Confirmed, Island;
    if k > 0 {
      PrefixConfirms(edges, e, group, v, w, k - 1);
      StepConfirms(edges, Prefix(e, k - 1), group, v, w, k - 1);
    }
  }

  lemma ConfirmedIsSettled(edges: seq<Edge>, e: Engine, group: set<Cell>, v: Word, w: Word)
    requires Confirmed(edges, e, group, v, w, |edges|)
    ensures Sound(edges, e) && SettledAt(edges, e, group, w)
  {
  }

  lemma TakenAllIsHolds(edges: seq<Edge>, e: Engine, group: set<Cell>, v: Word, w: Word)
    requires Spreading(edges, e, group, v, w) && Taken(e, group, w) == group
    ensures Confirmed(edges, e, group, v, w, 0)
  {
    forall c | c in group ensures e.mem[c] == w {
      assert c in Taken(e, group, w);
    }
  }

  /** A write of `w` into one cell of a settled group of `n` cells: no third
      value ever appears, cells that have taken `w` keep it, all have it after
      `n - 1` passes, and after `n` passes the group is settled at `w`, ready for
      the next write. */
  lemma OneWriteTakesOver(edges: seq<Edge>, e: Engine, group: set<Cell>, v: Word, c: Cell, w: Word, m: nat, n: nat)
    requires Sound(edges, e) && Island(edges, group) && Connected(edges, group)
    requires SettledAt(edges, e, group, v) && c in group && m <= n
    ensures var k, t := Kept(c.area, w), Passes(Poke(e, c, w), n);
            && Sound(edges, t)
            && (forall d | d in group :: Read(t.mem, d) in {v, k})
            && Taken(Passes(Poke(e, c, w), m), group, k) <= Taken(t, group, k)
            && (|group| - 1 <= n ==> Holds(t, group, k))
            && (|group| == n ==> SettledAt(edges, t, group, k))
  {
    hide SameShape, Pass, Spreading, Island, Connected, Holds, SettledAt, Taken;
    var k, start := Kept(c.area, w), Poke(e, c, w);
    PokeSpreads(edges, e, group, v, c, w);
    PassesSpread(edges, start, group, v, k, n);
    SpreadingCells(edges, Passes(start, n), group, v, k);
    TakenGrows(edges, start, group, v, k, m, n);
    if |group| - 1 <= n {
      EnoughPasses(edges, start, group, v, k, n);
    }
    if |group| == n {
      LastPassConfirms(edges, start, group, v, k, n);
    }
  }

  lemma SpreadingCells(edges: seq<Edge>, e: Engine, group: set<Cell>, v: Word, w: Word)
    requires Spreading(edges, e, group, v, w)
    ensures Sound(edges, e) && forall d | d in group :: Read(e.mem, d) in {v, w}
  {
  }

  lemma TakenGrows(edges: seq<Edge>, start: Engine, group: set<Cell>, v: Word, w: Word, m: nat, n: nat)
    requires Spreading(edges, start, group, v, w) && Island(edges, group) && Connected(edges, group)
    requires Taken(start, group, w) != {} && m <= n
    ensures Taken(Passes(start, m), group, w) <= Taken(Passes(start, n), group, w)
  {
    hide SameShape, Pass, Spreading, Island, Connected, Taken;
    PassesSpread(edges, start, group, v, w, m);
    PassesSpread(edges, Passes(start, m), group, v, w, n - m);
    PassesAdd(start, m, n - m);
  }

  lemma EnoughPasses(edges: seq<Edge>, start: Engine, group: set<Cell>, v: Word, w: Word, n: nat)
    requires Spreading(edges, start, group, v, w) && Island(edges, group) && Connected(edges, group)
    requires Taken(start, group, w) != {} && |group| - 1 <= n
    ensures Holds(Passes(start, n), group, w)
  {
    hide SameShape, Pass, Spreading, Island, Connected;
    var t := Passes(start, n);
    PassesSpread(edges, start, group, v, w, n);
    if Taken(t, group, w) != group {
      Subset(Taken(t, group, w), group);
      EqualSets(Taken(t, group, w), group);
    }
    TakenAllIsHolds(edges, t, group, v, w);
  }

  lemma LastPassConfirms(edges: seq<Edge>, start: Engine, group: set<Cell>, v: Word, w: Word, n: nat)
    requires Spreading(edges, start, group, v, w) && Island(edges, group) && Connected(edges, group)
    requires Taken(start, group, w) != {} && |group| == n
    ensures Sound(edges, Passes(start, n)) && SettledAt(edges, Passes(start, n), group, w)
  {
    hide SameShape, Prefix, Spreading, Island;
    assert group != {};
    var q := Passes(start, n - 1);
    PassesSpread(edges, start, group, v, w, n - 1);
    Subset(Taken(q, group, w), group);
    if |Taken(q, group, w)| == |group| {
      EqualSets(Taken(q, group, w), group);
    }
    TakenAllIsHolds(edges, q, group, v, w);
    PrefixIsDefined(edges, q, group, v, w);
    PrefixConfirms(edges, q, group, v, w, |edges|);
    ConfirmedIsSettled(edges, Pass(q), group, v, w);
  }

  lemma EqualSets(a: set<Cell>, b: set<Cell>)
    requires a <= b && |a| == |b|
    ensures a == b
  {
    if x :| x in b && x !in a {
      Fewer(a, b, x);
    }
  }
}
