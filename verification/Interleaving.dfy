/** Passes during which clients write. The pass holds a lock on the rules but not
    on the cells, so writes of clients fall between its rules. */
module Interleaving {
  import opened Cells
  import opened Mapping

  /** Rules as they are loaded: none has seen a pass. */
  function Loaded(edges: seq<Edge>, m: Store): (e: Engine)
    ensures |e.rules| == |edges|
  {
    Engine(m, seq(|edges|, i requires 0 <= i < |edges| => MappingRule(edges[i].src, edges[i].dst, 0, 0, false)))
  }

  function Touched(e: Engine, writes: seq<ClientWrite>): (t: Engine)
    ensures SameShape(e, t) && t.rules == e.rules
  {
    e.(mem := Written(e.mem, writes))
  }

  /** The first `k` rules have fired, the writes `writes[i]` before rule `i`. */
  function MixedPrefix(e: Engine, writes: seq<seq<ClientWrite>>, k: nat): (t: Engine)
    requires k <= |e.rules| <= |writes|
    ensures SameShape(e, t)
  {
    if k == 0 then e else Step(Touched(MixedPrefix(e, writes, k - 1), writes[k - 1]), k - 1)
  }

  /** A whole pass; the last writes come behind it. */
  function MixedPass(e: Engine, writes: seq<seq<ClientWrite>>): (t: Engine)
    requires |writes| == |e.rules| + 1
    ensures SameShape(e, t)
  {
    Touched(MixedPrefix(e, writes, |e.rules|), writes[|e.rules|])
  }

  /** Any number of passes with clients at work. */
  function MixedPasses(e: Engine, clients: seq<seq<seq<ClientWrite>>>): (t: Engine)
    requires forall p | 0 <= p < |clients| :: |clients[p]| == |e.rules| + 1
    ensures SameShape(e, t)
  {
    if clients == [] then e
    else
      var k := |clients| - 1;
      MixedPass(MixedPasses(e, clients[..k]), clients[k])
  }

  // Which states there are.

  /** Every rule remembers one value, and one that its cells can hold. */
  ghost predicate Plausible(e: Engine) {
    forall i | 0 <= i < |e.rules| :: Primed(e, i) && Kept(e.rules[i].src.area, e.rules[i].lastSrc) == e.rules[i].lastSrc
  }

  /** Writes that turn one memory into another, which differs from it in `cells`
      only. */
  lemma {:induction false} WritesBetween(m: Store, t: Store, cells: set<Cell>) returns (writes: seq<ClientWrite>)
    requires t.Keys == m.Keys && WellFormed(m) && WellFormed(t)
    requires forall c | c in m && c !in cells :: m[c] == t[c]
    ensures Written(m, writes) == t
  {
    if c :| c in cells {
      var s := if c in m then t[c := m[c]] else t;
      var before := WritesBetween(m, s, cells - {c});
      writes := before + [ClientWrite(c, if c in m then t[c] else 0)];
      assert writes[..|before|] == before;
      assert c in m ==> t[c] == Kept(c.area, t[c]);
    } else {
      writes := [];
      assert m == t;
    }
  }

  /** A client that writes both ends of every rule just before it fires decides
      what the rule remembers. */
  function Priming(e: Engine): (writes: seq<seq<ClientWrite>>)
    ensures |writes| == |e.rules|
  {
    seq(|e.rules|, i requires 0 <= i < |e.rules| =>
      [ClientWrite(e.rules[i].src, e.rules[i].lastSrc), ClientWrite(e.rules[i].dst, e.rules[i].lastSrc)])
  }

  lemma PrimeOne(e: Engine, k: nat, r: MappingRule)
    requires WellFormed(e.mem) && k < |e.rules| && !e.rules[k].initialized && EdgeOf(e.rules[k]) == EdgeOf(r)
    requires r.initialized && r.lastSrc == r.lastDst && SameWidth(r.src, r.dst) && Kept(r.src.area, r.lastSrc) == r.lastSrc
    requires r.src in e.mem && r.dst in e.mem
    ensures Step(Touched(e, [ClientWrite(r.src, r.lastSrc), ClientWrite(r.dst, r.lastSrc)]), k).rules == e.rules[k := r]
  {
    var w, v := [ClientWrite(r.src, r.lastSrc), ClientWrite(r.dst, r.lastSrc)], r.lastSrc;
    assert w[..1] == [w[0]] && w[..1][..0] == [] && Written(e.mem, []) == e.mem;
    assert Written(e.mem, [w[0]]) == Write(e.mem, r.src, v);
  }

  lemma {:induction false} PrimingPrefix(edges: seq<Edge>, m: Store, target: Engine, writes: seq<seq<ClientWrite>>, k: nat)
    requires Sound(edges, target) && Plausible(target) && WellFormed(m) && m.Keys == target.mem.Keys
    requires k <= |edges| <= |writes| && writes == Priming(target)
    ensures MixedPrefix(Loaded(edges, m), writes, k).rules == target.rules[..k] + Loaded(edges, m).rules[k..]
  {
    hide Step, Touched, WellFormed, Plausible, Loaded, Priming, SameWidth;
    if k == 0 {
      NothingPrimed(Loaded(edges, m), target.rules, writes);
    } else {
      hide MixedPrefix, Sound;
      PrimingPrefix(edges, m, target, writes, k - 1);
      PrimingStep(edges, m, target, writes, k - 1);
    }
  }

  lemma NothingPrimed(e: Engine, rules: seq<MappingRule>, writes: seq<seq<ClientWrite>>)
    requires |e.rules| <= |writes|
    ensures MixedPrefix(e, writes, 0).rules == rules[..0] + e.rules[0..]
  {
  }

  lemma PrimingStep(edges: seq<Edge>, m: Store, target: Engine, writes: seq<seq<ClientWrite>>, k: nat)
    requires Sound(edges, target) && Plausible(target) && WellFormed(m) && m.Keys == target.mem.Keys
    requires k < |edges| <= |writes| && writes == Priming(target)
    requires MixedPrefix(Loaded(edges, m), writes, k).rules == target.rules[..k] + Loaded(edges, m).rules[k..]
    ensures MixedPrefix(Loaded(edges, m), writes, k + 1).rules == target.rules[..k + 1] + Loaded(edges, m).rules[k + 1..]
  {
    hide Step, Touched;
    var p, r := MixedPrefix(Loaded(edges, m), writes, k), target.rules[k];
    assert EdgeOf(r) == edges[k] && Primed(target, k);
    assert p.rules[k] == Loaded(edges, m).rules[k];
    PrimeOne(p, k, r);
    assert p.rules[k := r] == target.rules[..k + 1] + Loaded(edges, m).rules[k + 1..];
  }

  /** From freshly loaded rules, over any memory, one pass with clients at work
      can end in any state whose rules remember values of their cells. */
  lemma PlausibleStatesAreReached(edges: seq<Edge>, m: Store, target: Engine) returns (writes: seq<seq<ClientWrite>>)
    requires Sound(edges, target) && Plausible(target) && WellFormed(m) && m.Keys == target.mem.Keys
    ensures |writes| == |edges| + 1 && MixedPass(Loaded(edges, m), writes) == target
  {
    var n := |edges|;
    var p := MixedPrefix(Loaded(edges, m), Priming(target), n);
    var last := WritesBetween(p.mem, target.mem, target.mem.Keys);
    writes := Priming(target) + [last];
    assert writes[..n] == Priming(target);
    PrimingPrefix(edges, m, target, Priming(target), n);
    SamePrefix(Loaded(edges, m), Priming(target), writes, n);
  }

  lemma {:induction false} SamePrefix(e: Engine, a: seq<seq<ClientWrite>>, b: seq<seq<ClientWrite>>, k: nat)
    requires k <= |e.rules| <= |a| <= |b| && a == b[..|a|]
    ensures MixedPrefix(e, a, k) == MixedPrefix(e, b, k)
  {
    if k > 0 {
      SamePrefix(e, a, b, k - 1);
      assert a[k - 1] == b[k - 1];
    }
  }
}
