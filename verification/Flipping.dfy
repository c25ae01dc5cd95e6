/** Lists in which every rule finds a changed cell in every pass, so that all
    their cells alternate between 0 and 1 for ever. Any list without parallel
    rules that closes a ring of odd length is one. */
module Flipping {
  import opened Words
  import opened Cells
  import opened Mapping
  import opened MappingGraph
  import opened Interleaving
  import Settling

  // Who wrote a cell last.

  /** The last rule below `k` that touches `x`, or -1. */
  function LastBelow(edges: seq<Edge>, x: Cell, k: nat): (p: int)
    requires k <= |edges|
    ensures -1 <= p < k && (p >= 0 ==> Touches(edges[p], x))
    ensures forall j | p < j < k :: !Touches(edges[j], x)
  {
    if k == 0 then -1 else if Touches(edges[k - 1], x) then k - 1 else LastBelow(edges, x, k - 1)
  }

  /** The rule that fired last at `x` when a pass has come to rule `k`. */
  function Latest(edges: seq<Edge>, x: Cell, k: nat): (p: nat)
    requires k <= |edges| && exists j :: 0 <= j < |edges| && Touches(edges[j], x)
    ensures p < |edges| && Touches(edges[p], x)
    ensures p < k ==> forall j | p < j < k :: !Touches(edges[j], x)
    ensures p >= k ==> forall j | 0 <= j < k || p < j < |edges| :: !Touches(edges[j], x)
  {
    if LastBelow(edges, x, k) >= 0 then LastBelow(edges, x, k) else LastBelow(edges, x, |edges|)
  }

  // Marks.

  function Bit(b: bool): Word {
    if b then 1 else 0
  }

  /** With these marks, rule `k` finds at its end `x` another value than it
      remembers, in every pass. */
  predicate Contrary(edges: seq<Edge>, c: seq<bool>, k: nat, x: Cell)
    requires |c| == |edges| && k < |edges| && Touches(edges[k], x)
  {
    var p := Latest(edges, x, k);
    p != k && ((c[p] == c[k]) == (p < k))
  }

  ghost predicate Restless(edges: seq<Edge>, c: seq<bool>, k: nat)
    requires |c| == |edges| && k < |edges|
  {
    Contrary(edges, c, k, edges[k].src) || Contrary(edges, c, k, edges[k].dst)
  }

  /** Rules `on` share no cell with others. */
  ghost predicate Closed(edges: seq<Edge>, on: set<nat>) {
    forall i, j | i in on && 0 <= i < |edges| && 0 <= j < |edges| ::
      Touches(edges[j], edges[i].src) || Touches(edges[j], edges[i].dst) ==> j in on
  }

  ghost predicate AllRestless(edges: seq<Edge>, on: set<nat>, c: seq<bool>) {
    |c| == |edges| && Closed(edges, on) && forall k | k in on :: k < |edges| && Restless(edges, c, k)
  }

  // The state: every pass turns all marks round.

  /** What rule `i` remembers in a pass of parity `odd` that has come to rule `k`. */
  function Mark(c: seq<bool>, odd: bool, k: nat, i: nat): Word
    requires i < |c|
  {
    Bit((c[i] != odd) != (i < k))
  }

  ghost predicate Marked(edges: seq<Edge>, c: seq<bool>, e: Engine, odd: bool, k: nat, i: nat)
    requires Sound(edges, e) && |c| == |edges| && i < |edges| && k <= |edges|
  {
    && Primed(e, i) && e.rules[i].lastSrc == Mark(c, odd, k, i)
    && e.mem[edges[i].src] == Mark(c, odd, k, Latest(edges, edges[i].src, k))
    && e.mem[edges[i].dst] == Mark(c, odd, k, Latest(edges, edges[i].dst, k))
  }

  ghost predicate Turning(edges: seq<Edge>, on: set<nat>, c: seq<bool>, e: Engine, odd: bool, k: nat) {
    && Sound(edges, e) && |c| == |edges| && k <= |edges|
    && forall i | i in on && i < |edges| :: Marked(edges, c, e, odd, k, i)
  }

  lemma SeesOther(edges: seq<Edge>, c: seq<bool>, odd: bool, k: nat, x: Cell)
    requires |c| == |edges| && k < |edges| && Touches(edges[k], x) && Contrary(edges, c, k, x)
    ensures Mark(c, odd, k, Latest(edges, x, k)) != Mark(c, odd, k, k)
  {
    hide Latest;
  }

  lemma MarkTurns(c: seq<bool>, odd: bool, k: nat)
    requires k < |c|
    ensures Mark(c, odd, k + 1, k) == 1 - Mark(c, odd, k, k)
    ensures forall i: nat | i < |c| :: 0 <= Mark(c, odd, k, i) <= 1
  {
  }

  /** A restless rule that fires turns its own mark and both its cells round. */
  lemma FireRestless(edges: seq<Edge>, c: seq<bool>, e: Engine, odd: bool, k: nat)
    requires Sound(edges, e) && |c| == |edges| && k < |edges| && Restless(edges, c, k) && Marked(edges, c, e, odd, k, k)
    ensures var v, t := Mark(c, odd, k + 1, k), Step(e, k);
            && t.mem == e.mem[edges[k].src := v][edges[k].dst := v]
            && t.rules == e.rules[k := e.rules[k].(lastSrc := v, lastDst := v)]
  {
    hide Latest, Mark, Contrary;
    MarkTurns(c, odd, k);
    if Contrary(edges, c, k, edges[k].src) {
      SeesOther(edges, c, odd, k, edges[k].src);
    } else {
      SeesOther(edges, c, odd, k, edges[k].dst);
    }
    assert EdgeOf(e.rules[k]) == edges[k];
  }

  lemma LatestMoves(edges: seq<Edge>, x: Cell, k: nat)
    requires k < |edges| && exists j :: 0 <= j < |edges| && Touches(edges[j], x)
    ensures Latest(edges, x, k + 1) == if Touches(edges[k], x) then k else Latest(edges, x, k)
  {
  }

  /** What another rule's firing does to a rule that shares cells with it. */
  lemma OnTurns(edges: seq<Edge>, c: seq<bool>, e: Engine, odd: bool, k: nat, i: nat)
    requires Sound(edges, e) && |c| == |edges| && k < |edges| && i < |edges|
    requires Restless(edges, c, k) && Marked(edges, c, e, odd, k, k) && Marked(edges, c, e, odd, k, i)
    ensures Sound(edges, Step(e, k)) && Marked(edges, c, Step(e, k), odd, k + 1, i)
  {
    hide Latest, Restless, Mark, WellFormed;
    StepJoins(edges, e, k);
    FireRestless(edges, c, e, odd, k);
    hide Step;
    TouchesItsEnds(edges, i);
    LatestMoves(edges, edges[i].src, k);
    LatestMoves(edges, edges[i].dst, k);
    MarksStay(edges, c, odd, k);
  }

  lemma OffStays(edges: seq<Edge>, c: seq<bool>, e: Engine, odd: bool, k: nat, i: nat)
    requires Sound(edges, e) && |c| == |edges| && k < |edges| && i < |edges|
    requires Marked(edges, c, e, odd, k, i) && !Touches(edges[k], edges[i].src) && !Touches(edges[k], edges[i].dst)
    ensures Sound(edges, Step(e, k)) && Marked(edges, c, Step(e, k), odd, k + 1, i)
  {
    hide Latest, Mark, WellFormed;
    StepJoins(edges, e, k);
    TouchesItsEnds(edges, i);
    LatestMoves(edges, edges[i].src, k);
    LatestMoves(edges, edges[i].dst, k);
    MarksStay(edges, c, odd, k);
    assert i != k;
  }

  lemma StepTurns(edges: seq<Edge>, on: set<nat>, c: seq<bool>, e: Engine, odd: bool, k: nat)
    requires AllRestless(edges, on, c) && Turning(edges, on, c, e, odd, k) && k < |edges|
    ensures Turning(edges, on, c, Step(e, k), odd, k + 1)
  {
    hide Step, Restless, Marked, WellFormed;
    StepJoins(edges, e, k);
    forall i | i in on && i < |edges| ensures Marked(edges, c, Step(e, k), odd, k + 1, i) {
      if k in on {
        OnTurns(edges, c, e, odd, k, i);
      } else {
        OffStays(edges, c, e, odd, k, i);
      }
    }
  }

  lemma TouchesItsEnds(edges: seq<Edge>, i: nat)
    requires i < |edges|
    ensures exists j :: 0 <= j < |edges| && Touches(edges[j], edges[i].src)
    ensures exists j :: 0 <= j < |edges| && Touches(edges[j], edges[i].dst)
  {
    assert Touches(edges[i], edges[i].src) && Touches(edges[i], edges[i].dst);
  }

  lemma MarksStay(edges: seq<Edge>, c: seq<bool>, odd: bool, k: nat)
    requires |c| == |edges| && k < |edges|
    ensures forall j: nat | j < |edges| && j != k :: Mark(c, odd, k + 1, j) == Mark(c, odd, k, j)
  {
  }

  lemma {:induction false} PrefixTurns(edges: seq<Edge>, on: set<nat>, c: seq<bool>, e: Engine, odd: bool, k: nat)
    requires AllRestless(edges, on, c) && Turning(edges, on, c, e, odd, 0) && k <= |edges| == |e.rules|
    ensures Turning(edges, on, c, Prefix(e, k), odd, k)
  {
    hide Step, SameShape, Turning, AllRestless;
    if k > 0 {
      PrefixTurns(edges, on, c, e, odd, k - 1);
      StepTurns(edges, on, c, Prefix(e, k - 1), odd, k - 1);
    }
  }

  /** At the end of a pass everything is turned round. */
  lemma NextPass(edges: seq<Edge>, c: seq<bool>, e: Engine, odd: bool, i: nat)
    requires Sound(edges, e) && |c| == |edges| && i < |edges| && Marked(edges, c, e, odd, |edges|, i)
    ensures Marked(edges, c, e, !odd, 0, i)
  {
    TouchesItsEnds(edges, i);
    assert forall j: nat | j < |edges| :: Mark(c, odd, |edges|, j) == Mark(c, !odd, 0, j);
  }

  lemma PassTurns(edges: seq<Edge>, on: set<nat>, c: seq<bool>, e: Engine, odd: bool)
    requires AllRestless(edges, on, c) && Turning(edges, on, c, e, odd, 0)
    ensures Turning(edges, on, c, Pass(e), !odd, 0)
  {
    hide Prefix, Marked, AllRestless;
    PrefixTurns(edges, on, c, e, odd, |edges|);
    forall i | i in on && i < |edges| ensures Marked(edges, c, Pass(e), !odd, 0, i) {
      NextPass(edges, c, Pass(e), odd, i);
    }
  }

  predicate IsOdd(n: nat) {
    n % 2 == 1
  }

  lemma {:induction false} PassesTurn(edges: seq<Edge>, on: set<nat>, c: seq<bool>, e: Engine, n: nat)
    requires AllRestless(edges, on, c) && Turning(edges, on, c, e, false, 0)
    ensures Turning(edges, on, c, Passes(e, n), IsOdd(n), 0)
  {
    hide Pass, SameShape, Turning, AllRestless;
    if n > 0 {
      PassesTurn(edges, on, c, e, n - 1);
      PassTurns(edges, on, c, Passes(e, n - 1), IsOdd(n - 1));
    }
  }

  // Starting it.

  ghost function StartValue(edges: seq<Edge>, c: seq<bool>, x: Cell): (v: Word)
    requires |c| == |edges|
    ensures v <= 1
  {
    if exists j :: 0 <= j < |edges| && Touches(edges[j], x) then Mark(c, false, 0, Latest(edges, x, 0)) else 0
  }

  ghost function Start(edges: seq<Edge>, c: seq<bool>, keys: set<Cell>): Engine
    requires |c| == |edges|
  {
    Engine(map x | x in keys :: StartValue(edges, c, x),
           seq(|edges|, k requires 0 <= k < |edges| =>
             var v := Mark(c, false, 0, k); MappingRule(edges[k].src, edges[k].dst, v, v, true)))
  }

  lemma StartTurns(edges: seq<Edge>, on: set<nat>, c: seq<bool>, keys: set<Cell>)
    requires |c| == |edges|
    requires forall i | 0 <= i < |edges| ::
               edges[i].src in keys && edges[i].dst in keys && SameWidth(edges[i].src, edges[i].dst)
    ensures var e := Start(edges, c, keys);
            e.mem.Keys == keys && Plausible(e) && Turning(edges, on, c, e, false, 0)
  {
    hide Latest;
    var e := Start(edges, c, keys);
    assert Sound(edges, e);
    forall i | 0 <= i < |edges| ensures Marked(edges, c, e, false, 0, i) {
      TouchesItsEnds(edges, i);
    }
  }

  /** The cells that the rules `on` touch change with every pass. */
  ghost predicate Alternates(edges: seq<Edge>, on: set<nat>, e: Engine) {
    forall n: nat, i, x | i in on && 0 <= i < |edges| && Touches(edges[i], x) ::
      {Read(Passes(e, n).mem, x), Read(Passes(e, n + 1).mem, x)} == {0, 1}
  }

  lemma TurningAlternates(edges: seq<Edge>, on: set<nat>, c: seq<bool>, e: Engine, i: nat, x: Cell, n: nat)
    requires AllRestless(edges, on, c) && Turning(edges, on, c, e, false, 0)
    requires i in on && i < |edges| && Touches(edges[i], x)
    ensures {Read(Passes(e, n).mem, x), Read(Passes(e, n + 1).mem, x)} == {0, 1}
  {
    hide Passes, AllRestless, Latest, SameShape;
    PassesTurn(edges, on, c, e, n);
    PassesTurn(edges, on, c, e, n + 1);
    TouchesItsEnds(edges, i);
    assert Marked(edges, c, Passes(e, n), IsOdd(n), 0, i) && Marked(edges, c, Passes(e, n + 1), IsOdd(n + 1), 0, i);
  }

  /** Over any memory, clients can start the alternation within the first pass. */
  lemma RestlessAlternates(edges: seq<Edge>, on: set<nat>, c: seq<bool>, m: Store) returns (writes: seq<seq<ClientWrite>>)
    requires AllRestless(edges, on, c) && Sound(edges, Loaded(edges, m))
    ensures |writes| == |edges| + 1 && Alternates(edges, on, MixedPass(Loaded(edges, m), writes))
  {
    assert |c| == |edges|;
    hide AllRestless, Turning, Plausible, Passes;
    StartTurns(edges, on, c, m.Keys);
    var e := Start(edges, c, m.Keys);
    TurningIsSound(edges, on, c, e, false, 0);
    writes := PlausibleStatesAreReached(edges, m, e);
    forall n: nat, i, x | i in on && 0 <= i < |edges| && Touches(edges[i], x)
      ensures {Read(Passes(e, n).mem, x), Read(Passes(e, n + 1).mem, x)} == {0, 1}
    {
      TurningAlternates(edges, on, c, e, i, x, n);
    }
  }

  lemma TurningIsSound(edges: seq<Edge>, on: set<nat>, c: seq<bool>, e: Engine, odd: bool, k: nat)
    requires Turning(edges, on, c, e, odd, k)
    ensures Sound(edges, e)
  {
  }

  /** What alternates does not settle. */
  lemma AlternatingUnsettles(edges: seq<Edge>, on: set<nat>, c: seq<bool>, i: nat)
    requires AllRestless(edges, on, c) && i in on && i < |edges| && Settling.EqualWidths(edges)
    ensures !Settling.AlwaysSettles(edges)
  {
    hide AllRestless, Sound, Settled, Passes;
    var m := Settling.SomeMemory(edges);
    var writes := RestlessAlternates(edges, on, c, m);
    Settling.OnePass(Loaded(edges, m), writes);
    var e := MixedPasses(Loaded(edges, m), [writes]);
    forall n: nat ensures !Settled(Passes(e, n)) {
      assert Touches(edges[i], edges[i].src);
      assert Read(Passes(e, n).mem, edges[i].src) != Read(Passes(e, n + 1).mem, edges[i].src) by {
        assert {Read(Passes(e, n).mem, edges[i].src), Read(Passes(e, n + 1).mem, edges[i].src)} == {0, 1};
      }
      PassesAdd(e, n, 1);
      if Settled(Passes(e, n)) {
        SettledStays(Passes(e, n), 1);
      }
    }
    assert !Settling.Settles(e);
  }
}
