/** What goes differently when two rules join the same two cells: a ring may be
    kept still by a rule listed twice, and a star joined twice may oscillate. */
module ParallelRules {
  import opened Cells
  import opened Mapping
  import opened MappingGraph
  import opened Flipping
  import Settling

  // A ring of three, one of its rules listed again.

  function StillRing(a: Cell, b: Cell, c: Cell): seq<Edge> {
    [Edge(a, b), Edge(b, c), Edge(a, b), Edge(c, a)]
  }

  ghost predicate Running(a: Cell, b: Cell, c: Cell, e: Engine) {
    Sound(StillRing(a, b, c), e) && a in e.mem && b in e.mem && c in e.mem
  }

  lemma SoundIsRunning(a: Cell, b: Cell, c: Cell, e: Engine)
    requires Sound(StillRing(a, b, c), e)
    ensures Running(a, b, c, e)
  {
    assert StillRing(a, b, c)[0] == Edge(a, b) && StillRing(a, b, c)[1] == Edge(b, c);
  }

  /** All three cells are equal. */
  ghost predicate Flat(a: Cell, b: Cell, c: Cell, e: Engine) {
    Running(a, b, c, e) && e.mem[a] == e.mem[b] == e.mem[c]
  }

  /** Flat, and the first `k` rules remember the value of the cells. */
  ghost predicate Known(a: Cell, b: Cell, c: Cell, e: Engine, k: nat) {
    Flat(a, b, c, e) && forall i | 0 <= i < k && i < 4 :: Primed(e, i) && e.rules[i].lastSrc == e.mem[a]
  }

  lemma FlatStays(a: Cell, b: Cell, c: Cell, e: Engine, k: nat)
    requires Known(a, b, c, e, k) && k < 4
    ensures Known(a, b, c, Step(e, k), k + 1)
  {
    StepJoins(StillRing(a, b, c), e, k);
  }

  lemma {:induction false} FlatRest(a: Cell, b: Cell, c: Cell, e: Engine, k: nat, n: nat)
    requires |e.rules| == 4 && k <= n <= 4 && Known(a, b, c, Prefix(e, k), k)
    ensures Known(a, b, c, Prefix(e, n), n)
  {
    hide Step, Known;
    if k < n {
      FlatRest(a, b, c, e, k, n - 1);
      FlatStays(a, b, c, Prefix(e, n - 1), n - 1);
    }
  }

  /** After any pass the second rule remembers what the third cell got from it. */
  lemma AfterOnePass(a: Cell, b: Cell, c: Cell, e: Engine)
    requires Running(a, b, c, e) && a != b && b != c && a != c
    ensures var t := Pass(e);
            && Running(a, b, c, t) && Primed(t, 1) && t.mem[c] == t.mem[a]
            && (t.mem[a] == t.mem[b] || t.mem[a] == t.rules[1].lastSrc)
  {
    var edges := StillRing(a, b, c);
    var e1 := Step(e, 0);
    StepJoins(edges, e, 0);
    var e2 := Step(e1, 1);
    StepJoins(edges, e1, 1);
    var e3 := Step(e2, 2);
    StepJoins(edges, e2, 2);
    var e4 := Step(e3, 3);
    StepJoins(edges, e3, 3);
    assert e4.rules[1] == e2.rules[1];
    hide Step;
    PassOfFour(e);
  }

  lemma PassOfFour(e: Engine)
    requires |e.rules| == 4
    ensures Prefix(e, 2) == Step(Step(e, 0), 1)
    ensures Pass(e) == Step(Step(Step(Step(e, 0), 1), 2), 3)
  {
    hide Step, WellFormed;
    assert Prefix(e, 0) == e;
    assert Prefix(e, 1) == Step(Prefix(e, 0), 0);
    assert Prefix(e, 2) == Step(Prefix(e, 1), 1);
    assert Prefix(e, 3) == Step(Prefix(e, 2), 2);
    assert Prefix(e, 4) == Step(Prefix(e, 3), 3);
  }

  /** Two rules into the next pass the ring is flat. */
  lemma SoonFlat(a: Cell, b: Cell, c: Cell, e: Engine)
    requires Running(a, b, c, e) && a != b && b != c && a != c
    requires Primed(e, 1) && e.mem[c] == e.mem[a] && (e.mem[a] == e.mem[b] || e.mem[a] == e.rules[1].lastSrc)
    ensures Known(a, b, c, Step(Step(e, 0), 1), 2)
  {
    var edges := StillRing(a, b, c);
    StepJoins(edges, e, 0);
    var e1 := Step(e, 0);
    StepJoins(edges, e1, 1);
    assert e1.rules[1] == e.rules[1] && EdgeOf(e.rules[1]) == edges[1];
    assert e1.mem[c] == Kept(c.area, e1.mem[c]) && e1.mem[b] == Kept(b.area, e1.mem[b]);
  }

  /** From any state such a ring is settled after two passes. */
  lemma RingKeptStill(a: Cell, b: Cell, c: Cell, e: Engine)
    requires a != b && b != c && a != c && Sound(StillRing(a, b, c), e)
    ensures IsCycle(StillRing(a, b, c), [a, b, c], [0, 1, 3])
    ensures Settled(Passes(e, 2))
  {
    assert IsCycle(StillRing(a, b, c), [a, b, c], [0, 1, 3]);
    SoundIsRunning(a, b, c, e);
    hide Step, Prefix, IsCycle, SameShape, WellFormed, Known;
    AfterOnePass(a, b, c, e);
    var t := Pass(e);
    SoonFlat(a, b, c, t);
    PassOfFour(t);
    FlatRest(a, b, c, t, 2, 4);
    KnownIsSettled(a, b, c, Prefix(t, 4));
    hide Pass;
    assert Passes(e, 2) == Pass(Passes(e, 1)) && Passes(e, 1) == Pass(Passes(e, 0));
  }

  lemma KnownIsSettled(a: Cell, b: Cell, c: Cell, e: Engine)
    requires Known(a, b, c, e, 4)
    ensures Settled(e)
  {
    assert forall i | 0 <= i < 4 :: EdgeOf(e.rules[i]) == StillRing(a, b, c)[i];
  }

  // A star of three, joined twice.

  /** Rules between `h` and `x`, `y`, `z` in turn, twice round, each in any
      direction: the same rules listed twice, say, or both ways for each spoke. */
  ghost predicate DoubledStar(edges: seq<Edge>, h: Cell, x: Cell, y: Cell, z: Cell) {
    && |edges| == 6
    && Joins(edges[0], h, x) && Joins(edges[1], h, y) && Joins(edges[2], h, z)
    && Joins(edges[3], h, x) && Joins(edges[4], h, y) && Joins(edges[5], h, z)
  }

  lemma HubAtOneEnd(edges: seq<Edge>, h: Cell, x: Cell, y: Cell, z: Cell, i: nat, a: Cell, b: Cell)
    requires DoubledStar(edges, h, x, y, z) && h != x && h != y && h != z
    ensures i < 6 && Joins(edges[i], a, b) ==> (a == h) != (b == h)
  {
  }

  lemma DoubledStarHasNoRing(edges: seq<Edge>, h: Cell, x: Cell, y: Cell, z: Cell)
    requires DoubledStar(edges, h, x, y, z) && h != x && h != y && h != z
    ensures Acyclic(edges)
  {
    forall cyc, ord ensures !IsCycle(edges, cyc, ord) {
      if 3 <= |cyc| == |ord| {
        HubAtOneEnd(edges, h, x, y, z, ord[0], cyc[0], cyc[1]);
        HubAtOneEnd(edges, h, x, y, z, ord[1], cyc[1], cyc[2]);
        HubAtOneEnd(edges, h, x, y, z, ord[2], cyc[2], cyc[Next(2, |cyc|)]);
      }
    }
  }

  lemma LatestIs(edges: seq<Edge>, x: Cell, k: nat, p: nat)
    requires k < |edges| && p < |edges| && Touches(edges[p], x)
    requires if p < k then forall j | p < j < k :: !Touches(edges[j], x)
             else forall j | 0 <= j < k || p < j < |edges| :: !Touches(edges[j], x)
    ensures Latest(edges, x, k) == p
  {
    assert Touches(edges[Latest(edges, x, k)], x);
  }

  /** The hub's last rule is the one before, a spoke's the other one of its two. */
  lemma LatestInStar(edges: seq<Edge>, h: Cell, x: Cell, y: Cell, z: Cell, k: nat)
    requires DoubledStar(edges, h, x, y, z) && Distinct([h, x, y, z]) && k < 6
    ensures var spoke := Other(edges[k], h);
            && Touches(edges[k], h) && Latest(edges, h, k) == (if k == 0 then 5 else k - 1)
            && Touches(edges[k], spoke) && Latest(edges, spoke, k) == if k < 3 then k + 3 else k - 3
  {
    assert [h, x, y, z][0] == h && [h, x, y, z][1] == x && [h, x, y, z][2] == y && [h, x, y, z][3] == z;
    LatestIs(edges, h, k, if k == 0 then 5 else k - 1);
    LatestIs(edges, Other(edges[k], h), k, if k < 3 then k + 3 else k - 3);
  }

  /** It closes no ring and yet does not always settle. */
  lemma DoubledStarOscillates(edges: seq<Edge>, h: Cell, x: Cell, y: Cell, z: Cell)
    requires DoubledStar(edges, h, x, y, z) && Distinct([h, x, y, z]) && Settling.EqualWidths(edges)
    ensures Acyclic(edges) && !Settling.AlwaysSettles(edges)
  {
    hide Acyclic, Settling.AlwaysSettles, Latest;
    assert [h, x, y, z][0] == h && [h, x, y, z][1] == x && [h, x, y, z][2] == y && [h, x, y, z][3] == z;
    DoubledStarHasNoRing(edges, h, x, y, z);
    var on, c := {0, 1, 2, 3, 4, 5}, [false, false, true, true, false, false];
    forall k | k in on ensures Restless(edges, c, k) {
      LatestInStar(edges, h, x, y, z, k);
    }
    assert Closed(edges, on);
    AlternatingUnsettles(edges, on, c, 0);
  }

  /** For one: every spoke mapped from the hub and back. */
  lemma BothWaysStarOscillates(h: Cell, x: Cell, y: Cell, z: Cell)
    requires Distinct([h, x, y, z]) && SameWidth(h, x) && SameWidth(h, y) && SameWidth(h, z)
    ensures var edges := [Edge(h, x), Edge(h, y), Edge(h, z), Edge(x, h), Edge(y, h), Edge(z, h)];
            Acyclic(edges) && !Settling.AlwaysSettles(edges)
  {
    hide Acyclic, Settling.AlwaysSettles;
    DoubledStarOscillates([Edge(h, x), Edge(h, y), Edge(h, z), Edge(x, h), Edge(y, h), Edge(z, h)], h, x, y, z);
  }
}
