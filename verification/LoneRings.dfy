/** A rule that lies on a single ring keeps its list from settling: a change that
    sets out from one of its two ends comes round too late. */
module LoneRings {
  import opened Cells
  import opened Mapping
  import opened MappingGraph
  import opened SlowRules
  import Settling

  /** Two rings that rule `z` lies on have the same rules. */
  ghost predicate OnOneRing(edges: seq<Edge>, z: nat) {
    forall c, o, d, p | IsCycle(edges, c, o) && IsCycle(edges, d, p) && z in o && z in p :: SameRules(o, p)
  }

  ghost predicate SameRules(o: seq<nat>, p: seq<nat>) {
    forall r :: r in o <==> r in p
  }

  // The way a change has come.

  /** Cells and rules by which the change came from `b`, in the order it took. */
  ghost predicate Way(edges: seq<Edge>, z: nat, b: Cell, f: Front, p: seq<Cell>, q: seq<nat>) {
    && |p| == |q| + 1 && p[0] == b && b in f && f[b] == Moment(0, z)
    && (forall i {:trigger q[i]} | 0 <= i < |q| ::
          q[i] < |edges| && q[i] != z && Joins(edges[q[i]], p[i], p[i + 1]) && p[i + 1] in f && f[p[i + 1]].rule == q[i])
    && forall i, j | 0 <= i < j < |p| :: p[i] in f && p[j] in f && Before(f[p[i]], f[p[j]])
  }

  ghost predicate AllLit(edges: seq<Edge>, z: nat, b: Cell, f: Front) {
    && b in f && f[b] == Moment(0, z)
    && forall x | x in f && x != b :: Lit(edges, z, f, x)
  }

  lemma LongerWay(edges: seq<Edge>, z: nat, b: Cell, f: Front, p: seq<Cell>, q: seq<nat>, x: Cell)
    requires Way(edges, z, b, f, p, q) && x in f && Lit(edges, z, f, x) && p[|q|] == Other(edges[f[x].rule], x)
    ensures Way(edges, z, b, f, p + [x], q + [f[x].rule])
  {
    var p', q' := p + [x], q + [f[x].rule];
    forall i, j | 0 <= i < j < |p'| ensures p'[i] in f && p'[j] in f && Before(f[p'[i]], f[p'[j]]) {
      assert i < |q| ==> Before(f[p[i]], f[p[|q|]]);
    }
  }

  lemma {:induction false} WayTo(edges: seq<Edge>, z: nat, b: Cell, f: Front, x: Cell) returns (p: seq<Cell>, q: seq<nat>)
    requires AllLit(edges, z, b, f) && x in f
    ensures Way(edges, z, b, f, p, q) && p[|q|] == x
    decreases f[x].pass, f[x].rule
  {
    if x == b {
      p, q := [b], [];
    } else {
      assert Lit(edges, z, f, x);
      p, q := WayTo(edges, z, b, f, Other(edges[f[x].rule], x));
      LongerWay(edges, z, b, f, p, q, x);
      p, q := p + [x], q + [f[x].rule];
    }
  }

  /** If the change has come round to the other end of rule `z`, its way closes a
      ring. */
  lemma WayCloses(edges: seq<Edge>, z: nat, a: Cell, b: Cell, f: Front, p: seq<Cell>, q: seq<nat>)
    requires NoParallel(edges) && z < |edges| && Joins(edges[z], a, b) && a != b
    requires Way(edges, z, b, f, p, q) && p[|q|] == a
    ensures 2 <= |q| && IsCycle(edges, p, q + [z])
  {
    assert Joins(edges[q[0]], p[0], p[1]);
    var ord := q + [z];
    forall i, j | 0 <= i < j < |ord| ensures ord[i] != ord[j] {
      if j < |q| {
        assert Before(f[p[i + 1]], f[p[j + 1]]);
      }
    }
    forall i {:trigger ord[i]} | 0 <= i < |ord| ensures ord[i] < |edges| && Joins(edges[ord[i]], p[i], p[Next(i, |p|)]) {
    }
  }

  // Within one pass.

  /** When rule `r` fires first after the first firing of rule `z`. */
  function FirstFiring(z: nat, r: nat): Moment {
    After(Moment(0, z), r)
  }

  /** A change that has come round before rule `z` fires again closes a ring of
      rules that fire one after the other. */
  ghost predicate Rushing(edges: seq<Edge>, z: nat, b: Cell, p: seq<Cell>, q: seq<nat>) {
    && IsCycle(edges, p, q + [z]) && p[0] == b
    && forall i, j | 0 <= i < j < |q| :: Before(FirstFiring(z, q[i]), FirstFiring(z, q[j]))
  }

  lemma MomentIsFirstFiring(z: nat, m: Moment)
    requires Before(Moment(0, z), m) && Before(m, Moment(1, z))
    ensures m == FirstFiring(z, m.rule)
  {
  }

  lemma QuickRing(edges: seq<Edge>, z: nat, a: Cell, b: Cell) returns (p: seq<Cell>, q: seq<nat>)
    requires NoParallel(edges) && z < |edges| && Joins(edges[z], a, b) && a != b && a in Spread(edges, z, b, 1, z)
    ensures Rushing(edges, z, b, p, q)
  {
    hide Spread, NoParallel;
    var f := Spread(edges, z, b, 1, z);
    SpreadIsSensible(edges, z, b, 1, z);
    hide Lit;
    p, q := WayTo(edges, z, b, f, a);
    WayCloses(edges, z, a, b, f, p, q);
    hide IsCycle;
    forall i | 0 <= i < |q| ensures p[i + 1] in f && f[p[i + 1]] == FirstFiring(z, q[i]) {
      assert Before(f[p[0]], f[p[i + 1]]);
      MomentIsFirstFiring(z, f[p[i + 1]]);
      assert f[p[i + 1]].rule == q[i];
    }
  }

  /** Two such rings, one from each end of the rule, cannot have the same rules:
      what comes first on the one comes last on the other. */
  lemma RushesDiffer(edges: seq<Edge>, z: nat, a: Cell, b: Cell, p: seq<Cell>, q: seq<nat>, p': seq<Cell>, q': seq<nat>)
    requires z < |edges| && Joins(edges[z], a, b) && a != b
    requires Rushing(edges, z, b, p, q) && Rushing(edges, z, a, p', q')
    ensures !SameRules(q + [z], q' + [z])
  {
    var o, o', k := q + [z], q' + [z], |q'| - 1;
    assert o[0] == q[0] && o[1] == q[1] && o'[k] == q'[k];
    assert Joins(edges[o[0]], p[0], p[1]);
    assert Joins(edges[o'[k]], p'[k], p'[k + 1]) && Joins(edges[o'[k + 1]], p'[k + 1], p'[0]);
    assert p'[k + 1] == b;
    if SameRules(o, o') {
      assert q'[k] in o' && q[1] in o;
      assert q[1] in o' && q'[k] in o;
      OnlyFirst(edges, z, b, p, q, q'[k]);
    }
  }

  /** The first rule of the ring and `z` are the only ones at its first cell. */
  lemma OnlyFirst(edges: seq<Edge>, z: nat, b: Cell, p: seq<Cell>, q: seq<nat>, r: nat)
    requires Rushing(edges, z, b, p, q) && r in q + [z] && r != z && r < |edges| && Touches(edges[r], b)
    ensures r == q[0]
  {
    var o := q + [z];
    var i :| 0 <= i < |o| && o[i] == r;
    assert Joins(edges[o[i]], p[i], p[Next(i, |p|)]);
  }

  // The change comes round in the end.

  lemma {:induction false} Along(edges: seq<Edge>, z: nat, b: Cell, f: Front, q: nat, cyc: seq<Cell>, ord: seq<nat>, j: nat, k: nat)
    requires Complete(edges, z, b, f, q) && IsCycle(edges, cyc, ord) && j <= k < |cyc|
    requires forall i | j <= i < k :: ord[i] != z
    ensures cyc[j] in f <==> cyc[k] in f
  {
    if j < k {
      Along(edges, z, b, f, q, cyc, ord, j, k - 1);
      Across(edges, z, b, f, q, ord[k - 1], cyc[k - 1], cyc[k]);
    }
  }

  lemma Across(edges: seq<Edge>, z: nat, b: Cell, f: Front, q: nat, r: nat, x: Cell, y: Cell)
    requires Complete(edges, z, b, f, q) && r < |edges| && r != z && Joins(edges[r], x, y)
    ensures x in f <==> y in f
  {
    if x in f {
      assert Carried(edges, f, r, x);
    }
    if y in f {
      assert Carried(edges, f, r, y);
    }
  }

  lemma ComesRound(edges: seq<Edge>, z: nat, b: Cell, f: Front, q: nat, cyc: seq<Cell>, ord: seq<nat>, i: nat)
    requires Complete(edges, z, b, f, q) && IsCycle(edges, cyc, ord) && i < |ord| && ord[i] == z
    ensures cyc[i] in f <==> cyc[Next(i, |cyc|)] in f
  {
    hide Complete;
    var n := |cyc| - 1;
    assert forall j | 0 <= j < |ord| && j != i :: ord[j] != z;
    Along(edges, z, b, f, q, cyc, ord, 0, i);
    if i < n {
      Along(edges, z, b, f, q, cyc, ord, i + 1, n);
      assert Joins(edges[ord[n]], cyc[n], cyc[Next(n, |cyc|)]);
      Across(edges, z, b, f, q, ord[n], cyc[n], cyc[0]);
    }
  }

  lemma CompleteStarts(edges: seq<Edge>, z: nat, b: Cell, f: Front, q: nat)
    requires Complete(edges, z, b, f, q)
    ensures b in f
  {
  }

  lemma RingIsReached(edges: seq<Edge>, z: nat, a: Cell, b: Cell, cyc: seq<Cell>, ord: seq<nat>)
    requires IsCycle(edges, cyc, ord) && z in ord && z < |edges| && Joins(edges[z], a, b)
    ensures exists p: nat :: a in Spread(edges, z, b, p, 0)
  {
    hide Spread, Complete;
    var q := Completes(edges, z, b, 1);
    var f := Spread(edges, z, b, q, 0);
    CompleteStarts(edges, z, b, f, q);
    var i :| 0 <= i < |ord| && ord[i] == z;
    ComesRound(edges, z, b, f, q, cyc, ord, i);
    assert Joins(edges[ord[i]], cyc[i], cyc[Next(i, |cyc|)]);
  }

  /** A rule that lies on one ring only is slow, one way or the other. */
  lemma LoneRingIsSlow(edges: seq<Edge>, z: nat, cyc: seq<Cell>, ord: seq<nat>) returns (a: Cell, b: Cell)
    requires NoParallel(edges) && IsCycle(edges, cyc, ord) && z in ord && OnOneRing(edges, z)
    ensures z < |edges| && Slow(edges, z, a, b)
  {
    var i :| 0 <= i < |ord| && ord[i] == z;
    a, b := cyc[i], cyc[Next(i, |cyc|)];
    assert Joins(edges[ord[i]], a, b) && a != b;
    hide Spread, NoParallel, IsCycle;
    RingIsReached(edges, z, a, b, cyc, ord);
    RingIsReached(edges, z, b, a, cyc, ord);
    if a in Spread(edges, z, b, 1, z) && b in Spread(edges, z, a, 1, z) {
      var p, q := QuickRing(edges, z, a, b);
      var p', q' := QuickRing(edges, z, b, a);
      RushesDiffer(edges, z, a, b, p, q, p', q');
    } else if a in Spread(edges, z, b, 1, z) {
      a, b := b, a;
    }
  }

  /** Without parallel rules: a list in which some rule lies on exactly one ring
      does not always settle, whatever other rings there are. */
  lemma LoneRingUnsettles(edges: seq<Edge>, z: nat, cyc: seq<Cell>, ord: seq<nat>)
    requires NoParallel(edges) && IsCycle(edges, cyc, ord) && z in ord && OnOneRing(edges, z)
    requires Settling.EqualWidths(edges)
    ensures !Settling.AlwaysSettles(edges)
  {
    hide Slow, Settling.EqualWidths, Settling.AlwaysSettles;
    var a, b := LoneRingIsSlow(edges, z, cyc, ord);
    SlowRuleUnsettles(edges, z, a, b);
  }

  /** Where no rule lies on two rings, a list without parallel rules always settles
      exactly when it closes no ring. Rings may share cells. */
  lemma RingsApartSettleExactly(edges: seq<Edge>)
    requires NoParallel(edges) && Settling.EqualWidths(edges)
    requires forall z | 0 <= z < |edges| :: OnOneRing(edges, z)
    ensures Settling.AlwaysSettles(edges) <==> Acyclic(edges)
  {
    hide NoParallel, Settling.AlwaysSettles, Settling.EqualWidths, OnOneRing, Oriented;
    if Acyclic(edges) {
      var r := AcyclicOrients(edges);
      Settling.OrientedAlwaysSettles(edges, r);
    } else {
      var cyc, ord :| IsCycle(edges, cyc, ord);
      assert ord[0] in ord && ord[0] < |edges|;
      LoneRingUnsettles(edges, ord[0], cyc, ord);
    }
  }
}
