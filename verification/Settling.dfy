/** Which mappings settle, however clients write while they are at work. Two
    rules writing the same destination do no harm by themselves; what matters is
    whether the rules close a ring of three or more cells. */
module Settling {
  import opened Cells
  import opened Mapping
  import opened MappingGraph
  import opened Interleaving
  import Heights
  import Forests
  import Convergence
  import Oscillation

  ghost predicate Settles(e: Engine) {
    exists n: nat :: Settled(Passes(e, n))
  }

  /** Over whatever memory the rules are loaded and whatever clients write in the
      passes that follow, before and between the rules: left alone, they settle. */
  ghost predicate AlwaysSettles(edges: seq<Edge>) {
    forall m, clients: seq<seq<seq<ClientWrite>>> |
      Sound(edges, Loaded(edges, m)) && (forall p | 0 <= p < |clients| :: |clients[p]| == |edges| + 1) ::
      Settles(MixedPasses(Loaded(edges, m), clients))
  }

  ghost predicate EqualWidths(edges: seq<Edge>) {
    forall i | 0 <= i < |edges| :: SameWidth(edges[i].src, edges[i].dst)
  }

  // No ring: always settled in the end.

  /** Rules that close no ring, each with a far end of its own, settle from any
      state. Opposite rules and rules from a cell to itself are welcome. */
  lemma OrientedSettles(edges: seq<Edge>, r: Rooting, e: Engine)
    requires |r.down| == |edges| && Oriented(edges, r) && Acyclic(edges) && Sound(edges, e)
    ensures Settled(Passes(e, 2 * |edges| + 2))
  {
    hide Oriented, Acyclic, Sound, Settled, Passes, Hung, Heights.HangingFrom;
    Heights.OrientedHangs(edges, r);
    Convergence.HungTreesSettle(edges, Heights.HangingFrom(edges, r), |edges|, e);
  }

  /** Rules that close no ring settle within two passes per rule, and two more if
      there are rules from a cell to itself. */
  lemma AcyclicSettles(edges: seq<Edge>, e: Engine)
    requires NoParallel(edges) && Acyclic(edges) && Sound(edges, e)
    ensures Settled(Passes(e, 2 * |edges| + if Simple(edges) then 0 else 2))
  {
    hide Acyclic, Sound, Settled, Passes, Oriented;
    if Simple(edges) {
      var r := AcyclicRootable(edges);
      Convergence.TreesSettle(edges, r, |edges|, e);
    } else {
      var r := AcyclicOrients(edges);
      OrientedSettles(edges, r, e);
    }
  }

  lemma OrientedAlwaysSettles(edges: seq<Edge>, r: Rooting)
    requires |r.down| == |edges| && Oriented(edges, r) && Acyclic(edges)
    ensures AlwaysSettles(edges)
  {
    forall m, clients: seq<seq<seq<ClientWrite>>> |
      Sound(edges, Loaded(edges, m)) && forall p | 0 <= p < |clients| :: |clients[p]| == |edges| + 1
      ensures Settles(MixedPasses(Loaded(edges, m), clients))
    {
      var e := MixedPasses(Loaded(edges, m), clients);
      ShapeKeepsSound(edges, Loaded(edges, m), e);
      OrientedSettles(edges, r, e);
    }
  }

  // A ring: not always.

  lemma SettledIsCoherent(e: Engine)
    requires Settled(e)
    ensures Coherent(e)
  {
  }

  lemma SomeMemory(edges: seq<Edge>) returns (m: Store)
    requires EqualWidths(edges)
    ensures Sound(edges, Loaded(edges, m))
  {
    m := map c | c in Ends(edges) :: 0;
    forall i | 0 <= i < |edges| ensures edges[i].src in m && edges[i].dst in m {
      assert edges[i] in edges;
    }
  }

  lemma RingUnsettles(edges: seq<Edge>, cyc: seq<Cell>, ord: seq<nat>, r: Rooting)
    requires EqualWidths(edges) && IsCycle(edges, cyc, ord)
    requires |r.down| == |edges| && Oscillation.Outlying(edges, cyc, ord, r)
    ensures !AlwaysSettles(edges)
  {
    hide IsCycle, Oscillation.Outlying, Sound, Coherent, Settled;
    var m := SomeMemory(edges);
    var writes := Oscillation.RingOscillates(edges, cyc, ord, r, m);
    OnePass(Loaded(edges, m), writes);
    var e := MixedPasses(Loaded(edges, m), [writes]);
    forall n: nat ensures !Settled(Passes(e, n)) {
      if Settled(Passes(e, n)) {
        SettledIsCoherent(Passes(e, n));
      }
    }
    assert !Settles(e);
  }

  lemma OnePass(e: Engine, writes: seq<seq<ClientWrite>>)
    requires |writes| == |e.rules| + 1
    ensures MixedPasses(e, [writes]) == MixedPass(e, writes)
  {
    assert [writes][..0] == [];
  }

  /** The rules of a ring whose far ends differ have the cells of the ring for far
      ends, so all others lead away from it. */
  lemma OrientedOutlies(edges: seq<Edge>, cyc: seq<Cell>, ord: seq<nat>, r: Rooting)
    requires |r.down| == |edges| && Oriented(edges, r) && IsCycle(edges, cyc, ord)
    ensures Oscillation.Outlying(edges, cyc, ord, r)
  {
    var ends := seq(|ord|, i requires 0 <= i < |ord| => Child(edges, r, ord[i]));
    forall i | 0 <= i < |ord| ensures ends[i] in cyc && !IsLoop(edges[ord[i]]) {
      assert Joins(edges[ord[i]], cyc[i], cyc[Next(i, |cyc|)]);
    }
    forall c | c in cyc ensures c in ends {
      DistinctCovers(ends, cyc, c);
    }
    forall m | 0 <= m < |edges| && m !in ord && !IsLoop(edges[m]) ensures Child(edges, r, m) !in ends {
      assert forall i | 0 <= i < |ord| :: ord[i] in ord;
    }
  }

  /** Where every cell is the far end of at most one rule, a list always settles
      exactly when it closes no ring. */
  lemma OrientedSettlesExactly(edges: seq<Edge>, r: Rooting)
    requires |r.down| == |edges| && Oriented(edges, r) && EqualWidths(edges)
    ensures AlwaysSettles(edges) <==> Acyclic(edges)
  {
    hide IsCycle, Oriented, AlwaysSettles, EqualWidths;
    if Acyclic(edges) {
      OrientedAlwaysSettles(edges, r);
    } else {
      var cyc, ord :| IsCycle(edges, cyc, ord);
      OrientedOutlies(edges, cyc, ord, r);
      RingUnsettles(edges, cyc, ord, r);
    }
  }

  /** ... and so for every list whose destinations are all different. */
  lemma UniqueDestinationsSettleExactly(edges: seq<Edge>)
    requires Forests.UniqueDestinations(edges) && EqualWidths(edges)
    ensures AlwaysSettles(edges) <==> Acyclic(edges)
  {
    hide AlwaysSettles, Acyclic, EqualWidths;
    var r := Rooting(seq(|edges|, i => true), c => 0);
    assert Oriented(edges, r);
    OrientedSettlesExactly(edges, r);
  }

  // Any list without parallel rules, and what is selected from it.

  ghost predicate Increasing(pick: seq<nat>, n: nat) {
    && (forall i | 0 <= i < |pick| :: pick[i] < n)
    && (forall i, j | 0 <= i < j < |pick| :: pick[i] < pick[j])
  }

  /** The selected rules, in their order. */
  ghost function Pick(edges: seq<Edge>, pick: seq<nat>): (r: seq<Edge>)
    requires Increasing(pick, |edges|)
    ensures |r| == |pick| && forall i | 0 <= i < |pick| :: r[i] == edges[pick[i]]
  {
    seq(|pick|, i requires 0 <= i < |pick| => edges[pick[i]])
  }

  lemma PickHasNoParallel(edges: seq<Edge>, pick: seq<nat>)
    requires NoParallel(edges) && Increasing(pick, |edges|)
    ensures NoParallel(Pick(edges, pick))
  {
  }

  lemma PickIsAcyclic(edges: seq<Edge>, pick: seq<nat>)
    requires Acyclic(edges) && Increasing(pick, |edges|)
    ensures Acyclic(Pick(edges, pick))
  {
    forall cyc, ord ensures !IsCycle(Pick(edges, pick), cyc, ord) {
      if IsCycle(Pick(edges, pick), cyc, ord) {
        UnpickCycle(edges, pick, cyc, ord);
        assert false;
      }
    }
  }

  lemma UnpickCycle(edges: seq<Edge>, pick: seq<nat>, cyc: seq<Cell>, ord: seq<nat>)
    requires Increasing(pick, |edges|) && IsCycle(Pick(edges, pick), cyc, ord)
    ensures exists ord' :: IsCycle(edges, cyc, ord')
  {
    var ord' := seq(|ord|, k requires 0 <= k < |ord| => pick[ord[k]]);
    assert forall i | 0 <= i < |ord| :: ord[i] < |pick| && ord'[i] == pick[ord[i]];
    assert IsCycle(edges, cyc, ord');
  }

  /** The members of `ord` below `n`, in increasing order. */
  ghost function Sorted(ord: seq<nat>, n: nat): (s: seq<nat>)
    ensures Increasing(s, n)
    ensures forall m: nat :: m in s <==> m in ord && m < n
  {
    if n == 0 then [] else Sorted(ord, n - 1) + if n - 1 in ord then [n - 1] else []
  }

  ghost function Position(s: seq<nat>, m: nat): (i: nat)
    requires m in s
    ensures i < |s| && s[i] == m
  {
    var i :| 0 <= i < |s| && s[i] == m; i
  }

  /** The rules of a ring, selected from a longer list, are a ring by themselves. */
  lemma PickCycle(edges: seq<Edge>, cyc: seq<Cell>, ord: seq<nat>) returns (pick: seq<nat>, ord': seq<nat>)
    requires IsCycle(edges, cyc, ord)
    ensures Increasing(pick, |edges|) && IsCycle(Pick(edges, pick), cyc, ord')
    ensures forall m | 0 <= m < |pick| :: m in ord'
  {
    pick := Sorted(ord, |edges|);
    forall i | 0 <= i < |ord| ensures ord[i] in pick {
      assert ord[i] in ord && ord[i] < |edges|;
    }
    ord' := seq(|ord|, i requires 0 <= i < |ord| => Position(pick, ord[i]));
    forall m | 0 <= m < |pick| ensures m in ord' {
      assert pick[m] in pick;
      var i :| 0 <= i < |ord| && ord[i] == pick[m];
      assert ord'[i] == m;
    }
    forall i | 0 <= i < |ord|
      ensures ord'[i] < |pick| && Pick(edges, pick)[ord'[i]] == edges[ord[i]]
    {
    }
  }

  lemma CycleUnsettles(edges: seq<Edge>, cyc: seq<Cell>, ord: seq<nat>) returns (pick: seq<nat>)
    requires EqualWidths(edges) && IsCycle(edges, cyc, ord)
    ensures Increasing(pick, |edges|) && !AlwaysSettles(Pick(edges, pick))
  {
    hide IsCycle, AlwaysSettles;
    var ord';
    pick, ord' := PickCycle(edges, cyc, ord);
    RingUnsettles(Pick(edges, pick), cyc, ord', Rooting(seq(|pick|, i => true), c => 0));
  }

  /** Without parallel rules: all that can be selected from a list always settles
      exactly when the list closes no ring. */
  lemma SettlesExactlyWhenAcyclic(edges: seq<Edge>)
    requires NoParallel(edges) && EqualWidths(edges)
    ensures Acyclic(edges) <==>
            forall pick | Increasing(pick, |edges|) :: AlwaysSettles(Pick(edges, pick))
  {
    hide IsCycle, NoParallel, Increasing, EqualWidths, AlwaysSettles, Oriented;
    if Acyclic(edges) {
      forall pick | Increasing(pick, |edges|) ensures AlwaysSettles(Pick(edges, pick)) {
        PickHasNoParallel(edges, pick);
        PickIsAcyclic(edges, pick);
        var r := AcyclicOrients(Pick(edges, pick));
        OrientedAlwaysSettles(Pick(edges, pick), r);
      }
    } else {
      var cyc, ord :| IsCycle(edges, cyc, ord);
      var pick := CycleUnsettles(edges, cyc, ord);
    }
  }
}
