/** When the mapping rules form trees, passes alone bring every tree to one
    value, whatever the cells and the memories of the rules held before. */
module Convergence {
  import opened Cells
  import opened Mapping
  import opened MappingGraph

  /** The far end of rule `i` still holds what the rule left there. */
  ghost predicate Clean(edges: seq<Edge>, r: Rooting, e: Engine, i: nat)
    requires Sound(edges, e) && |r.down| == |edges| && i < |edges|
  {
    Primed(e, i) && e.mem[Child(edges, r, i)] == e.rules[i].lastDst
  }

  /** Rule `i` is clean and its ends agree. */
  ghost predicate Synced(edges: seq<Edge>, r: Rooting, e: Engine, i: nat)
    requires Sound(edges, e) && |r.down| == |edges| && i < |edges|
  {
    Clean(edges, r, e, i) && e.mem[Parent(edges, r, i)] == e.mem[Child(edges, r, i)]
  }

  // One firing.

  /** A clean rule only ever copies from its near end to its far end. */
  lemma FireClean(edges: seq<Edge>, r: Rooting, e: Engine, k: nat)
    requires Sound(edges, e) && |r.down| == |edges| && k < |edges| && Clean(edges, r, e, k)
    ensures var t, v := Step(e, k), e.mem[Parent(edges, r, k)];
            && t.mem == e.mem[Child(edges, r, k) := v]
            && t.rules == e.rules[k := e.rules[k].(lastSrc := v, lastDst := v)]
            && Sound(edges, t) && Clean(edges, r, t, k)
  {
    StepJoins(edges, e, k);
    var v := e.mem[Parent(edges, r, k)];
    assert e.mem[edges[k].src] == Kept(edges[k].src.area, e.mem[edges[k].src]);
    assert e.mem[edges[k].dst] == Kept(edges[k].dst.area, e.mem[edges[k].dst]);
    assert EdgeOf(e.rules[k]) == edges[k];
  }

  /** Any rule is clean right after it fired, and both its ends agree. */
  lemma FireAny(edges: seq<Edge>, r: Rooting, e: Engine, k: nat)
    requires Sound(edges, e) && |r.down| == |edges| && k < |edges|
    ensures var t, p, c := Step(e, k), Parent(edges, r, k), Child(edges, r, k);
            && Sound(edges, t) && Clean(edges, r, t, k)
            && t.mem[p] == t.mem[c]
            && (forall x | x in e.mem && x != p && x != c :: t.mem[x] == e.mem[x])
            && (forall i | 0 <= i < |edges| && i != k :: t.rules[i] == e.rules[i])
  {
    StepJoins(edges, e, k);
  }

  /** A rule whose ends agree, such as one from a cell to itself, writes nothing. */
  lemma FireEqual(edges: seq<Edge>, e: Engine, k: nat)
    requires Sound(edges, e) && k < |edges| && e.mem[edges[k].src] == e.mem[edges[k].dst]
    ensures Sound(edges, Step(e, k)) && Step(e, k).mem == e.mem
    ensures forall i | 0 <= i < |edges| && i != k :: Step(e, k).rules[i] == e.rules[i]
  {
    StepJoins(edges, e, k);
  }

  /** The ends of a twin are no falling rule's far end. */
  lemma TwinEnds(edges: seq<Edge>, r: Rooting, H: nat, k: nat, i: nat)
    requires Hung(edges, r, H) && k < |edges| && !IsLoop(edges[k]) && !Falls(edges, r, k)
    requires i < |edges| && Falls(edges, r, i)
    ensures Child(edges, r, i) != Child(edges, r, k) && Child(edges, r, i) != Parent(edges, r, k)
  {
    var j :| 0 <= j < |edges| && Twins(edges, r, k, j);
    assert i != j && i != k;
  }

  /** Different twins share both their ends or neither. */
  lemma TwinsApart(edges: seq<Edge>, r: Rooting, H: nat, k: nat, i: nat)
    requires Hung(edges, r, H) && k < |edges| && !IsLoop(edges[k]) && !Falls(edges, r, k)
    requires i < |edges| && i != k && !IsLoop(edges[i]) && !Falls(edges, r, i)
    ensures Twins(edges, r, k, i) ||
            {Child(edges, r, k), Parent(edges, r, k)} !! {Child(edges, r, i), Parent(edges, r, i)}
  {
    var j :| 0 <= j < |edges| && Twins(edges, r, k, j);
    var m :| 0 <= m < |edges| && Twins(edges, r, i, m);
    assert !IsLoop(edges[j]) && !IsLoop(edges[m]) && Oriented(edges, r);
    hide Hung, Oriented, IsLoop;
    OneRulePerFarEnd(edges, r, k, m);
    OneRulePerFarEnd(edges, r, j, i);
    OneRulePerFarEnd(edges, r, k, i);
    OneRulePerFarEnd(edges, r, j, m);
  }

  lemma OneRulePerFarEnd(edges: seq<Edge>, r: Rooting, i: nat, j: nat)
    requires |r.down| == |edges| && Oriented(edges, r) && i < |edges| && j < |edges|
    requires !IsLoop(edges[i]) && !IsLoop(edges[j])
    ensures Child(edges, r, i) == Child(edges, r, j) ==> i == j
  {
  }

  /** A falling rule stays clean when another rule fires, unless that one writes
      upwards into its far end. */
  lemma FireKeepsClean(edges: seq<Edge>, r: Rooting, H: nat, e: Engine, k: nat, i: nat)
    requires Sound(edges, e) && Hung(edges, r, H) && k < |edges| && i < |edges| && i != k
    requires Falls(edges, r, i) && Clean(edges, r, e, i)
    requires Falls(edges, r, k) && Child(edges, r, i) == Parent(edges, r, k) ==> Clean(edges, r, e, k)
    ensures Sound(edges, Step(e, k)) && Clean(edges, r, Step(e, k), i)
  {
    hide Step;
    FireAny(edges, r, e, k);
    if IsLoop(edges[k]) {
      FireEqual(edges, e, k);
    } else if Falls(edges, r, k) {
      assert Child(edges, r, i) != Child(edges, r, k);
      if Child(edges, r, i) == Parent(edges, r, k) {
        FireClean(edges, r, e, k);
      }
    } else {
      TwinEnds(edges, r, H, k, i);
    }
  }

  // Upwards: one level per pass falls silent.

  /** All falling rules whose far end is lower than `h` are clean. */
  ghost predicate Quiet(edges: seq<Edge>, r: Rooting, e: Engine, h: nat)
    requires Sound(edges, e) && |r.down| == |edges|
  {
    forall i | 0 <= i < |edges| && Falls(edges, r, i) :: r.height(Child(edges, r, i)) < h ==> Clean(edges, r, e, i)
  }

  lemma StepKeepsQuiet(edges: seq<Edge>, r: Rooting, H: nat, e: Engine, k: nat, h: nat)
    requires Sound(edges, e) && Hung(edges, r, H) && k < |edges| && Quiet(edges, r, e, h)
    ensures Sound(edges, Step(e, k)) && Quiet(edges, r, Step(e, k), h)
  {
    hide Step, Clean, Oriented, WellFormed;
    FireAny(edges, r, e, k);
    forall i | 0 <= i < |edges| && Falls(edges, r, i) && r.height(Child(edges, r, i)) < h
      ensures Clean(edges, r, Step(e, k), i)
    {
      if i != k {
        FireKeepsClean(edges, r, H, e, k, i);
      }
    }
  }

  /** `Quiet` below `h`, and below `h + 1` for the first `k` rules. */
  ghost predicate Quieting(edges: seq<Edge>, r: Rooting, e: Engine, h: nat, k: nat)
    requires Sound(edges, e) && |r.down| == |edges|
  {
    && Quiet(edges, r, e, h)
    && forall i | 0 <= i < k && i < |edges| && Falls(edges, r, i) ::
         r.height(Child(edges, r, i)) <= h ==> Clean(edges, r, e, i)
  }

  /** A pass that has silenced level `h` for the first `k` rules silences it for
      one more: no lower rule still writes upwards. */
  lemma StepQuiets(edges: seq<Edge>, r: Rooting, H: nat, e: Engine, k: nat, h: nat)
    requires Sound(edges, e) && Hung(edges, r, H) && k < |edges| && Quieting(edges, r, e, h, k)
    ensures Sound(edges, Step(e, k)) && Quieting(edges, r, Step(e, k), h, k + 1)
  {
    hide Step, Clean, Oriented, WellFormed;
    StepKeepsQuiet(edges, r, H, e, k, h);
    FireAny(edges, r, e, k);
    forall i | 0 <= i < k && Falls(edges, r, i) && r.height(Child(edges, r, i)) <= h
      ensures Clean(edges, r, Step(e, k), i)
    {
      FireKeepsClean(edges, r, H, e, k, i);
    }
  }

  lemma {:induction false} PrefixQuiets(edges: seq<Edge>, r: Rooting, H: nat, e: Engine, k: nat, h: nat)
    requires Sound(edges, e) && Hung(edges, r, H) && k <= |edges| && Quiet(edges, r, e, h)
    ensures Sound(edges, Prefix(e, k)) && Quieting(edges, r, Prefix(e, k), h, k)
  {
    hide Step, Hung, Quiet, Sound, SameShape, Clean, WellFormed;
    PrefixSound(edges, e, k);
    if k > 0 {
      PrefixQuiets(edges, r, H, e, k - 1, h);
      StepQuiets(edges, r, H, Prefix(e, k - 1), k - 1, h);
    }
  }

  /** After `n` passes from any state, every falling rule whose far end is lower
      than `n` is clean. */
  lemma {:induction false} PassesQuiet(edges: seq<Edge>, r: Rooting, H: nat, e: Engine, n: nat)
    requires Sound(edges, e) && Hung(edges, r, H)
    ensures Sound(edges, Passes(e, n)) && Quiet(edges, r, Passes(e, n), n)
  {
    hide Step, Prefix, Hung, Sound, SameShape, Clean, WellFormed;
    PassesSound(edges, e, n);
    if n > 0 {
      PassesQuiet(edges, r, H, e, n - 1);
      PassesSound(edges, e, n - 1);
      PrefixQuiets(edges, r, H, Passes(e, n - 1), |edges|, n - 1);
    }
  }

  /** From pass `n + 1` on, at whatever rule the pass has come to, a rule whose
      far end is lower than `n` does not write its near end. */
  lemma QuietRulesNeverWriteUpwards(edges: seq<Edge>, r: Rooting, H: nat, e: Engine, n: nat, k: nat)
    requires Sound(edges, e) && Rooted(edges, r, H) && k < |edges|
    requires r.height(Child(edges, r, k)) < n
    ensures var p := Prefix(Passes(e, n), k);
            Step(p, k).mem[Parent(edges, r, k)] == p.mem[Parent(edges, r, k)]
  {
    hide Step, Prefix;
    PassesQuiet(edges, r, H, e, n);
    PrefixQuiets(edges, r, H, Passes(e, n), k, n);
    FireClean(edges, r, Prefix(Passes(e, n), k), k);
  }

  /** All falling rules are clean. From here on nothing is ever written upwards. */
  ghost predicate AllClean(edges: seq<Edge>, r: Rooting, e: Engine)
    requires Sound(edges, e) && |r.down| == |edges|
  {
    forall i | 0 <= i < |edges| && Falls(edges, r, i) :: Clean(edges, r, e, i)
  }

  lemma StepKeepsAllClean(edges: seq<Edge>, r: Rooting, H: nat, e: Engine, k: nat)
    requires Sound(edges, e) && Hung(edges, r, H) && k < |edges| && AllClean(edges, r, e)
    ensures Sound(edges, Step(e, k)) && AllClean(edges, r, Step(e, k))
  {
    hide Step, Clean, Oriented, WellFormed;
    FireAny(edges, r, e, k);
    forall i | 0 <= i < |edges| && Falls(edges, r, i) ensures Clean(edges, r, Step(e, k), i) {
      if i != k {
        FireKeepsClean(edges, r, H, e, k, i);
      }
    }
  }

  lemma AllSyncedIsSettled(edges: seq<Edge>, r: Rooting, e: Engine)
    requires Sound(edges, e) && |r.down| == |edges|
    requires forall i | 0 <= i < |edges| :: Synced(edges, r, e, i)
    ensures Settled(e)
  {
    forall i | 0 <= i < |edges|
      ensures e.rules[i].src == edges[i].src && e.rules[i].dst == edges[i].dst && Synced(edges, r, e, i)
    {
      assert EdgeOf(e.rules[i]) == edges[i];
    }
  }

  /** A synced rule stays synced when another rule fires, unless that one brings
      something new to its near end. */
  lemma FireKeepsSynced(edges: seq<Edge>, r: Rooting, H: nat, e: Engine, k: nat, i: nat)
    requires Sound(edges, e) && Hung(edges, r, H) && AllClean(edges, r, e)
    requires k < |edges| && i < |edges| && i != k && !IsLoop(edges[i]) && Synced(edges, r, e, i)
    requires Falls(edges, r, k) && Child(edges, r, k) == Parent(edges, r, i) ==> Synced(edges, r, e, k)
    requires !Falls(edges, r, k) && Falls(edges, r, i) ==> IsLoop(edges[k]) || Synced(edges, r, e, k)
    ensures Sound(edges, Step(e, k)) && Synced(edges, r, Step(e, k), i)
  {
    hide Step;
    FireAny(edges, r, e, k);
    if e.mem[edges[k].src] == e.mem[edges[k].dst] {
      FireEqual(edges, e, k);
    } else if Falls(edges, r, k) {
      FireClean(edges, r, e, k);
      assert Child(edges, r, i) != Child(edges, r, k);
    } else {
      TwinsApart(edges, r, H, k, i);
    }
  }

  // Parent-first lists: one more pass carries every root to its leaves.

  /** All rules are clean and the first `k` are synced. */
  ghost predicate Draining(edges: seq<Edge>, r: Rooting, e: Engine, k: nat)
    requires Sound(edges, e) && |r.down| == |edges|
  {
    AllClean(edges, r, e) && forall i | 0 <= i < k && i < |edges| :: Synced(edges, r, e, i)
  }

  lemma StepDrains(edges: seq<Edge>, r: Rooting, H: nat, e: Engine, k: nat)
    requires Sound(edges, e) && Rooted(edges, r, H) && ParentFirst(edges, r)
    requires k < |edges| && Draining(edges, r, e, k)
    ensures Sound(edges, Step(e, k)) && Draining(edges, r, Step(e, k), k + 1)
  {
    hide Step, Clean;
    StepKeepsAllClean(edges, r, H, e, k);
    FireAny(edges, r, e, k);
    forall i | 0 <= i < k ensures Synced(edges, r, Step(e, k), i) {
      assert Parent(edges, r, i) != Child(edges, r, k) && Falls(edges, r, i) && Falls(edges, r, k);
      FireKeepsSynced(edges, r, H, e, k, i);
    }
  }

  lemma {:induction false} PrefixDrains(edges: seq<Edge>, r: Rooting, H: nat, e: Engine, k: nat)
    requires Sound(edges, e) && Rooted(edges, r, H) && ParentFirst(edges, r)
    requires k <= |edges| && AllClean(edges, r, e)
    ensures Sound(edges, Prefix(e, k)) && Draining(edges, r, Prefix(e, k), k)
  {
    hide Step, Rooted, ParentFirst, AllClean, Sound, SameShape, Clean, WellFormed;
    PrefixSound(edges, e, k);
    if k > 0 {
      PrefixDrains(edges, r, H, e, k - 1);
      StepDrains(edges, r, H, Prefix(e, k - 1), k - 1);
    }
  }

  // Any order: one level per pass, from the roots down.

  /** The first `k` rules that are twins are synced. */
  ghost predicate TwinsSynced(edges: seq<Edge>, r: Rooting, e: Engine, k: nat)
    requires Sound(edges, e) && |r.down| == |edges|
  {
    forall i | 0 <= i < k && i < |edges| && !IsLoop(edges[i]) && !Falls(edges, r, i) :: Synced(edges, r, e, i)
  }

  /** Once nothing is written upwards, one pass brings twins together. */
  lemma {:induction false} PrefixJoinsTwins(edges: seq<Edge>, r: Rooting, H: nat, e: Engine, k: nat)
    requires Sound(edges, e) && Hung(edges, r, H) && k <= |edges| && AllClean(edges, r, e)
    ensures Sound(edges, Prefix(e, k)) && AllClean(edges, r, Prefix(e, k)) && TwinsSynced(edges, r, Prefix(e, k), k)
  {
    hide Step, Sound, SameShape, Clean, WellFormed, AllClean, Synced;
    PrefixSound(edges, e, k);
    if k > 0 {
      PrefixJoinsTwins(edges, r, H, e, k - 1);
      StepJoinsTwins(edges, r, H, Prefix(e, k - 1), k - 1);
    }
  }

  lemma StepJoinsTwins(edges: seq<Edge>, r: Rooting, H: nat, e: Engine, k: nat)
    requires Sound(edges, e) && Hung(edges, r, H) && k < |edges|
    requires AllClean(edges, r, e) && TwinsSynced(edges, r, e, k)
    ensures Sound(edges, Step(e, k)) && AllClean(edges, r, Step(e, k)) && TwinsSynced(edges, r, Step(e, k), k + 1)
  {
    hide Step, Clean, Oriented, WellFormed;
    StepKeepsAllClean(edges, r, H, e, k);
    FireAny(edges, r, e, k);
    forall i | 0 <= i < k && !IsLoop(edges[i]) && !Falls(edges, r, i) ensures Synced(edges, r, Step(e, k), i) {
      if Falls(edges, r, k) {
        TwinEnds(edges, r, H, i, k);
      }
      FireKeepsSynced(edges, r, H, e, k, i);
    }
  }

  /** All falling rules are clean; twins, and the falling rules whose far end is at
      least `h` high, are synced. */
  ghost predicate SyncedDownTo(edges: seq<Edge>, r: Rooting, e: Engine, h: nat)
    requires Sound(edges, e) && |r.down| == |edges|
  {
    && AllClean(edges, r, e) && TwinsSynced(edges, r, e, |edges|)
    && forall i | 0 <= i < |edges| && Falls(edges, r, i) :: h <= r.height(Child(edges, r, i)) ==> Synced(edges, r, e, i)
  }

  /** ... and the first `k` rules also one level lower. */
  ghost predicate Sinking(edges: seq<Edge>, r: Rooting, e: Engine, h: nat, k: nat)
    requires Sound(edges, e) && |r.down| == |edges|
  {
    && SyncedDownTo(edges, r, e, h)
    && forall i | 0 <= i < k && i < |edges| && Falls(edges, r, i) ::
         h <= r.height(Child(edges, r, i)) + 1 ==> Synced(edges, r, e, i)
  }

  lemma StepSinks(edges: seq<Edge>, r: Rooting, H: nat, e: Engine, h: nat, k: nat)
    requires Sound(edges, e) && Hung(edges, r, H) && k < |edges| && Sinking(edges, r, e, h, k)
    ensures Sound(edges, Step(e, k)) && Sinking(edges, r, Step(e, k), h, k + 1)
  {
    hide Step, Clean, Oriented, WellFormed;
    StepKeepsAllClean(edges, r, H, e, k);
    FireAny(edges, r, e, k);
    var t := Step(e, k);
    forall i | 0 <= i < |edges| && i != k && Synced(edges, r, e, i) && !IsLoop(edges[i]) &&
               (Falls(edges, r, i) ==> h <= r.height(Child(edges, r, i)) + 1)
      ensures Synced(edges, r, t, i)
    {
      SinkKeepsSynced(edges, r, H, e, h, k, i);
    }
    assert !IsLoop(edges[k]) && !Falls(edges, r, k) ==> Synced(edges, r, e, k);
  }

  lemma SinkKeepsSynced(edges: seq<Edge>, r: Rooting, H: nat, e: Engine, h: nat, k: nat, i: nat)
    requires Sound(edges, e) && Hung(edges, r, H) && SyncedDownTo(edges, r, e, h)
    requires k < |edges| && i < |edges| && i != k && !IsLoop(edges[i]) && Synced(edges, r, e, i)
    requires Falls(edges, r, i) ==> h <= r.height(Child(edges, r, i)) + 1
    ensures Sound(edges, Step(e, k)) && Synced(edges, r, Step(e, k), i)
  {
    hide Step, Clean, Oriented, WellFormed;
    if Falls(edges, r, k) && Child(edges, r, k) == Parent(edges, r, i) && !Falls(edges, r, i) {
      TwinEnds(edges, r, H, i, k);
    }
    FireKeepsSynced(edges, r, H, e, k, i);
  }

  lemma {:induction false} PrefixSinks(edges: seq<Edge>, r: Rooting, H: nat, e: Engine, h: nat, k: nat)
    requires Sound(edges, e) && Hung(edges, r, H) && k <= |edges| && SyncedDownTo(edges, r, e, h)
    ensures Sound(edges, Prefix(e, k)) && Sinking(edges, r, Prefix(e, k), h, k)
  {
    hide Step, Hung, AllClean, Sound, SameShape, Clean, Synced, SyncedDownTo, WellFormed;
    PrefixSound(edges, e, k);
    if k > 0 {
      PrefixSinks(edges, r, H, e, h, k - 1);
      StepSinks(edges, r, H, Prefix(e, k - 1), h, k - 1);
    }
  }

  lemma {:induction false} PassesSink(edges: seq<Edge>, r: Rooting, H: nat, e: Engine, n: nat)
    requires Sound(edges, e) && Hung(edges, r, H) && n <= H
    requires AllClean(edges, r, e) && TwinsSynced(edges, r, e, |edges|)
    ensures Sound(edges, Passes(e, n)) && SyncedDownTo(edges, r, Passes(e, n), H - n)
  {
    hide Step, Prefix, Sound, SameShape, Clean, Synced, WellFormed;
    PassesSound(edges, e, n);
    if n > 0 {
      PassesSink(edges, r, H, e, n - 1);
      PassesSound(edges, e, n - 1);
      PrefixSinks(edges, r, H, Passes(e, n - 1), H - n + 1, |edges|);
    }
  }

  /** Trees of height `H` are settled after `2 * H` passes from any state, in
      whatever order the rules are listed and whichever end is the source. */
  lemma TreesSettle(edges: seq<Edge>, r: Rooting, H: nat, e: Engine)
    requires Sound(edges, e) && Rooted(edges, r, H)
    ensures Settled(Passes(e, 2 * H))
  {
    hide Pass, SameShape, WellFormed, Settled;
    PassesQuiet(edges, r, H, e, H);
    var q := Passes(e, H);
    PassesSink(edges, r, H, q, H);
    AllSyncedIsSettled(edges, r, Passes(q, H));
    PassesAdd(e, H, H);
  }

  /** Listed from the roots down, they are settled after `H + 1` passes. */
  lemma ParentFirstTreesSettle(edges: seq<Edge>, r: Rooting, H: nat, e: Engine)
    requires Sound(edges, e) && Rooted(edges, r, H) && ParentFirst(edges, r)
    ensures Settled(Passes(e, H + 1))
  {
    hide Step, Prefix, SameShape, WellFormed, Settled;
    PassesQuiet(edges, r, H, e, H);
    var q := Passes(e, H);
    PrefixDrains(edges, r, H, q, |edges|);
    PassesSound(edges, e, H);
    AllSyncedIsSettled(edges, r, Pass(q));
    assert Passes(e, H + 1) == Pass(q);
  }

  // Twins and loops: one pass more for each.

  /** Everything is synced but, from rule `k` on, the loops. */
  ghost predicate LoopsLeft(edges: seq<Edge>, r: Rooting, e: Engine, k: nat)
    requires Sound(edges, e) && |r.down| == |edges|
  {
    forall i | 0 <= i < |edges| && (i < k || !IsLoop(edges[i])) :: Synced(edges, r, e, i)
  }

  lemma {:induction false} PrefixSyncsLoops(edges: seq<Edge>, r: Rooting, e: Engine, k: nat)
    requires Sound(edges, e) && |r.down| == |edges| && k <= |edges| && LoopsLeft(edges, r, e, 0)
    ensures Sound(edges, Prefix(e, k)) && LoopsLeft(edges, r, Prefix(e, k), k)
  {
    hide Step, SameShape, WellFormed;
    PrefixSound(edges, e, k);
    if k > 0 {
      PrefixSyncsLoops(edges, r, e, k - 1);
      var p := Prefix(e, k - 1);
      assert IsLoop(edges[k - 1]) || Synced(edges, r, p, k - 1);
      FireEqual(edges, p, k - 1);
      FireAny(edges, r, p, k - 1);
      assert forall i | 0 <= i < |edges| && i != k - 1 && Synced(edges, r, p, i) :: Synced(edges, r, Step(p, k - 1), i);
    }
  }

  /** Trees that hang from twins, with loops anywhere, need two more passes. */
  lemma HungTreesSettle(edges: seq<Edge>, r: Rooting, H: nat, e: Engine)
    requires Sound(edges, e) && Hung(edges, r, H)
    ensures Settled(Passes(e, 2 * H + 2))
  {
    hide Step, Prefix, SameShape, WellFormed, Settled, Sound;
    PassesQuiet(edges, r, H, e, H);
    var q := Passes(e, H);
    PassesSound(edges, e, H);
    assert AllClean(edges, r, q);
    PrefixJoinsTwins(edges, r, H, q, |edges|);
    var s := Pass(q);
    PassesSink(edges, r, H, s, H);
    var t := Passes(s, H);
    PassesSound(edges, s, H);
    assert LoopsLeft(edges, r, t, 0);
    PrefixSyncsLoops(edges, r, t, |edges|);
    AllSyncedIsSettled(edges, r, Pass(t));
    assert Passes(e, H + 1) == s;
    PassesAdd(e, H + 1, H);
    assert Passes(e, 2 * H + 2) == Pass(t);
  }

  /** While all rules are clean, a pass never writes a cell that is no rule's far
      end. */
  lemma {:induction false} CleanPrefixKeepsRoots(edges: seq<Edge>, r: Rooting, H: nat, e: Engine, k: nat, c: Cell)
    requires Sound(edges, e) && Rooted(edges, r, H) && AllClean(edges, r, e)
    requires c in e.mem && forall i | 0 <= i < |edges| :: Child(edges, r, i) != c
    requires k <= |edges| == |e.rules|
    ensures Sound(edges, Prefix(e, k)) && AllClean(edges, r, Prefix(e, k))
    ensures c in Prefix(e, k).mem && Prefix(e, k).mem[c] == e.mem[c]
  {
    hide Step, SameShape, WellFormed, Clean;
    PrefixSound(edges, e, k);
    if k > 0 {
      CleanPrefixKeepsRoots(edges, r, H, e, k - 1, c);
      StepKeepsAllClean(edges, r, H, Prefix(e, k - 1), k - 1);
      FireClean(edges, r, Prefix(e, k - 1), k - 1);
    }
  }
}
