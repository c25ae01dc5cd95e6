/** Pulses that a whole list keeps up for ever, whatever its rings: every rule has
    its turn, and every cell gets the pulse through one rule and hands it on
    through all others. */
module Fronts {
  import opened Words
  import opened Cells
  import opened Mapping
  import opened MappingGraph
  import opened Interleaving
  import opened Oscillation
  import opened Flipping
  import Settling

  /** One pulse in every `period` passes. `lead` says how many passes ahead of the
      others a rule has it, `base` through which rule it comes to a cell. */
  datatype Schedule = Schedule(period: nat, lead: seq<nat>, base: map<Cell, nat>)

  /** When rule `r` fires, the pulse has come to its end `x` within the last pass:
      the rule it came through is as far ahead, or one period less. */
  ghost predicate Timed(p: Schedule, r: nat, x: Cell)
    requires r < |p.lead|
  {
    && x in p.base && p.base[x] < |p.lead|
    && var e := p.base[x];
       var ahead := p.lead[r] + if r < e then 1 else 0;
       e == r || ahead == p.lead[e] || ahead == p.lead[e] + p.period
  }

  /** Rule `r` fits into the schedule. */
  ghost predicate Fitting(edges: seq<Edge>, p: Schedule, r: nat)
    requires |p.lead| == |edges| && r < |edges|
  {
    var s, d := edges[r].src, edges[r].dst;
    && Timed(p, r, s) && Timed(p, r, d)
    && Touches(edges[p.base[s]], s) && Touches(edges[p.base[d]], d)
    && (p.base[s] != r || p.base[d] != r)
  }

  ghost predicate Scheduled(edges: seq<Edge>, on: set<nat>, p: Schedule) {
    && 2 <= p.period && |p.lead| == |edges| && Closed(edges, on)
    && forall r | r in on :: r < |edges| && Fitting(edges, p, r)
  }

  // The state that follows a schedule.

  /** What rule `r` remembers when pass `t` has come to rule `k`. */
  function Due(p: Schedule, t: nat, k: nat, r: nat): Word
    requires 0 < p.period && r < |p.lead|
  {
    Pulse(p.period, t + p.lead[r] + if r < k then 1 else 0)
  }

  ghost predicate OnTime(edges: seq<Edge>, p: Schedule, e: Engine, t: nat, k: nat, r: nat)
    requires Sound(edges, e) && 0 < p.period && |p.lead| == |edges| && r < |edges| && Fitting(edges, p, r)
  {
    && Primed(e, r) && e.rules[r].lastSrc == Due(p, t, k, r)
    && e.mem[edges[r].src] == Due(p, t, k, p.base[edges[r].src])
    && e.mem[edges[r].dst] == Due(p, t, k, p.base[edges[r].dst])
  }

  ghost predicate Following(edges: seq<Edge>, on: set<nat>, p: Schedule, e: Engine, t: nat, k: nat)
    requires Scheduled(edges, on, p)
  {
    Sound(edges, e) && forall r | r in on :: OnTime(edges, p, e, t, k, r)
  }

  /** A rule that is about to fire sees its own next value wherever the pulse does
      not come through itself. */
  lemma SeesNext(p: Schedule, t: nat, r: nat, x: Cell)
    requires 0 < p.period && r < |p.lead| && Timed(p, r, x) && p.base[x] != r
    ensures Due(p, t, r, p.base[x]) == Due(p, t, r + 1, r)
  {
    var e := p.base[x];
    assert Phase(p.period, t + p.lead[e] + p.period) == Phase(p.period, t + p.lead[e]);
    assert Phase(p.period, t + p.lead[e] + 1 + p.period) == Phase(p.period, t + p.lead[e] + 1);
  }

  lemma FireOnTime(edges: seq<Edge>, p: Schedule, e: Engine, t: nat, k: nat)
    requires Sound(edges, e) && 0 < p.period && |p.lead| == |edges| && k < |edges| && Fitting(edges, p, k)
    requires OnTime(edges, p, e, t, k, k)
    ensures var v, s := Due(p, t, k + 1, k), Step(e, k);
            && s.mem == e.mem[edges[k].src := v][edges[k].dst := v]
            && s.rules == e.rules[k := e.rules[k].(lastSrc := v, lastDst := v)]
            && Sound(edges, s)
            && (p.base[edges[k].src] != k ==> e.mem[edges[k].src] == v)
            && (p.base[edges[k].dst] != k ==> e.mem[edges[k].dst] == v)
  {
    hide Due;
    if p.base[edges[k].src] != k {
      SeesNext(p, t, k, edges[k].src);
    }
    if p.base[edges[k].dst] != k {
      SeesNext(p, t, k, edges[k].dst);
    }
    StepJoins(edges, e, k);
    assert EdgeOf(e.rules[k]) == edges[k];
    assert e.mem[edges[k].src] == Kept(edges[k].src.area, e.mem[edges[k].src]);
    assert e.mem[edges[k].dst] == Kept(edges[k].dst.area, e.mem[edges[k].dst]);
  }

  /** Only the firing rule's own due value changes. */
  lemma DueStays(p: Schedule, t: nat, k: nat, r: nat)
    requires 0 < p.period && r < |p.lead| && r != k
    ensures Due(p, t, k + 1, r) == Due(p, t, k, r)
  {
  }

  lemma NeighbourOnTime(edges: seq<Edge>, p: Schedule, e: Engine, t: nat, k: nat, r: nat)
    requires Sound(edges, e) && 0 < p.period && |p.lead| == |edges| && k < |edges| && r < |edges|
    requires Fitting(edges, p, k) && Fitting(edges, p, r)
    requires OnTime(edges, p, e, t, k, k) && OnTime(edges, p, e, t, k, r)
    ensures Sound(edges, Step(e, k)) && OnTime(edges, p, Step(e, k), t, k + 1, r)
  {
    FireOnTime(edges, p, e, t, k);
    hide Due, Step, Timed, WellFormed;
    forall i: nat | i < |p.lead| && i != k ensures Due(p, t, k + 1, i) == Due(p, t, k, i) {
      DueStays(p, t, k, i);
    }
  }

  lemma StrangerOnTime(edges: seq<Edge>, p: Schedule, e: Engine, t: nat, k: nat, r: nat)
    requires Sound(edges, e) && 0 < p.period && |p.lead| == |edges| && k < |edges| && r < |edges|
    requires Fitting(edges, p, r) && OnTime(edges, p, e, t, k, r)
    requires !Touches(edges[k], edges[r].src) && !Touches(edges[k], edges[r].dst)
    ensures Sound(edges, Step(e, k)) && OnTime(edges, p, Step(e, k), t, k + 1, r)
  {
    StepJoins(edges, e, k);
    hide Due, Step, WellFormed;
    assert r != k && p.base[edges[r].src] != k && p.base[edges[r].dst] != k;
    DueStays(p, t, k, r);
    DueStays(p, t, k, p.base[edges[r].src]);
    DueStays(p, t, k, p.base[edges[r].dst]);
  }

  lemma StepFollows(edges: seq<Edge>, on: set<nat>, p: Schedule, e: Engine, t: nat, k: nat)
    requires Scheduled(edges, on, p) && Following(edges, on, p, e, t, k) && k < |edges|
    ensures Following(edges, on, p, Step(e, k), t, k + 1)
  {
    hide Step, OnTime, Fitting, WellFormed;
    StepJoins(edges, e, k);
    forall r | r in on ensures OnTime(edges, p, Step(e, k), t, k + 1, r) {
      if k in on {
        NeighbourOnTime(edges, p, e, t, k, r);
      } else {
        StrangerOnTime(edges, p, e, t, k, r);
      }
    }
  }

  lemma {:induction false} PrefixFollows(edges: seq<Edge>, on: set<nat>, p: Schedule, e: Engine, t: nat, k: nat)
    requires Scheduled(edges, on, p) && Following(edges, on, p, e, t, 0) && k <= |edges| == |e.rules|
    ensures Following(edges, on, p, Prefix(e, k), t, k)
  {
    hide Step, SameShape, Following, Scheduled;
    if k > 0 {
      PrefixFollows(edges, on, p, e, t, k - 1);
      StepFollows(edges, on, p, Prefix(e, k - 1), t, k - 1);
    }
  }

  lemma PassFollows(edges: seq<Edge>, on: set<nat>, p: Schedule, e: Engine, t: nat)
    requires Scheduled(edges, on, p) && Following(edges, on, p, e, t, 0)
    ensures Following(edges, on, p, Pass(e), t + 1, 0)
  {
    hide Prefix, Fitting, Closed;
    PrefixFollows(edges, on, p, e, t, |edges|);
    var s := Pass(e);
    forall r | r in on ensures OnTime(edges, p, s, t + 1, 0, r) {
      assert OnTime(edges, p, s, t, |edges|, r);
      assert Fitting(edges, p, r);
      NextDue(p, t, r);
      FittingBases(edges, p, r);
      NextDue(p, t, p.base[edges[r].src]);
      NextDue(p, t, p.base[edges[r].dst]);
    }
  }

  lemma FittingBases(edges: seq<Edge>, p: Schedule, r: nat)
    requires |p.lead| == |edges| && r < |edges| && Fitting(edges, p, r)
    ensures edges[r].src in p.base && p.base[edges[r].src] < |p.lead|
    ensures edges[r].dst in p.base && p.base[edges[r].dst] < |p.lead|
  {
  }

  lemma NextDue(p: Schedule, t: nat, r: nat)
    requires 0 < p.period && r < |p.lead|
    ensures Due(p, t, |p.lead|, r) == Due(p, t + 1, 0, r)
  {
  }

  lemma {:induction false} PassesFollow(edges: seq<Edge>, on: set<nat>, p: Schedule, e: Engine, n: nat)
    requires Scheduled(edges, on, p) && Following(edges, on, p, e, 0, 0)
    ensures Following(edges, on, p, Passes(e, n), n, 0)
  {
    hide Pass, SameShape, Following, Scheduled;
    if n > 0 {
      PassesFollow(edges, on, p, e, n - 1);
      PassFollows(edges, on, p, Passes(e, n - 1), n - 1);
    }
  }

  // Starting it.

  /** Every rule remembers what it is due, and every cell holds it. */
  ghost function Launch(edges: seq<Edge>, p: Schedule, keys: set<Cell>): Engine
    requires 0 < p.period && |p.lead| == |edges|
  {
    Engine(map x | x in keys :: if x in p.base && p.base[x] < |p.lead| then Due(p, 0, 0, p.base[x]) else 0,
           seq(|edges|, k requires 0 <= k < |edges| =>
             var v := Due(p, 0, 0, k); MappingRule(edges[k].src, edges[k].dst, v, v, true)))
  }

  lemma LaunchFollows(edges: seq<Edge>, on: set<nat>, p: Schedule, keys: set<Cell>)
    requires Scheduled(edges, on, p)
    requires forall i | 0 <= i < |edges| ::
               edges[i].src in keys && edges[i].dst in keys && SameWidth(edges[i].src, edges[i].dst)
    ensures var e := Launch(edges, p, keys);
            e.mem.Keys == keys && Plausible(e) && Following(edges, on, p, e, 0, 0)
  {
    hide Timed, Closed, Phase;
    var e := Launch(edges, p, keys);
    assert Sound(edges, e);
    forall r | r in on ensures OnTime(edges, p, e, 0, 0, r) {
      assert Fitting(edges, p, r);
      FittingBases(edges, p, r);
    }
  }

  lemma {:induction false} PulseChanges(period: nat, k: nat) returns (j: nat)
    requires 2 <= period
    ensures k <= j && Pulse(period, j) != Pulse(period, j + 1)
    decreases period - Phase(period, k)
  {
    PhaseNext(period, k);
    if Phase(period, k) + 1 == period {
      j := k;
    } else {
      j := PulseChanges(period, k + 1);
    }
  }

  lemma Remembers(edges: seq<Edge>, on: set<nat>, p: Schedule, e: Engine, t: nat, r: nat)
    requires Scheduled(edges, on, p) && Following(edges, on, p, e, t, 0) && r in on
    ensures r < |p.lead| && r < |e.rules| && 2 <= p.period
    ensures e.rules[r].lastSrc == Pulse(p.period, t + p.lead[r])
  {
    hide Fitting, Pulse, WellFormed, Closed;
    assert OnTime(edges, p, e, t, 0, r);
  }

  /** What follows a schedule never settles. */
  lemma FollowingIsNeverSettled(edges: seq<Edge>, on: set<nat>, p: Schedule, e: Engine, r: nat, n: nat)
    requires Scheduled(edges, on, p) && Following(edges, on, p, e, 0, 0) && r in on
    ensures !Settled(Passes(e, n))
  {
    hide Passes, Scheduled, Following, SameShape, Settled, Pulse;
    Remembers(edges, on, p, e, 0, r);
    var j := PulseChanges(p.period, n + p.lead[r]);
    j := j - p.lead[r];
    PassesFollow(edges, on, p, e, j);
    PassesFollow(edges, on, p, e, j + 1);
    Remembers(edges, on, p, Passes(e, j), j, r);
    Remembers(edges, on, p, Passes(e, j + 1), j + 1, r);
    if Settled(Passes(e, n)) {
      SettledStays(Passes(e, n), j - n);
      SettledStays(Passes(e, n), j + 1 - n);
      PassesAdd(e, n, j - n);
      PassesAdd(e, n, j + 1 - n);
    }
  }

  /** A list with a schedule does not always settle: clients can start the pulses
      within the first pass. */
  lemma ScheduledUnsettles(edges: seq<Edge>, on: set<nat>, p: Schedule, r: nat)
    requires Scheduled(edges, on, p) && r in on && Settling.EqualWidths(edges)
    ensures !Settling.AlwaysSettles(edges)
  {
    hide Scheduled, Plausible, Passes, Settled, Following;
    var m := Settling.SomeMemory(edges);
    assert 2 <= p.period && |p.lead| == |edges| by { SchedulePeriod(edges, on, p); }
    LaunchFollows(edges, on, p, m.Keys);
    var e := Launch(edges, p, m.Keys);
    FollowingIsSound(edges, on, p, e, 0, 0);
    var writes := PlausibleStatesAreReached(edges, m, e);
    Settling.OnePass(Loaded(edges, m), writes);
    forall n: nat ensures !Settled(Passes(e, n)) {
      FollowingIsNeverSettled(edges, on, p, e, r, n);
    }
    assert MixedPasses(Loaded(edges, m), [writes]) == e && !Settling.Settles(e);
  }

  lemma SchedulePeriod(edges: seq<Edge>, on: set<nat>, p: Schedule)
    requires Scheduled(edges, on, p)
    ensures 2 <= p.period && |p.lead| == |edges|
  {
  }

  lemma FollowingIsSound(edges: seq<Edge>, on: set<nat>, p: Schedule, e: Engine, t: nat, k: nat)
    requires Scheduled(edges, on, p) && Following(edges, on, p, e, t, k)
    ensures Sound(edges, e)
  {
  }
}
