/** A ring of three or more rules can carry a pulse round for ever, whatever the
    directions of its rules and the order they are listed in, and clients can
    start one. Together with `Convergence` this says which mappings always
    settle. */
module Oscillation {
  import opened Words
  import opened Cells
  import opened Mapping
  import opened MappingGraph
  import opened Convergence
  import opened Interleaving

  /** `k` modulo `period`. */
  function Phase(period: nat, k: nat): (p: nat)
    requires 0 < period
    ensures p < period
  {
    if k < period then k else Phase(period, k - period)
  }

  /** One in every `period` values is 1. */
  function Pulse(period: nat, k: nat): Word
    requires 0 < period
  {
    if Phase(period, k) == 0 then 1 else 0
  }

  lemma {:induction false} PhaseNext(period: nat, k: nat)
    requires 0 < period
    ensures Phase(period, k + 1) == if Phase(period, k) + 1 == period then 0 else Phase(period, k) + 1
  {
    if period <= k {
      PhaseNext(period, k - period);
    }
  }

  /** How many of the first `i` rules of the ring fire before their successor,
      and so copy the value their successor's cell had one pass earlier. */
  function Lead(ord: seq<nat>, i: nat): nat
    requires i <= |ord|
  {
    if i == 0 then 0
    else Lead(ord, i - 1) + if ord[i - 1] < ord[Next(i - 1, |ord|)] then 1 else 0
  }

  lemma {:induction false} LeadGrows(ord: seq<nat>, i: nat, j: nat)
    requires i <= j <= |ord|
    ensures Lead(ord, i) <= Lead(ord, j)
  {
    if i < j {
      LeadGrows(ord, i, j - 1);
    }
  }

  /** The rules off the ring lead away from it, each to a far end of its own. */
  ghost predicate Outlying(edges: seq<Edge>, cyc: seq<Cell>, ord: seq<nat>, r: Rooting)
    requires |r.down| == |edges|
  {
    && (forall m | 0 <= m < |edges| && m !in ord && !IsLoop(edges[m]) :: Child(edges, r, m) !in cyc)
    && forall m, n | 0 <= m < n < |edges| && m !in ord && n !in ord ::
         IsLoop(edges[m]) || IsLoop(edges[n]) || Child(edges, r, m) != Child(edges, r, n)
  }

  /** The rules on the ring, each with its successor's cell as its near end. */
  ghost predicate Ring(edges: seq<Edge>, cyc: seq<Cell>, ord: seq<nat>, r: Rooting) {
    && IsCycle(edges, cyc, ord) && 0 < Lead(ord, |ord|) && |r.down| == |edges| && Outlying(edges, cyc, ord, r)
    && forall i {:trigger ord[i]} | 0 <= i < |cyc| ::
         Child(edges, r, ord[i]) == cyc[i] && Parent(edges, r, ord[i]) == cyc[Next(i, |cyc|)]
  }

  /** What the i-th cell of the ring holds after `t` passes, when the pass under
      way has come to rule `k`. */
  function WaveValue(ord: seq<nat>, t: nat, k: nat, i: nat): Word
    requires i < |ord| && 0 < Lead(ord, |ord|)
  {
    Pulse(Lead(ord, |ord|), t + Lead(ord, i) + if ord[i] < k then 1 else 0)
  }

  ghost predicate Wave(edges: seq<Edge>, cyc: seq<Cell>, ord: seq<nat>, r: Rooting, e: Engine, t: nat, k: nat)
    requires Ring(edges, cyc, ord, r)
  {
    && Sound(edges, e)
    && forall i {:trigger ord[i]} | 0 <= i < |cyc| ::
         Clean(edges, r, e, ord[i]) && cyc[i] in e.mem && e.mem[cyc[i]] == WaveValue(ord, t, k, i)
  }

  /** The rules off the ring do not disturb it. */
  ghost predicate Calm(edges: seq<Edge>, ord: seq<nat>, r: Rooting, e: Engine)
    requires Sound(edges, e) && |r.down| == |edges|
  {
    forall m | 0 <= m < |edges| && m !in ord && !IsLoop(edges[m]) :: Clean(edges, r, e, m)
  }

  ghost predicate Rolling(edges: seq<Edge>, cyc: seq<Cell>, ord: seq<nat>, r: Rooting, e: Engine, t: nat, k: nat)
    requires Ring(edges, cyc, ord, r)
  {
    Wave(edges, cyc, ord, r, e, t, k) && Calm(edges, ord, r, e)
  }

  /** When rule `ord[i]` fires, its successor's cell holds just what the pulse
      puts next into its own cell. */
  lemma PulseComes(ord: seq<nat>, t: nat, i: nat)
    requires i < |ord| && 0 < Lead(ord, |ord|) && Distinct(ord) && 2 <= |ord|
    ensures WaveValue(ord, t, ord[i], Next(i, |ord|)) == WaveValue(ord, t, ord[i] + 1, i)
  {
    var period, j := Lead(ord, |ord|), Next(i, |ord|);
    assert Lead(ord, i + 1) == Lead(ord, i) + if ord[i] < ord[j] then 1 else 0;
    assert ord[i] != ord[j];
    assert Phase(period, t + period) == Phase(period, t);
    assert Phase(period, t + period + 1) == Phase(period, t + 1);
  }

  lemma StepWave(edges: seq<Edge>, cyc: seq<Cell>, ord: seq<nat>, r: Rooting, e: Engine, t: nat, i: nat)
    requires Ring(edges, cyc, ord, r) && i < |ord|
    requires Wave(edges, cyc, ord, r, e, t, ord[i])
    ensures Wave(edges, cyc, ord, r, Step(e, ord[i]), t, ord[i] + 1)
  {
    hide Step, Pulse, Lead, WellFormed, Outlying;
    var k, s := ord[i], Step(e, ord[i]);
    assert Clean(edges, r, e, k);
    FireClean(edges, r, e, k);
    PulseComes(ord, t, i);
    forall m | 0 <= m < |cyc|
      ensures Clean(edges, r, s, ord[m]) && cyc[m] in s.mem && s.mem[cyc[m]] == WaveValue(ord, t, k + 1, m)
    {
      if m != i {
        assert Clean(edges, r, e, ord[m]) && e.mem[cyc[m]] == WaveValue(ord, t, k, m);
        assert cyc[m] != cyc[i] && ord[m] != ord[i];
      }
    }
  }

  lemma StepWaveCalm(edges: seq<Edge>, cyc: seq<Cell>, ord: seq<nat>, r: Rooting, e: Engine, t: nat, i: nat)
    requires Ring(edges, cyc, ord, r) && i < |ord|
    requires Wave(edges, cyc, ord, r, e, t, ord[i]) && Calm(edges, ord, r, e)
    ensures Sound(edges, Step(e, ord[i])) && Calm(edges, ord, r, Step(e, ord[i]))
  {
    hide Step, WaveValue, Lead, WellFormed;
    var k := ord[i];
    assert Clean(edges, r, e, k) && Child(edges, r, k) == cyc[i];
    FireClean(edges, r, e, k);
  }

  /** A rule off the ring fires. */
  lemma StepOutside(edges: seq<Edge>, cyc: seq<Cell>, ord: seq<nat>, r: Rooting, e: Engine, t: nat, k: nat)
    requires Ring(edges, cyc, ord, r) && k < |edges| && k !in ord
    requires Wave(edges, cyc, ord, r, e, t, k) && Calm(edges, ord, r, e)
    ensures Wave(edges, cyc, ord, r, Step(e, k), t, k + 1) && Calm(edges, ord, r, Step(e, k))
  {
    hide Step, Pulse, Lead, WellFormed;
    if IsLoop(edges[k]) {
      FireEqual(edges, e, k);
    } else {
      FireClean(edges, r, e, k);
    }
    var s := Step(e, k);
    forall m | 0 <= m < |cyc|
      ensures Clean(edges, r, s, ord[m]) && cyc[m] in s.mem && s.mem[cyc[m]] == WaveValue(ord, t, k + 1, m)
    {
      assert Clean(edges, r, e, ord[m]) && e.mem[cyc[m]] == WaveValue(ord, t, k, m);
      assert ord[m] in ord && cyc[m] in cyc;
    }
    forall m | 0 <= m < |edges| && m !in ord && !IsLoop(edges[m]) && m != k ensures Clean(edges, r, s, m) {
      assert Clean(edges, r, e, m);
    }
    assert IsLoop(edges[k]) || Clean(edges, r, s, k);
  }

  lemma WaveGoesOn(edges: seq<Edge>, cyc: seq<Cell>, ord: seq<nat>, r: Rooting, e: Engine, t: nat, k: nat)
    requires Ring(edges, cyc, ord, r) && k < |edges| && Rolling(edges, cyc, ord, r, e, t, k)
    ensures Rolling(edges, cyc, ord, r, Step(e, k), t, k + 1)
  {
    hide Step, Wave, Ring, Calm;
    if k in ord {
      var i :| 0 <= i < |ord| && ord[i] == k;
      StepWave(edges, cyc, ord, r, e, t, i);
      StepWaveCalm(edges, cyc, ord, r, e, t, i);
    } else {
      StepOutside(edges, cyc, ord, r, e, t, k);
    }
  }

  lemma {:induction false} PrefixWave(edges: seq<Edge>, cyc: seq<Cell>, ord: seq<nat>, r: Rooting, e: Engine, t: nat, k: nat)
    requires Ring(edges, cyc, ord, r) && Rolling(edges, cyc, ord, r, e, t, 0) && k <= |edges| == |e.rules|
    ensures Rolling(edges, cyc, ord, r, Prefix(e, k), t, k)
  {
    hide Step, SameShape, Rolling, Ring;
    if k > 0 {
      PrefixWave(edges, cyc, ord, r, e, t, k - 1);
      WaveGoesOn(edges, cyc, ord, r, Prefix(e, k - 1), t, k - 1);
    }
  }

  lemma PassWave(edges: seq<Edge>, cyc: seq<Cell>, ord: seq<nat>, r: Rooting, e: Engine, t: nat)
    requires Ring(edges, cyc, ord, r) && Rolling(edges, cyc, ord, r, e, t, 0)
    ensures Rolling(edges, cyc, ord, r, Pass(e), t + 1, 0)
  {
    hide Prefix, Clean, WellFormed, Lead, Pulse, Calm, Outlying;
    PrefixWave(edges, cyc, ord, r, e, t, |edges|);
    var s := Pass(e);
    assert s == Prefix(e, |edges|);
    forall i | 0 <= i < |cyc|
      ensures Clean(edges, r, s, ord[i]) && cyc[i] in s.mem && s.mem[cyc[i]] == WaveValue(ord, t + 1, 0, i)
    {
      assert ord[i] < |edges|;
    }
  }

  lemma {:induction false} PassesWave(edges: seq<Edge>, cyc: seq<Cell>, ord: seq<nat>, r: Rooting, e: Engine, n: nat)
    requires Ring(edges, cyc, ord, r) && Rolling(edges, cyc, ord, r, e, 0, 0)
    ensures Rolling(edges, cyc, ord, r, Passes(e, n), n, 0)
  {
    hide Pass, SameShape, Rolling, Ring;
    if n > 0 {
      PassesWave(edges, cyc, ord, r, e, n - 1);
      PassWave(edges, cyc, ord, r, Passes(e, n - 1), n - 1);
    }
  }

  /** If the ring were coherent its cells would all be equal, ... */
  lemma {:induction false} CoherentRingIsFlat(edges: seq<Edge>, cyc: seq<Cell>, ord: seq<nat>, e: Engine, i: nat)
    requires IsCycle(edges, cyc, ord) && Sound(edges, e) && Coherent(e) && i < |cyc|
    ensures Read(e.mem, cyc[i]) == Read(e.mem, cyc[0])
  {
    if i > 0 {
      CoherentRingIsFlat(edges, cyc, ord, e, i - 1);
      assert Joins(edges[ord[i - 1]], cyc[i - 1], cyc[i]);
      assert EdgeOf(e.rules[ord[i - 1]]) == edges[ord[i - 1]];
    }
  }

  /** ... but every lead up to the full turn occurs, ... */
  lemma {:induction false} LeadTakes(ord: seq<nat>, i: nat, v: nat) returns (j: nat)
    requires i <= |ord| && v < Lead(ord, i)
    ensures j < i && Lead(ord, j) == v
  {
    if Lead(ord, i - 1) == v {
      j := i - 1;
    } else {
      j := LeadTakes(ord, i - 1, v);
    }
  }

  lemma {:induction false} PhaseAfter(period: nat, t: nat, v: nat)
    requires 0 < period && v <= period
    ensures Phase(period, t + v) ==
            if Phase(period, t) + v < period then Phase(period, t) + v else Phase(period, t) + v - period
  {
    if v > 0 {
      PhaseAfter(period, t, v - 1);
      PhaseNext(period, t + v - 1);
    }
  }

  lemma WaveHolds(edges: seq<Edge>, cyc: seq<Cell>, ord: seq<nat>, r: Rooting, e: Engine, t: nat, i: nat)
    requires Ring(edges, cyc, ord, r) && Wave(edges, cyc, ord, r, e, t, 0) && i < |ord|
    ensures Sound(edges, e) && IsCycle(edges, cyc, ord) && |cyc| == |ord|
    ensures Read(e.mem, cyc[i]) == Pulse(Lead(ord, |ord|), t + Lead(ord, i))
  {
    hide Clean, WellFormed, Pulse, Lead, Outlying;
    assert ord[i] >= 0 && cyc[i] in e.mem && e.mem[cyc[i]] == WaveValue(ord, t, 0, i);
    hide Wave, Ring, Sound, IsCycle;
  }

  /** ... so at any time some cell of the ring holds `Pulse(_, t + v)`, for every
      `v` below the number of leads. */
  lemma WaveReaches(edges: seq<Edge>, cyc: seq<Cell>, ord: seq<nat>, r: Rooting, e: Engine, t: nat, v: nat)
    requires Ring(edges, cyc, ord, r) && Wave(edges, cyc, ord, r, e, t, 0) && v < Lead(ord, |ord|)
    requires Coherent(e)
    ensures Read(e.mem, cyc[0]) == Pulse(Lead(ord, |ord|), t + v)
  {
    hide Ring, Wave, Coherent, Sound, IsCycle, Pulse, Lead;
    var i := LeadTakes(ord, |ord|, v);
    WaveHolds(edges, cyc, ord, r, e, t, i);
    CoherentRingIsFlat(edges, cyc, ord, e, i);
  }

  /** With two or more leads that is a 0 and a 1. */
  lemma WaveIsNotCoherent(edges: seq<Edge>, cyc: seq<Cell>, ord: seq<nat>, r: Rooting, e: Engine, t: nat)
    requires Ring(edges, cyc, ord, r) && Wave(edges, cyc, ord, r, e, t, 0) && 2 <= Lead(ord, |ord|)
    ensures !Coherent(e)
  {
    hide Wave, Ring, Lead;
    if Coherent(e) {
      var period := Lead(ord, |ord|);
      var p := Phase(period, t);
      var v, w := if p == 0 then 0 else period - p, if p == 0 then 1 else 0;
      PhaseAfter(period, t, v);
      PhaseAfter(period, t, w);
      WaveReaches(edges, cyc, ord, r, e, t, v);
      WaveReaches(edges, cyc, ord, r, e, t, w);
    }
  }

  // Launching a pulse.

  /** Far ends for a walk round the ring; off the ring as `r` has them. */
  ghost function Orient(edges: seq<Edge>, cyc: seq<Cell>, ord: seq<nat>, r: Rooting): (t: Rooting)
    requires |cyc| == |ord| && |r.down| == |edges|
    ensures |t.down| == |edges|
  {
    Rooting(seq(|edges|, k requires 0 <= k < |edges| =>
                  if k in ord then exists i :: 0 <= i < |ord| && ord[i] == k && edges[k].dst == cyc[i] else r.down[k]),
            c => 0)
  }

  lemma OrientRing(edges: seq<Edge>, cyc: seq<Cell>, ord: seq<nat>, r: Rooting)
    requires IsCycle(edges, cyc, ord) && 0 < Lead(ord, |ord|) && |r.down| == |edges| && Outlying(edges, cyc, ord, r)
    ensures Ring(edges, cyc, ord, Orient(edges, cyc, ord, r))
  {
    hide Lead;
    var t := Orient(edges, cyc, ord, r);
    forall i | 0 <= i < |cyc|
      ensures Child(edges, t, ord[i]) == cyc[i] && Parent(edges, t, ord[i]) == cyc[Next(i, |cyc|)]
    {
      assert Joins(edges[ord[i]], cyc[i], cyc[Next(i, |cyc|)]);
      assert cyc[i] != cyc[Next(i, |cyc|)] && ord[i] in ord;
      if t.down[ord[i]] {
        var j :| 0 <= j < |ord| && ord[j] == ord[i] && edges[ord[i]].dst == cyc[j];
        assert j == i;
      }
    }
    forall m | 0 <= m < |edges| && m !in ord ensures Child(edges, t, m) == Child(edges, r, m) {
    }
    hide IsCycle;
    assert Outlying(edges, cyc, ord, t);
  }

  /** The cells at launch: the pulse on the ring, 0 elsewhere. */
  ghost function LaunchValue(cyc: seq<Cell>, ord: seq<nat>, c: Cell): (v: Word)
    requires |cyc| == |ord| && 0 < Lead(ord, |ord|)
    ensures v <= 1
  {
    if i :| 0 <= i < |cyc| && cyc[i] == c then WaveValue(ord, 0, 0, i) else 0
  }

  /** The state in which a pulse has just been launched. */
  ghost function Launched(edges: seq<Edge>, cyc: seq<Cell>, ord: seq<nat>, r: Rooting, keys: set<Cell>): Engine
    requires |cyc| == |ord| && 0 < Lead(ord, |ord|) && |r.down| == |edges|
  {
    Engine(map c | c in keys :: LaunchValue(cyc, ord, c),
           seq(|edges|, k requires 0 <= k < |edges| =>
             var v := LaunchValue(cyc, ord, Child(edges, r, k)); MappingRule(edges[k].src, edges[k].dst, v, v, true)))
  }

  lemma LaunchWave(edges: seq<Edge>, cyc: seq<Cell>, ord: seq<nat>, r: Rooting, keys: set<Cell>)
    requires Ring(edges, cyc, ord, r)
    requires forall i | 0 <= i < |edges| ::
               edges[i].src in keys && edges[i].dst in keys && SameWidth(edges[i].src, edges[i].dst)
    ensures var e := Launched(edges, cyc, ord, r, keys);
            && e.mem.Keys == keys && Sound(edges, e) && Plausible(e)
            && Wave(edges, cyc, ord, r, e, 0, 0) && Calm(edges, ord, r, e)
  {
    hide Lead, Outlying, LaunchValue;
    var e := Launched(edges, cyc, ord, r, keys);
    assert Sound(edges, e) && Plausible(e);
    forall k | 0 <= k < |edges| ensures Clean(edges, r, e, k) {
    }
    forall i | 0 <= i < |cyc|
      ensures Clean(edges, r, e, ord[i]) && cyc[i] in e.mem && e.mem[cyc[i]] == WaveValue(ord, 0, 0, i)
    {
      assert Child(edges, r, ord[i]) == cyc[i];
      LaunchOn(cyc, ord, i);
    }
  }

  lemma LaunchOn(cyc: seq<Cell>, ord: seq<nat>, i: nat)
    requires |cyc| == |ord| && 0 < Lead(ord, |ord|) && Distinct(cyc) && i < |cyc|
    ensures LaunchValue(cyc, ord, cyc[i]) == WaveValue(ord, 0, 0, i)
  {
    hide Lead, WaveValue;
    var j :| 0 <= j < |cyc| && cyc[j] == cyc[i] && LaunchValue(cyc, ord, cyc[i]) == WaveValue(ord, 0, 0, j);
    assert j == i;
  }

  // One of the two ways round has two or more leads.

  lemma TwoLeads(ord: seq<nat>, i: nat, j: nat)
    requires i < j < |ord| && ord[i] < ord[Next(i, |ord|)] && ord[j] < ord[Next(j, |ord|)]
    ensures 2 <= Lead(ord, |ord|)
  {
    LeadGrows(ord, 0, i);
    LeadGrows(ord, i + 1, j);
    LeadGrows(ord, j + 1, |ord|);
  }

  /** The same ring walked the other way. */
  function Backwards(cyc: seq<Cell>): (b: seq<Cell>)
    ensures |b| == |cyc| && forall i | 0 <= i < |b| :: b[i] == cyc[|cyc| - 1 - i]
  {
    seq(|cyc|, i requires 0 <= i < |cyc| => cyc[|cyc| - 1 - i])
  }

  function BackwardsOrd(ord: seq<nat>): (b: seq<nat>)
    ensures |b| == |ord|
    ensures forall i | 0 <= i < |b| :: b[i] == ord[if i + 1 == |ord| then i else |ord| - 2 - i]
  {
    seq(|ord|, i requires 0 <= i < |ord| => ord[if i + 1 == |ord| then i else |ord| - 2 - i])
  }

  lemma BackwardsIsCycle(edges: seq<Edge>, cyc: seq<Cell>, ord: seq<nat>)
    requires IsCycle(edges, cyc, ord)
    ensures IsCycle(edges, Backwards(cyc), BackwardsOrd(ord))
  {
    var n, b, c := |ord|, BackwardsOrd(ord), Backwards(cyc);
    forall i | 0 <= i < n ensures b[i] < |edges| && Joins(edges[b[i]], c[i], c[Next(i, n)]) {
      var j := if i + 1 == n then i else n - 2 - i;
      assert ord[j] < |edges| && Joins(edges[ord[j]], cyc[j], cyc[Next(j, n)]);
    }
  }

  /** Where the forward ring drops from one rule to its successor, the backward
      ring leads. */
  lemma DropIsLead(ord: seq<nat>, i: nat) returns (j: nat)
    requires 2 <= |ord| && i < |ord| && ord[Next(i, |ord|)] < ord[i]
    ensures j == (if i + 1 == |ord| then i - 1 else if i + 2 == |ord| then i + 1 else |ord| - 3 - i) < |ord|
    ensures BackwardsOrd(ord)[j] < BackwardsOrd(ord)[Next(j, |ord|)]
  {
    j := if i + 1 == |ord| then i - 1 else if i + 2 == |ord| then i + 1 else |ord| - 3 - i;
  }

  lemma TwoDrops(ord: seq<nat>, i: nat, j: nat)
    requires i < j < 3 <= |ord| && ord[Next(i, |ord|)] < ord[i] && ord[Next(j, |ord|)] < ord[j]
    ensures 2 <= Lead(BackwardsOrd(ord), |ord|)
  {
    hide Lead;
    var a := DropIsLead(ord, i);
    var b := DropIsLead(ord, j);
    TwoLeads(BackwardsOrd(ord), if a < b then a else b, if a < b then b else a);
  }

  predicate LeadsAt(ord: seq<nat>, i: nat)
    requires i < |ord|
  {
    ord[i] < ord[Next(i, |ord|)]
  }

  /** Of the first three rules two lead, or two drop. */
  lemma OneWayLeads(ord: seq<nat>)
    requires 3 <= |ord| && Distinct(ord)
    ensures 2 <= Lead(ord, |ord|) || 2 <= Lead(BackwardsOrd(ord), |ord|)
  {
    hide Lead;
    var i, j := if LeadsAt(ord, 0) == LeadsAt(ord, 1) || LeadsAt(ord, 0) == LeadsAt(ord, 2) then 0 else 1,
                if LeadsAt(ord, 0) == LeadsAt(ord, 1) then 1 else 2;
    if LeadsAt(ord, i) {
      TwoLeads(ord, i, j);
    } else {
      assert ord[i] != ord[Next(i, |ord|)] && ord[j] != ord[Next(j, |ord|)];
      TwoDrops(ord, i, j);
    }
  }

  lemma BackwardsOutlies(edges: seq<Edge>, cyc: seq<Cell>, ord: seq<nat>, r: Rooting)
    requires |r.down| == |edges| && |cyc| == |ord| && Outlying(edges, cyc, ord, r)
    ensures Outlying(edges, Backwards(cyc), BackwardsOrd(ord), r)
  {
    var c, o := Backwards(cyc), BackwardsOrd(ord);
    forall m | m in ord ensures m in o {
      var i :| 0 <= i < |ord| && ord[i] == m;
      assert o[if i + 1 == |ord| then i else |ord| - 2 - i] == m;
    }
    assert forall d | d in c :: d in cyc;
  }

  /** A list with a ring that its other rules lead away from: over any memory,
      clients can start, within the first pass, what never becomes coherent,
      however many passes follow without them. */
  lemma RingOscillates(edges: seq<Edge>, cyc: seq<Cell>, ord: seq<nat>, r: Rooting, m: Store)
      returns (writes: seq<seq<ClientWrite>>)
    requires IsCycle(edges, cyc, ord) && |r.down| == |edges| && Outlying(edges, cyc, ord, r)
    requires Sound(edges, Loaded(edges, m))
    ensures |writes| == |edges| + 1
    ensures forall n: nat :: !Coherent(Passes(MixedPass(Loaded(edges, m), writes), n))
  {
    hide Wave, Ring, Lead, Coherent, Passes, Outlying, Calm;
    OneWayLeads(ord);
    var c, o := cyc, ord;
    if Lead(ord, |ord|) < 2 {
      BackwardsIsCycle(edges, cyc, ord);
      BackwardsOutlies(edges, cyc, ord, r);
      c, o := Backwards(cyc), BackwardsOrd(ord);
    }
    OrientRing(edges, c, o, r);
    var t := Orient(edges, c, o, r);
    LaunchWave(edges, c, o, t, m.Keys);
    var e := Launched(edges, c, o, t, m.Keys);
    writes := PlausibleStatesAreReached(edges, m, e);
    forall n: nat ensures !Coherent(Passes(e, n)) {
      PassesWave(edges, c, o, t, e, n);
      WaveIsNotCoherent(edges, c, o, t, Passes(e, n), n);
    }
  }
}
