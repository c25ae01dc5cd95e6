/** The cycle loop of the scheduler: when it wakes up, and the statistics it
    keeps. Clock readings are nanoseconds; statistics are exact reals in
    milliseconds. */
module Scheduler {
  import opened Words
  import opened Cells
  import opened Mapping
  import opened Scan
  import opened ScanCoherence
  import opened Loader

  /** The clock readings of one cycle: at its start, behind the output copy, and
      when the next wakeup is decided. */
  datatype Reading = Reading(start: int, end: int, now: int)

  datatype Stats = Stats(totalTicks: nat, last: real, avg: real, max: real, jitter: real)

  function Millis(ns: int): real {
    ns as real / 1000000.0
  }

  function Abs(x: real): real {
    if x < 0.0 then -x else x
  }

  /** `static_cast<long long>` rounds towards zero. */
  function Truncate(x: real): int {
    if x < 0.0 then -((-x).Floor) else x.Floor
  }

  /** The period of the wakeups, in whole microseconds. */
  function Period(targetMs: real): int {
    1000 * Truncate(targetMs * 1000.0)
  }

  function ScanTime(r: Reading): real {
    Millis(r.end - r.start)
  }

  /** How far the k-th cycle's start is off; the first has no predecessor. */
  function JitterOf(rs: seq<Reading>, targetMs: real, k: nat): real
    requires 0 < k <= |rs|
  {
    if k == 1 then 0.0 else Abs(Millis(rs[k - 1].start - rs[k - 2].start) - targetMs)
  }

  /** The k-th wakeup: one period behind the last one, or now if that is past. */
  function Wakeup(t0: int, period: int, rs: seq<Reading>, k: nat): int
    requires k <= |rs|
  {
    if k == 0 then t0
    else
      var w := Wakeup(t0, period, rs, k - 1) + period;
      if w < rs[k - 1].now then rs[k - 1].now else w
  }

  function SumScan(rs: seq<Reading>, k: nat): real
    requires k <= |rs|
  {
    if k == 0 then 0.0 else SumScan(rs, k - 1) + ScanTime(rs[k - 1])
  }

  function SumJitter(rs: seq<Reading>, targetMs: real, k: nat): real
    requires k <= |rs|
  {
    if k == 0 then 0.0 else SumJitter(rs, targetMs, k - 1) + JitterOf(rs, targetMs, k)
  }

  ghost predicate IsMax(rs: seq<Reading>, k: nat, m: real)
    requires 0 < k <= |rs|
  {
    && (exists i :: 0 <= i < k && ScanTime(rs[i]) == m)
    && (forall i | 0 <= i < k :: ScanTime(rs[i]) <= m)
  }

  /** The statistics say what they claim: exact means, the true maximum. The mean
      of the jitter counts the first cycle as 0. */
  ghost predicate Truthful(rs: seq<Reading>, targetMs: real, k: nat, s: Stats)
    requires k <= |rs|
  {
    k > 0 ==>
      && s.totalTicks == k && s.last == ScanTime(rs[k - 1])
      && s.avg == SumScan(rs, k) / k as real
      && s.jitter == SumJitter(rs, targetMs, k) / k as real
      && IsMax(rs, k, s.max)
  }

  /** One step of a running mean. */
  lemma RunningMean(sum: real, x: real, k: nat)
    requires 1 < k
    ensures sum / (k - 1) as real + (x - sum / (k - 1) as real) / k as real == (sum + x) / k as real
  {
    var n, m := k as real, (k - 1) as real;
    var a := sum / m;
    assert a * m == sum;
    calc {
      (a + (x - a) / n) * n;
      a * n + (x - a);
      a * m + x;
      sum + x;
    }
    assert ((sum + x) / n) * n == sum + x;
    SameMultiple(a + (x - a) / n, (sum + x) / n, n);
  }

  lemma SameMultiple(a: real, b: real, n: real)
    requires n != 0.0 && a * n == b * n
    ensures a == b
  {
    assert (a - b) * n == 0.0;
  }

  function Updated(s: Stats, k: nat, scanTime: real, jitter: real): Stats
    requires 0 < k
  {
    if k == 1 then Stats(1, scanTime, scanTime, scanTime, 0.0)
    else Stats(k, scanTime, s.avg + (scanTime - s.avg) / k as real,
               if s.max < scanTime then scanTime else s.max, s.jitter + (jitter - s.jitter) / k as real)
  }

  lemma UpdatedIsTruthful(rs: seq<Reading>, targetMs: real, k: nat, s: Stats)
    requires 0 < k <= |rs| && Truthful(rs, targetMs, k - 1, s)
    ensures Truthful(rs, targetMs, k, Updated(s, k, ScanTime(rs[k - 1]), JitterOf(rs, targetMs, k)))
  {
    hide ScanTime, JitterOf;
    var t := Updated(s, k, ScanTime(rs[k - 1]), JitterOf(rs, targetMs, k));
    if k == 1 {
      assert SumScan(rs, 1) == SumScan(rs, 0) + ScanTime(rs[0]);
      assert JitterOf(rs, targetMs, 1) == 0.0 by { FirstJitter(rs, targetMs); }
      assert SumJitter(rs, targetMs, 1) == SumJitter(rs, targetMs, 0) + JitterOf(rs, targetMs, 1);
    } else {
      RunningMean(SumScan(rs, k - 1), ScanTime(rs[k - 1]), k);
      RunningMean(SumJitter(rs, targetMs, k - 1), JitterOf(rs, targetMs, k), k);
    }
    MaxStep(rs, k, s.max, t.max);
  }

  lemma FirstJitter(rs: seq<Reading>, targetMs: real)
    requires 1 <= |rs|
    ensures JitterOf(rs, targetMs, 1) == 0.0
  {
  }

  /** Scans that no client disturbs. */
  function Undisturbed(n: nat): (s: seq<seq<ClientWrite>>)
    ensures |s| == n
  {
    seq(n, i => [])
  }

  /** The plant when the loop has made `n` scans; before the first one the logic
      has been initialised and its values published. */
  ghost function Cycled<S(!new)>(logic: Logic<S>, bindings: seq<VarBinding>, p: Plant<S>, initial: (seq<Word>, S), n: nat): Plant<S>
    requires |initial.0| == |bindings| && KeepsSymbols(logic)
  {
    Run(logic, bindings, SyncOut(bindings, Plant(p.engine, initial.0, initial.1)), Undisturbed(n))
  }

  lemma CycledStep<S(!new)>(logic: Logic<S>, bindings: seq<VarBinding>, p: Plant<S>, initial: (seq<Word>, S), n: nat)
    requires |initial.0| == |bindings| && KeepsSymbols(logic)
    ensures Cycled(logic, bindings, p, initial, 0) == SyncOut(bindings, Plant(p.engine, initial.0, initial.1))
    ensures |Cycled(logic, bindings, p, initial, n).symbols| == |bindings|
    ensures Cycled(logic, bindings, p, initial, n + 1) ==
            Scanned(logic, bindings, Cycled(logic, bindings, p, initial, n), n + 1)
  {
    hide Scanned, SyncOut;
    assert Undisturbed(n + 1)[..n] == Undisturbed(n);
    assert forall q: Plant<S> :: Disturbed(q, []) == q;
  }

  /** The running system, undisturbed: from the first scan on, and after every
      scan, all protocols show what the logic computed. */
  lemma CyclesAgree<S(!new)>(logic: Logic<S>, bindings: seq<VarBinding>, p: Plant<S>, initial: (seq<Word>, S), n: nat,
                             edges: seq<Edge>)
    requires |initial.0| == |bindings| && KeepsSymbols(logic) && DistinctBindings(bindings)
    requires Star(edges) && Sound(edges, p.engine)
    requires forall i | 0 <= i < |bindings| :: CellOf(bindings[i]) in p.engine.mem
    requires 0 < n
    ensures |Cycled(logic, bindings, p, initial, n).symbols| == |bindings|
    ensures InAgreement(edges, bindings, Cycled(logic, bindings, p, initial, n))
  {
    hide Star, DistinctBindings, CellOf, InAgreement, Pass, Run;
    var first := Plant(p.engine, initial.0, initial.1);
    var m := Scan.Published(bindings, first);
    ShapeKeepsSound(edges, m, Pass(m));
    RunsAreCoherent(logic, bindings, SyncOut(bindings, first), edges, Undisturbed(n));
  }

  class PlcScheduler<S(!new)> {
    const loader: PlcLoader<S>
    const targetCycleMs: real
    var tick: nat
    var prevStart: int
    var nextWakeup: int
    var stats: Stats

    constructor (loader: PlcLoader<S>, cycleTimeMs: real)
      ensures this.loader == loader && targetCycleMs == cycleTimeMs
    {
      this.loader, targetCycleMs := loader, cycleTimeMs;
      tick, prevStart, nextWakeup, stats := 0, 0, 0, Stats(0, 0.0, 0.0, 0.0, 0.0);
    }

    method UpdateStats(scanTime: real, jitter: real)
      requires 0 < tick
      modifies this`stats
      ensures stats == Updated(old(stats), tick, scanTime, jitter)
    {
      stats := stats.(totalTicks := tick, last := scanTime);
      if tick == 1 {
        stats := stats.(avg := scanTime, max := scanTime, jitter := 0.0);
      } else {
        stats := stats.(avg := stats.avg + (scanTime - stats.avg) / tick as real);
        stats := stats.(max := if stats.max < scanTime then scanTime else stats.max);
        stats := stats.(jitter := stats.jitter + (jitter - stats.jitter) / tick as real);
      }
    }

    /** The clock readings of the current cycle into the statistics. */
    method Account(reading: Reading)
      requires 0 < tick
      modifies this`prevStart, this`stats
      ensures prevStart == reading.start
      ensures stats == Updated(old(stats), tick, ScanTime(reading),
                               if tick == 1 then 0.0 else Abs(Millis(reading.start - old(prevStart)) - targetCycleMs))
    {
      var scanTime := Millis(reading.end - reading.start);
      var jitter := 0.0;
      if tick > 1 {
        jitter := Abs(Millis(reading.start - prevStart) - targetCycleMs);
      }
      prevStart := reading.start;
      UpdateStats(scanTime, jitter);
    }

    /** The loop over any number of cycles, started at clock reading `t0`. */
    method Loop(t0: int, rs: seq<Reading>)
      requires loader.Valid()
      modifies this, loader`hidden, loader.symbols, loader.memory`cells, loader.memory.mappings
      ensures loader.Valid()
      ensures loader.State() == Cycled(loader.logic, loader.bindings, old(loader.State()), loader.initial, |rs|)
      ensures tick == |rs|
      ensures nextWakeup == Wakeup(t0, Period(targetCycleMs), rs, |rs|)
      ensures Truthful(rs, targetCycleMs, |rs|, stats)
    {
      hide Cycled, Scanned, Truthful, Updated, SyncOut;
      ghost var p := loader.State();
      CycledStep(loader.logic, loader.bindings, p, loader.initial, 0);
      NothingYet(rs, targetCycleMs, stats);
      tick, prevStart, nextWakeup := 0, t0, t0;
      loader.InitLogic();
      loader.SyncOutputsFromDll();
      while tick < |rs|
        invariant loader.Valid() && tick <= |rs|
        invariant loader.State() == Cycled(loader.logic, loader.bindings, p, loader.initial, tick)
        invariant tick > 0 ==> prevStart == rs[tick - 1].start
        invariant nextWakeup == Wakeup(t0, Period(targetCycleMs), rs, tick)
        invariant Truthful(rs, targetCycleMs, tick, stats)
      {
        CycledStep(loader.logic, loader.bindings, p, loader.initial, tick);
        var reading := rs[tick];
        tick := tick + 1;
        loader.ScanOnce(tick);
        UpdatedIsTruthful(rs, targetCycleMs, tick, stats);
        Account(reading);

        nextWakeup := nextWakeup + 1000 * Truncate(targetCycleMs * 1000.0);
        if nextWakeup < reading.now {
          nextWakeup := reading.now;
        }
      }
    }
  }

  lemma NothingYet(rs: seq<Reading>, targetMs: real, s: Stats)
    ensures Truthful(rs, targetMs, 0, s)
  {
  }

  lemma MaxStep(rs: seq<Reading>, k: nat, m: real, m': real)
    requires 0 < k <= |rs|
    requires k > 1 ==> IsMax(rs, k - 1, m)
    requires m' == if k > 1 && ScanTime(rs[k - 1]) <= m then m else ScanTime(rs[k - 1])
    ensures IsMax(rs, k, m')
  {
    if k > 1 {
      var i :| 0 <= i < k - 1 && ScanTime(rs[i]) == m;
      assert ScanTime(rs[k - 1]) == ScanTime(rs[k - 1]);
    }
  }

  // What the wakeups amount to.

  /** The wakeup if cycle `j` was the last to overrun; `j == 0` stands for none. */
  function Candidate(t0: int, period: int, rs: seq<Reading>, k: nat, j: nat): int
    requires j <= k <= |rs|
  {
    if j == 0 then t0 + k * period else rs[j - 1].now + (k - j) * period
  }

  /** The k-th wakeup is the greatest of t0 + k T and now_j + (k - j) T. */
  lemma {:induction false} WakeupIsGreatest(t0: int, period: int, rs: seq<Reading>, k: nat) returns (j: nat)
    requires k <= |rs|
    ensures j <= k && Wakeup(t0, period, rs, k) == Candidate(t0, period, rs, k, j)
    ensures forall i | 0 <= i <= k :: Candidate(t0, period, rs, k, i) <= Wakeup(t0, period, rs, k)
  {
    if k == 0 {
      j := 0;
    } else {
      j := WakeupIsGreatest(t0, period, rs, k - 1);
      forall i | 0 <= i < k
        ensures Candidate(t0, period, rs, k, i) == Candidate(t0, period, rs, k - 1, i) + period
      {
        OneMore(k - i, period);
      }
      if Wakeup(t0, period, rs, k - 1) + period < rs[k - 1].now {
        j := k;
      }
    }
  }

  lemma OneMore(n: int, period: int)
    ensures n * period == (n - 1) * period + period
  {
  }

  /** Wakeups are never closer than the period, ... */
  lemma WakeupsKeepDistance(t0: int, period: int, rs: seq<Reading>, k: nat)
    requires 0 < k <= |rs|
    ensures Wakeup(t0, period, rs, k - 1) + period <= Wakeup(t0, period, rs, k)
  {
  }

  /** ... and there is no drift after `k` cycles exactly if none of them ended
      behind its own slot. */
  lemma NoDriftExactly(t0: int, period: int, rs: seq<Reading>, k: nat)
    requires k <= |rs|
    ensures Wakeup(t0, period, rs, k) == t0 + k * period <==>
            forall i | 0 < i <= k :: rs[i - 1].now <= t0 + i * period
  {
    var j := WakeupIsGreatest(t0, period, rs, k);
    forall i | 0 < i <= k
      ensures Candidate(t0, period, rs, k, i) <= t0 + k * period <==> rs[i - 1].now <= t0 + i * period
    {
      Split(k, i, period);
    }
    assert Candidate(t0, period, rs, k, 0) == t0 + k * period;
    if forall i | 0 < i <= k :: rs[i - 1].now <= t0 + i * period {
      assert j > 0 ==> Candidate(t0, period, rs, k, j) <= t0 + k * period;
    } else {
      var i :| 0 < i <= k && rs[i - 1].now > t0 + i * period;
      assert Candidate(t0, period, rs, k, i) > t0 + k * period;
    }
  }

  lemma Split(k: nat, i: nat, period: int)
    ensures k * period == i * period + (k - i) * period
  {
  }

  // The numbers of the clock.

  /** The loop's period in nanoseconds is that of the cycle time cut to whole
      microseconds: 20,000,000 for 20 ms. */
  lemma PeriodIs(targetMs: real, us: nat)
    requires us as real <= targetMs * 1000.0 < (us + 1) as real
    ensures Period(targetMs) == 1000 * us
    ensures Period(20.0) == 20_000_000
  {
  }

  /** Scan times are the nanoseconds from start to end, in milliseconds; jitter is
      how far two starts are from being one cycle time apart, either way. */
  lemma TimesAre(rs: seq<Reading>, targetMs: real, k: nat)
    requires 0 < k <= |rs|
    ensures ScanTime(rs[k - 1]) * 1000000.0 == (rs[k - 1].end - rs[k - 1].start) as real
    ensures k == 1 ==> JitterOf(rs, targetMs, k) == 0.0
    ensures k > 1 ==>
              var gap := (rs[k - 1].start - rs[k - 2].start) as real - targetMs * 1000000.0;
              JitterOf(rs, targetMs, k) * 1000000.0 == if gap < 0.0 then -gap else gap
  {
  }
}
