/** How long an undisturbed assembly cycle takes, to the scan. */
module AssemblyProgress {
  import opened Words
  import opened Motion
  import opened Assembly
  import opened AssemblySafety

  /** AUTO, curtain free, and the conveyor cannot run from the station window to
      its end in one scan. */
  predicate Undisturbed(x: Outside) {
    x.auto && !x.curtain && x.speed <= 25000
  }

  ghost predicate ArmAtRest(s: Line) {
    !s.qx.liftDown && !s.qx.clamp && !s.qx.rotateRight && s.lift == 0 && s.clampPos == 0 && s.ix.part
  }

  /** Waiting for a trigger. */
  ghost predicate Idle(s: Line) {
    s.state == 0 && !s.qx.conveyor && ArmAtRest(s) && 0 <= s.rotate <= 50
  }

  /** A chassis is `d` from the start, on its way. */
  ghost predicate Travelling(s: Line, d: nat) {
    s.state == 8 && s.qx.conveyor && ArmAtRest(s) && 0 <= s.rotate <= 17 && s.pos == d < STATION
  }

  // The arm, `j` scans after the chassis has arrived.

  function StateAt(j: nat): int {
    if j < 25 then 1 else if j < 36 then 2 else if j < 61 then 3 else if j < 91 then 4
    else if j < 116 then 5 else if j < 127 then 6 else 7
  }

  function LiftAt(j: nat): int {
    if j <= 1 then 0
    else if j <= 37 then Clip(4 * (j - 1), 100)
    else if j <= 92 then Clip(100 - 4 * (j - 37), 100)
    else if j <= 128 then Clip(4 * (j - 92), 100)
    else Clip(100 - 4 * (j - 128), 100)
  }

  function RotationAt(j: nat): int {
    if j <= 62 then 0 else if j <= 128 then Clip(33 * (j - 62), 1000) else Clip(1000 - 33 * (j - 128), 1000)
  }

  function ClampAt(j: nat): int {
    if j <= 26 then 0 else if j <= 117 then Clip(10 * (j - 26), 100) else Clip(100 - 10 * (j - 117), 100)
  }

  ghost predicate AtWork(s: Line, j: nat) {
    && s.pos == STATION && s.ix.chassis && !s.qx.conveyor
    && s.state == StateAt(j) && s.lift == LiftAt(j) && s.rotate == RotationAt(j) && s.clampPos == ClampAt(j)
    && s.qx.liftDown == (1 <= j <= 36 || 92 <= j <= 127)
    && s.qx.clamp == (26 <= j <= 116)
    && s.qx.rotateRight == (62 <= j <= 127)
  }

  /** All three physics facts about a scan, for an undisturbed line. */
  lemma QuietPhysics(s: Line, x: Outside, tick: nat)
    requires Undisturbed(x)
    ensures var t := Physics(Enter(s, x), tick);
            && t.state == s.state && t.ix.auto && !t.ix.curtain && t.mw.trigger == x.trigger
            && t.qx.conveyor == s.qx.conveyor && t.qx.liftDown == s.qx.liftDown
            && t.qx.rotateRight == s.qx.rotateRight && t.qx.clamp == s.qx.clamp
            && t.lift == Clip(if s.qx.liftDown then s.lift + 4 else s.lift - 4, 100)
            && t.rotate == Clip(if s.qx.rotateRight then s.rotate + 33 else s.rotate - 33, 1000)
            && t.clampPos == Clip(if s.qx.clamp then s.clampPos + 10 else s.clampPos - 10, 100)
  {
    hide Physics, Clip;
    PhysicsArm(Enter(s, x), tick);
    PhysicsConveyor(Enter(s, x), tick);
  }

  lemma IdleTick(s: Line, x: Outside, tick: nat)
    requires Idle(s) && Undisturbed(x)
    ensures var t := Tick(s, x, tick);
            && (if x.trigger == 1 then Travelling(t, 0) else Idle(t) && t.pos == s.pos)
            && t.mw.completed == x.completed
  {
    hide Physics;
    QuietPhysics(s, x, tick);
    PhysicsConveyor(Enter(s, x), tick);
    PhysicsSensors(Enter(s, x), tick);
  }

  lemma TravellingTick(s: Line, x: Outside, tick: nat, d: nat)
    requires Travelling(s, d) && Undisturbed(x)
    ensures var t := Tick(s, x, tick);
            && (if d + x.speed < STATION then Travelling(t, d + x.speed) else AtWork(t, 0))
            && t.mw.completed == x.completed
  {
    hide Physics;
    QuietPhysics(s, x, tick);
    PhysicsConveyor(Enter(s, x), tick);
    PhysicsSensors(Enter(s, x), tick);
  }

  lemma AtWorkPhysics(s: Line, x: Outside, tick: nat, j: nat)
    requires AtWork(s, j) && j <= 156 && Undisturbed(x)
    ensures var t := Physics(Enter(s, x), tick);
            && t.lift == LiftAt(j + 1) && t.rotate == RotationAt(j + 1) && t.clampPos == ClampAt(j + 1)
  {
    hide Physics;
    QuietPhysics(s, x, tick);
  }

  lemma AtWorkTick(s: Line, x: Outside, tick: nat, j: nat)
    requires AtWork(s, j) && j < 156 && Undisturbed(x)
    ensures AtWork(Tick(s, x, tick), j + 1) && Tick(s, x, tick).mw.completed == x.completed
  {
    hide Physics, Clip;
    AtWorkPhysics(s, x, tick, j);
    hide LiftAt, RotationAt, ClampAt;
    WorkSensors(j);
    QuietPhysics(s, x, tick);
    PhysicsConveyor(Enter(s, x), tick);
    PhysicsSensors(Enter(s, x), tick);
  }

  /** Which limit switches are made `j` scans after arrival. */
  lemma WorkSensors(j: nat)
    requires j < 156
    ensures LiftAt(j + 1) >= 95 <==> 25 <= j + 1 <= 38 || 116 <= j + 1 <= 129
    ensures LiftAt(j + 1) <= 5 <==> j + 1 <= 2 || 61 <= j + 1 <= 93 || 152 <= j + 1
    ensures RotationAt(j + 1) >= 950 <==> 91 <= j + 1 <= 129
    ensures RotationAt(j + 1) <= 50 <==> j + 1 <= 63
    ensures ClampAt(j + 1) >= 95 <==> 36 <= j + 1 <= 117
    ensures ClampAt(j + 1) <= 5 <==> j + 1 <= 26 || 127 <= j + 1
  {
  }

  lemma LastTick(s: Line, x: Outside, tick: nat)
    requires AtWork(s, 156) && Undisturbed(x)
    ensures var t := Tick(s, x, tick); Idle(t) && t.pos == PUSHED_PAST && t.mw.completed == x.completed
  {
    hide Physics;
    AtWorkPhysics(s, x, tick, 156);
    QuietPhysics(s, x, tick);
    PhysicsConveyor(Enter(s, x), tick);
    PhysicsSensors(Enter(s, x), tick);
  }

  // Undisturbed runs from initialisation.

  ghost predicate Known(s: Line) {
    || Idle(s)
    || (exists d: nat :: Travelling(s, d))
    || (exists j: nat :: j <= 156 && AtWork(s, j))
  }

  lemma KnownTick(s: Line, x: Outside, tick: nat)
    requires Known(s) && s.pos <= PUSHED_PAST && Undisturbed(x)
    ensures var t := Tick(s, x, tick); Known(t) && t.pos <= PUSHED_PAST && t.mw.completed == x.completed
  {
    hide Tick, Idle, Travelling, AtWork, Undisturbed;
    if Idle(s) {
      IdleTick(s, x, tick);
      IdleOrOut(s, x, tick);
    } else if d: nat :| Travelling(s, d) {
      TravellingTick(s, x, tick, d);
      PositionOf(Tick(s, x, tick));
    } else {
      var j: nat :| j <= 156 && AtWork(s, j);
      if j < 156 {
        AtWorkTick(s, x, tick, j);
        PositionOf(Tick(s, x, tick));
      } else {
        LastTick(s, x, tick);
      }
    }
  }

  lemma PositionOf(s: Line)
    ensures (exists d: nat :: Travelling(s, d)) || (exists j: nat :: AtWork(s, j)) ==> s.pos <= STATION
  {
  }

  lemma IdleOrOut(s: Line, x: Outside, tick: nat)
    requires Idle(s) && s.pos <= PUSHED_PAST && Undisturbed(x)
    ensures Tick(s, x, tick).pos <= PUSHED_PAST
  {
    hide Tick;
    IdleTick(s, x, tick);
  }

  /** In an undisturbed run the chassis is never more than 525 mm down the line
      and no scan counts a completed car. */
  lemma {:induction false} UndisturbedRun(xs: seq<Outside>)
    requires forall i | 0 <= i < |xs| :: Undisturbed(xs[i])
    ensures Known(Run(xs)) && Run(xs).pos <= PUSHED_PAST
    ensures xs != [] ==> Run(xs).mw.completed == xs[|xs| - 1].completed
  {
    hide Tick, Known, Undisturbed;
    if xs != [] {
      var n := |xs| - 1;
      UndisturbedRun(xs[..n]);
      KnownTick(Run(xs[..n]), xs[n], |xs|);
    } else {
      StartsIdle();
    }
  }

  lemma StartsIdle()
    ensures Known(INITIAL)
  {
    assert Idle(INITIAL);
  }

  lemma WaitingIsIdle(s: Line)
    requires Known(s) && s.state == 0
    ensures Idle(s)
  {
  }

  // One whole cycle. The trigger arrives with scan 0 of `xs`.

  /** How far the conveyor is driven by scans 1 to `n`. */
  function Driven(xs: seq<Outside>, n: nat): nat
    requires n < |xs|
  {
    if n == 0 then 0 else Driven(xs, n - 1) + xs[n].speed
  }

  lemma {:induction false} DrivenGrows(xs: seq<Outside>, m: nat, n: nat)
    requires m <= n < |xs|
    ensures Driven(xs, m) <= Driven(xs, n)
  {
    if m < n {
      DrivenGrows(xs, m, n - 1);
    }
  }

  ghost predicate Trip(s: Line, xs: seq<Outside>, arrival: nat) {
    && Idle(s) && 0 < arrival && |xs| == arrival + 158
    && xs[0].trigger == 1 && (forall i | 0 <= i < |xs| :: Undisturbed(xs[i]))
    // the scan in which the chassis reaches the station
    && Driven(xs, arrival - 1) < STATION <= Driven(xs, arrival)
  }

  lemma {:induction false} TripOut(s: Line, xs: seq<Outside>, tick: nat, arrival: nat, n: nat)
    requires Trip(s, xs, arrival) && n < arrival
    ensures Travelling(Follow(s, xs[..n + 1], tick), Driven(xs, n))
  {
    hide Tick, Travelling;
    assert xs[..n + 1][..n] == xs[..n];
    assert Undisturbed(xs[n]);
    if n == 0 {
      IdleTick(s, xs[0], tick + 1);
    } else {
      TripOut(s, xs, tick, arrival, n - 1);
      DrivenGrows(xs, n, arrival - 1);
      TravellingTick(Follow(s, xs[..n], tick), xs[n], tick + n + 1, Driven(xs, n - 1));
    }
  }

  lemma {:induction false} TripWork(s: Line, xs: seq<Outside>, tick: nat, arrival: nat, j: nat)
    requires Trip(s, xs, arrival) && j <= 156
    ensures AtWork(Follow(s, xs[..arrival + 1 + j], tick), j)
  {
    hide Tick, Travelling, AtWork;
    var n := arrival + j;
    assert xs[..n + 1][..n] == xs[..n];
    assert Undisturbed(xs[n]);
    if j == 0 {
      TripOut(s, xs, tick, arrival, arrival - 1);
      TravellingTick(Follow(s, xs[..n], tick), xs[n], tick + n + 1, Driven(xs, arrival - 1));
    } else {
      TripWork(s, xs, tick, arrival, j - 1);
      AtWorkTick(Follow(s, xs[..n], tick), xs[n], tick + n + 1, j - 1);
    }
  }

  /** The cycle to the scan: state 8 from the trigger to the arrival, then 25
      scans in state 1, 11 in 2, 25 in 3, 30 in 4, 25 in 5, 11 in 6 and 30 in 7,
      and the line waits again 157 scans after the arrival. No part is ever waited
      for, whatever the speeds were. */
  lemma TripIsExact(s: Line, xs: seq<Outside>, tick: nat, arrival: nat, n: nat)
    requires Trip(s, xs, arrival) && 0 < n <= |xs|
    ensures var t := Follow(s, xs[..n], tick);
            && t.state == (if n <= arrival then 8 else if n < |xs| then StateAt(n - arrival - 1) else 0)
            && (n == |xs| ==> Idle(t) && t.pos == PUSHED_PAST)
  {
    hide Tick;
    if n <= arrival {
      TripOut(s, xs, tick, arrival, n - 1);
    } else if n < |xs| {
      TripWork(s, xs, tick, arrival, n - arrival - 1);
    } else {
      TripWork(s, xs, tick, arrival, 156);
      assert xs[..n][..n - 1] == xs[..n - 1];
      assert Undisturbed(xs[n - 1]);
      LastTick(Follow(s, xs[..n - 1], tick), xs[n - 1], tick + n);
    }
  }

  /** ceil(25000 / v) */
  function ArrivalAt(v: Word): nat
    requires 0 < v
  {
    (STATION + v - 1) / v
  }

  lemma {:induction false} DrivenSteadily(xs: seq<Outside>, v: Word, n: nat)
    requires n < |xs| && forall i | 0 <= i < |xs| :: xs[i].speed == v
    ensures Driven(xs, n) == n * v
  {
    if n > 0 {
      DrivenSteadily(xs, v, n - 1);
    }
  }

  lemma ArrivalIsExact(v: Word)
    requires 0 < v
    ensures 0 < ArrivalAt(v) && (ArrivalAt(v) - 1) * v < STATION <= ArrivalAt(v) * v
  {
    var k := ArrivalAt(v);
    assert STATION + v - 1 == k * v + (STATION + v - 1) % v;
    assert (k - 1) * v == k * v - v;
  }

  /** At constant speed, from any point of an undisturbed run where the line
      waits: a trigger is answered by a full cycle of exactly
      ceil(25000 / v) + 158 scans. */
  lemma CycleTime(xs: seq<Outside>, ys: seq<Outside>, v: Word)
    requires 0 < v <= 25000
    requires forall i | 0 <= i < |xs| :: Undisturbed(xs[i])
    requires Run(xs).state == 0
    requires |ys| == ArrivalAt(v) + 158 && ys[0].trigger == 1
    requires forall i | 0 <= i < |ys| :: Undisturbed(ys[i]) && ys[i].speed == v
    ensures forall n | 0 < n < |ys| :: Run(xs + ys[..n]).state != 0
    ensures Run(xs + ys).state == 0 && Run(xs + ys).pos == PUSHED_PAST
  {
    hide Tick, Idle, Known;
    UndisturbedRun(xs);
    WaitingIsIdle(Run(xs));
    ArrivalIsExact(v);
    var k := ArrivalAt(v);
    DrivenSteadily(ys, v, k);
    DrivenSteadily(ys, v, k - 1);
    assert Trip(Run(xs), ys, k);
    forall n | 0 < n < |ys| ensures Run(xs + ys[..n]).state != 0 {
      TripIsExact(Run(xs), ys, |xs|, k, n);
      RunOn(xs, ys[..n]);
    }
    TripIsExact(Run(xs), ys, |xs|, k, |ys|);
    assert ys[..|ys|] == ys;
    RunOn(xs, ys);
  }

  lemma {:induction false} RunOn(xs: seq<Outside>, ys: seq<Outside>)
    ensures Run(xs + ys) == Follow(Run(xs), ys, |xs|)
  {
    hide Tick;
    if ys == [] {
      assert xs + ys == xs;
    } else {
      var n := |ys| - 1;
      RunOn(xs, ys[..n]);
      assert (xs + ys)[..|xs + ys| - 1] == xs + ys[..n];
    }
  }
}
