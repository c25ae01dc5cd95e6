/** What the assembly line keeps over every run, whatever the mode switch, the
    light curtain, the registers and (in MANUAL) the coils do between scans. */
module AssemblySafety {
  import opened Words
  import opened Motion
  import opened Assembly

  /** What the loader copies in before a run: the two external inputs, all
      holding registers and, in MANUAL, the coils. */
  datatype Outside = Outside(auto: bool, curtain: bool, completed: Word, speed: Word, trigger: Word, forcePart: Word,
                             coils: Coils)

  function Enter(s: Line, x: Outside): Line {
    s.(ix := s.ix.(auto := x.auto, curtain := x.curtain),
       mw := Registers(s.mw.iw0, x.completed, x.speed, x.trigger, x.forcePart),
       qx := if x.auto then s.qx else x.coils)
  }

  function Tick(s: Line, x: Outside, tick: nat): Line {
    Step(Enter(s, x), tick)
  }

  /** The line after the given scans, from initialisation. */
  function Run(xs: seq<Outside>): Line {
    if xs == [] then INITIAL else Tick(Run(xs[..|xs| - 1]), xs[|xs| - 1], |xs|)
  }

  // The simulated physics and the sequence, field by field.

  lemma PhysicsArm(s: Line, tick: nat)
    ensures var t, stop := Physics(s, tick), s.ix.curtain;
            && t.state == s.state && t.ix.auto == s.ix.auto && t.ix.curtain == stop
            && t.qx.clamp == s.qx.clamp
            && t.lift == Clip(if s.qx.liftDown && !stop then s.lift + 4 else s.lift - 4, 100)
            && t.rotate == Clip(if s.qx.rotateRight && !stop then s.rotate + 33 else s.rotate - 33, 1000)
            && t.clampPos == Clip(if s.qx.clamp then s.clampPos + 10 else s.clampPos - 10, 100)
  {
    hide Clip, Advance, ToWord;
  }

  lemma PhysicsSensors(s: Line, tick: nat)
    ensures var t := Physics(s, tick);
            && t.ix.down == (t.lift >= 95) && t.ix.right == (t.rotate >= 950) && t.ix.clamped == (t.clampPos >= 95)
            && t.ix.home == (t.lift <= 5 && t.rotate <= 50)
            && t.ix.part == (s.ix.part || (t.ix.home && !t.qx.clamp) || s.mw.forcePart == 1)
  {
    hide Clip, Advance, ToWord;
  }

  lemma PhysicsConveyor(s: Line, tick: nat)
    ensures var t, stop := Physics(s, tick), s.ix.curtain;
            && t.qx.conveyor == (s.qx.conveyor && !stop)
            && t.qx.liftDown == (s.qx.liftDown && !stop) && t.qx.rotateRight == (s.qx.rotateRight && !stop)
            && t.mw.trigger == s.mw.trigger
            && t.pos == (if t.qx.conveyor then Advance(s.pos, s.mw.speed).0 else s.pos)
            && (!t.qx.conveyor ==> t.ix.chassis == s.ix.chassis && t.mw.completed == s.mw.completed)
            && (t.qx.conveyor ==>
                  t.mw.completed == if Advance(s.pos, s.mw.speed).1 then ToWord(s.mw.completed + 1) else s.mw.completed)
  {
    hide Clip, Advance, ToWord;
  }

  ghost predicate Working(s: Line) {
    // while the arm works the chassis stands at the station
    && (1 <= s.state <= 7 ==> s.pos == STATION && !s.qx.conveyor && s.ix.chassis)
    // a part that has been gripped is held until the state that releases it
    && (3 <= s.state <= 5 ==> s.qx.clamp && s.clampPos >= 95)
  }

  ghost predicate InRange(s: Line) {
    && 0 <= s.state <= 8 && s.pos < EXIT
    && 0 <= s.lift <= 100 && 0 <= s.rotate <= 1000 && 0 <= s.clampPos <= 100
  }

  ghost predicate Sane(s: Line) {
    InRange(s) && Working(s)
  }

  lemma PhysicsKeepsSane(s: Line, tick: nat)
    requires InRange(s) && (s.ix.auto ==> Working(s))
    ensures var t := Physics(s, tick);
            InRange(t) && t.ix.clamped == (t.clampPos >= 95) && (t.ix.auto ==> Working(t))
  {
    hide Physics;
    PhysicsArm(s, tick);
    PhysicsConveyor(s, tick);
    PhysicsSensors(s, tick);
  }

  lemma ControlKeepsSane(t: Line)
    requires InRange(t) && t.ix.clamped == (t.clampPos >= 95) && (t.ix.auto ==> Working(t))
    ensures Sane(Control(t))
  {
  }

  lemma TickKeepsSane(s: Line, x: Outside, tick: nat)
    requires Sane(s)
    ensures Sane(Tick(s, x, tick))
  {
    hide Physics, Control;
    PhysicsKeepsSane(Enter(s, x), tick);
    ControlKeepsSane(Physics(Enter(s, x), tick));
  }

  /** What the sequence may do to the conveyor and the count. */
  lemma ControlEffect(t: Line)
    ensures var u := Control(t);
            && u.mw.completed == t.mw.completed
            && (u.pos == t.pos || u.pos <= STATION || u.pos == PUSHED_PAST)
            && (u.pos == PUSHED_PAST && t.pos != PUSHED_PAST ==>
                  t.ix.auto && !t.ix.curtain && t.state == 7 && t.ix.home)
            && (t.ix.auto && !t.ix.curtain && t.state == 7 && t.ix.home ==> u.state == 0 && u.pos == PUSHED_PAST)
            && (u.state == t.state || u.state == 0 || StepsTo(u.state) == StepsTo(t.state) + 1)
            && (t.ix.curtain ==> u.lift == t.lift && u.rotate == t.rotate && u.pos == t.pos && u.qx == t.qx && u.ix == t.ix)
  {
  }

  /** In every run: positions stay in range; in states 1 to 7 the chassis is
      exactly at the station with the conveyor off; in states 3 to 5 the clamp is
      energised and closed, even through emergency stops. */
  lemma {:induction false} RunIsSane(xs: seq<Outside>)
    ensures Sane(Run(xs))
  {
    if xs != [] {
      RunIsSane(xs[..|xs| - 1]);
      TickKeepsSane(Run(xs[..|xs| - 1]), xs[|xs| - 1], |xs|);
    }
  }

  // Emergency stop.

  /** The scans `xs` from state `s`, the first of them with tick `tick + 1`. */
  function Follow(s: Line, xs: seq<Outside>, tick: nat): Line {
    if xs == [] then s else Tick(Follow(s, xs[..|xs| - 1], tick), xs[|xs| - 1], tick + |xs|)
  }

  function Less(x: int, y: int): int {
    if x < y then 0 else x - y
  }

  lemma StopTick(s: Line, x: Outside, tick: nat)
    requires Sane(s) && x.curtain
    ensures var t := Tick(s, x, tick);
            && Sane(t) && t.pos == s.pos && t.lift == Less(s.lift, 4) && t.rotate == Less(s.rotate, 33)
            && t.ix.home == (t.lift <= 5 && t.rotate <= 50) && !t.qx.conveyor
  {
    hide Physics, Control;
    TickKeepsSane(s, x, tick);
    PhysicsArm(Enter(s, x), tick);
    PhysicsConveyor(Enter(s, x), tick);
    PhysicsSensors(Enter(s, x), tick);
    ControlEffect(Physics(Enter(s, x), tick));
  }

  lemma {:induction false} StopRetracts(s: Line, xs: seq<Outside>, tick: nat)
    requires Sane(s) && forall i | 0 <= i < |xs| :: xs[i].curtain
    ensures var t := Follow(s, xs, tick);
            && Sane(t) && t.pos == s.pos
            && t.lift == Less(s.lift, 4 * |xs|) && t.rotate == Less(s.rotate, 33 * |xs|)
            && (xs != [] ==> t.ix.home == (t.lift <= 5 && t.rotate <= 50) && !t.qx.conveyor)
  {
    hide Tick;
    if xs != [] {
      var n := |xs| - 1;
      StopRetracts(s, xs[..n], tick);
      StopTick(Follow(s, xs[..n], tick), xs[n], tick + |xs|);
    }
  }

  /** 29 scans with the curtain broken bring the arm home from anywhere, in any
      mode, while the conveyor stands still. */
  lemma StopBringsArmHome(s: Line, xs: seq<Outside>, tick: nat)
    requires Sane(s) && 29 <= |xs| && forall i | 0 <= i < |xs| :: xs[i].curtain
    ensures Follow(s, xs, tick).ix.home && Follow(s, xs, tick).pos == s.pos
  {
    StopRetracts(s, xs, tick);
  }

  /** 28 are not enough when the arm is fully over the station. */
  lemma StopNeeds29(s: Line, xs: seq<Outside>, tick: nat)
    requires Sane(s) && s.rotate == 1000 && 0 < |xs| < 29 && forall i | 0 <= i < |xs| :: xs[i].curtain
    ensures !Follow(s, xs, tick).ix.home
  {
    StopRetracts(s, xs, tick);
  }

  // Conservation of chassis.

  /** A chassis leaves the end of the conveyor in this scan. */
  function Leaves(s: Line, x: Outside, tick: nat): nat {
    var t := Lamps(Enter(s, x), tick);
    if t.qx.conveyor && !t.ix.curtain && Advance(t.pos, t.mw.speed).1 then 1 else 0
  }

  /** The arm returns home in state 7 and lets the chassis go in this scan. */
  function Releases(s: Line, x: Outside, tick: nat): nat {
    var t := Physics(Enter(s, x), tick);
    if x.auto && !x.curtain && t.state == 7 && t.ix.home then 1 else 0
  }

  function TotalLeft(xs: seq<Outside>): nat {
    if xs == [] then 0
    else TotalLeft(xs[..|xs| - 1]) + Leaves(Run(xs[..|xs| - 1]), xs[|xs| - 1], |xs|)
  }

  function TotalReleased(xs: seq<Outside>): nat {
    if xs == [] then 0
    else TotalReleased(xs[..|xs| - 1]) + Releases(Run(xs[..|xs| - 1]), xs[|xs| - 1], |xs|)
  }

  /** The completed-count register counts exactly the chassis that leave. */
  lemma CounterCountsLeaving(s: Line, x: Outside, tick: nat)
    ensures Tick(s, x, tick).mw.completed == ToWord(x.completed + Leaves(s, x, tick))
  {
    hide Physics, Control, Advance;
    PhysicsArm(Enter(s, x), tick);
    PhysicsConveyor(Enter(s, x), tick);
    ControlEffect(Physics(Enter(s, x), tick));
  }

  function PastStation(s: Line): nat {
    if s.pos > STATION then 1 else 0
  }

  lemma TickConserves(s: Line, x: Outside, tick: nat)
    requires Sane(s) && x.speed < 1000
    ensures Leaves(s, x, tick) + PastStation(Tick(s, x, tick)) <= PastStation(s) + Releases(s, x, tick)
  {
    hide Physics, Control;
    PhysicsArm(Enter(s, x), tick);
    PhysicsConveyor(Enter(s, x), tick);
    ControlEffect(Physics(Enter(s, x), tick));
  }

  /** As long as the conveyor moves less than its 20 mm window per scan, no
      chassis gets past the station, or is counted, without a release by the arm
      of its own. */
  lemma {:induction false} ChassisConserved(xs: seq<Outside>)
    requires forall i | 0 <= i < |xs| :: xs[i].speed < 1000
    ensures TotalLeft(xs) + PastStation(Run(xs)) <= TotalReleased(xs)
  {
    if xs != [] {
      var n := |xs| - 1;
      ChassisConserved(xs[..n]);
      RunIsSane(xs[..n]);
      TickConserves(Run(xs[..n]), xs[n], |xs|);
    }
  }

  // The bound on the speed is the exact one: a chassis pushed by hand.

  /** MANUAL, with nothing but the conveyor on. */
  function Pushed(v: Word): Outside {
    Outside(false, false, 0, v, 0, 0, Coils(true, false, false, false, false, false, false))
  }

  function Pushes(v: Word, n: nat): (xs: seq<Outside>)
    ensures |xs| == n && forall i | 0 <= i < n :: xs[i] == Pushed(v)
  {
    seq(n, i => Pushed(v))
  }

  lemma PushTick(s: Line, v: Word, tick: nat)
    ensures Tick(s, Pushed(v), tick).pos == Advance(s.pos, v).0
    ensures Leaves(s, Pushed(v), tick) == (if Advance(s.pos, v).1 then 1 else 0) && Releases(s, Pushed(v), tick) == 0
  {
    hide Advance, Clip, ToWord;
  }

  lemma LastPush(v: Word, n: nat)
    ensures var before := Run(Pushes(v, n));
            && Run(Pushes(v, n + 1)).pos == Advance(before.pos, v).0
            && TotalLeft(Pushes(v, n + 1)) == TotalLeft(Pushes(v, n)) + (if Advance(before.pos, v).1 then 1 else 0)
            && TotalReleased(Pushes(v, n + 1)) == TotalReleased(Pushes(v, n))
  {
    hide Tick, Leaves, Releases, Advance;
    assert Pushes(v, n + 1)[..n] == Pushes(v, n);
    PushTick(Run(Pushes(v, n)), v, n + 1);
  }

  lemma {:induction false} PushedTo(v: Word, n: nat)
    requires n * v < STATION
    ensures Run(Pushes(v, n)).pos == n * v && TotalLeft(Pushes(v, n)) == TotalReleased(Pushes(v, n)) == 0
  {
    if n > 0 {
      assert n * v == (n - 1) * v + v;
      PushedTo(v, n - 1);
      LastPush(v, n - 1);
    } else {
      assert Pushes(v, 0) == [];
    }
  }

  /** At 1000 or more a chassis that is pushed gets past the station, or out. */
  lemma PushedPast(v: Word) returns (n: nat)
    requires 1000 <= v
    ensures TotalReleased(Pushes(v, n)) < TotalLeft(Pushes(v, n)) + PastStation(Run(Pushes(v, n)))
  {
    hide Run, TotalLeft, TotalReleased, Pushes;
    var k := (STATION - 1) / v;
    assert k * v < STATION <= k * v + v;
    PushedTo(v, k);
    LastPush(v, k);
    LastPush(v, k + 1);
    n := if Advance(k * v, v).0 == STATION then k + 2 else k + 1;
  }

  /** Conservation holds in all runs whose speeds are at most `v` exactly if `v` is
      below 1000. */
  lemma ConservedExactly(v: Word)
    ensures (forall xs: seq<Outside> | (forall i | 0 <= i < |xs| :: xs[i].speed <= v) ::
               TotalLeft(xs) + PastStation(Run(xs)) <= TotalReleased(xs))
            <==> v < 1000
  {
    hide TotalLeft, TotalReleased, Run, PastStation;
    if v < 1000 {
      forall xs: seq<Outside> | (forall i | 0 <= i < |xs| :: xs[i].speed <= v)
        ensures TotalLeft(xs) + PastStation(Run(xs)) <= TotalReleased(xs)
      {
        ChassisConserved(xs);
      }
    } else {
      var n := PushedPast(v);
      assert forall i | 0 <= i < n :: Pushes(v, n)[i].speed <= v;
    }
  }

  // A release is the end of a complete cycle.

  const CYCLE := [8, 1, 2, 3, 4, 5, 6, 7]

  /** The states gone through since the line last waited in state 0. */
  function Visited(xs: seq<Outside>): seq<int> {
    if xs == [] then []
    else
      var before, now := Visited(xs[..|xs| - 1]), Run(xs).state;
      if now == 0 then [] else if before != [] && before[|before| - 1] == now then before else before + [now]
  }

  function StepsTo(state: int): (n: nat)
    ensures n <= 8
  {
    if state == 8 then 1 else if 1 <= state <= 7 then state + 1 else 0
  }

  lemma TickStays(s: Line, x: Outside, tick: nat)
    requires Sane(s)
    ensures var t := Tick(s, x, tick).state; t == s.state || t == 0 || StepsTo(t) == StepsTo(s.state) + 1
  {
    hide Physics, Control, Advance;
    PhysicsArm(Enter(s, x), tick);
    PhysicsConveyor(Enter(s, x), tick);
    ControlEffect(Physics(Enter(s, x), tick));
  }

  lemma {:induction false} VisitedIsPrefix(xs: seq<Outside>)
    ensures Visited(xs) == CYCLE[..StepsTo(Run(xs).state)]
  {
    hide Tick;
    if xs != [] {
      var n := |xs| - 1;
      VisitedIsPrefix(xs[..n]);
      RunIsSane(xs[..n]);
      RunIsSane(xs);
      TickStays(Run(xs[..n]), xs[n], |xs|);
    }
  }

  lemma LastScan(xs: seq<Outside>)
    requires xs != []
    ensures Run(xs) == Tick(Run(xs[..|xs| - 1]), xs[|xs| - 1], |xs|)
  {
  }

  lemma ReleaseResets(s: Line, x: Outside, tick: nat)
    requires Releases(s, x, tick) == 1
    ensures s.state == 7 && Tick(s, x, tick).state == 0 && Tick(s, x, tick).pos == PUSHED_PAST
  {
    hide Physics, Control, Clip;
    PhysicsArm(Enter(s, x), tick);
    ControlEffect(Physics(Enter(s, x), tick));
  }

  /** Each release has gone through 8, 1, 2, ..., 7 since the line last waited. */
  lemma ReleaseEndsACycle(xs: seq<Outside>)
    requires xs != [] && Releases(Run(xs[..|xs| - 1]), xs[|xs| - 1], |xs|) == 1
    ensures Visited(xs[..|xs| - 1]) == CYCLE && Run(xs).state == 0 && Run(xs).pos == PUSHED_PAST
  {
    hide Physics, Control, Visited, Run, Clip;
    var before := xs[..|xs| - 1];
    VisitedIsPrefix(before);
    ReleaseResets(Run(before), xs[|before|], |xs|);
    assert Run(xs) == Tick(Run(before), xs[|before|], |xs|) by { LastScan(xs); }
  }
}
