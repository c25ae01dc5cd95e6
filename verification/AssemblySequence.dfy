/** The assembly line's sequence from the outside, from any state of the line: what
    the machine does in a scan, what each state waits for, what the lamps show. */
module AssemblySequence {
  import opened Words
  import opened Motion
  import opened Assembly
  import opened AssemblySafety

  predicate Active(s: Line) {
    s.ix.auto && !s.ix.curtain
  }

  /** AUTO with the arm at home over a part, 200 grid steps a scan, all else off. */
  lemma StartsLikeThis()
    ensures var s := INITIAL;
            && s.ix == Inputs(true, false, true, true, false, false, false, false)
            && s.qx == Coils(false, false, false, false, false, false, false)
            && s.mw.iw0 == s.mw.completed == s.mw.trigger == s.mw.forcePart == 0 && s.mw.speed == 200
            && s.pos == s.lift == s.rotate == s.clampPos == s.state == 0 && !s.flash
  {
  }

  // The machine.

  /** The chassis moves while the conveyor is on and the curtain free: `v` grid
      steps a scan, on to 500 mm from anywhere in the 20 mm behind it, and out at
      1000 mm, where it is counted. The position is shown in whole millimetres,
      rounded. */
  lemma ChassisMoves(s: Line, tick: nat)
    ensures var t, on, p := Physics(s, tick), s.qx.conveyor && !s.ix.curtain, s.pos + s.mw.speed;
            && t.pos == (if !on then s.pos else if 25000 <= p < 26000 then 25000 else if 50000 <= p then 0 else p)
            && t.ix.chassis == (if on then 25000 <= p < 26000 else s.ix.chassis)
            && t.mw.completed == ToWord(s.mw.completed + if on && 50000 <= p then 1 else 0)
            && t.mw.iw0 == ToWord((t.pos + 25) / 50)
            && t.mw.speed == s.mw.speed && t.mw.trigger == s.mw.trigger && t.mw.forcePart == s.mw.forcePart
  {
    hide Clip;
    assert ToWord(s.mw.completed) == s.mw.completed;
    hide ToWord;
  }

  /** The lift takes 25 scans for its way, the arm 31, the clamp 10; the curtain
      takes lift and arm back, the clamp stays as it is. Limit switches are made at
      95 per cent and at 5. */
  lemma ArmMoves(s: Line, tick: nat)
    ensures var t, free := Physics(s, tick), !s.ix.curtain;
            && t.lift == Clip(if s.qx.liftDown && free then s.lift + 4 else s.lift - 4, 100)
            && t.rotate == Clip(if s.qx.rotateRight && free then s.rotate + 33 else s.rotate - 33, 1000)
            && t.clampPos == Clip(if s.qx.clamp then s.clampPos + 10 else s.clampPos - 10, 100)
            && t.ix.down == (t.lift >= 95) && t.ix.right == (t.rotate >= 950) && t.ix.clamped == (t.clampPos >= 95)
            && t.ix.home == (t.lift <= 5 && t.rotate <= 50)
            && t.ix.part == (s.ix.part || (t.ix.home && !s.qx.clamp) || s.mw.forcePart == 1)
  {
    hide Physics, Clip;
    PhysicsArm(s, tick);
    PhysicsSensors(s, tick);
  }

  /** While the curtain is broken all outputs are off but the clamp and the alarm,
      which changes with every tenth tick; otherwise the run lamp is on and the
      alarm off. */
  lemma LampsShow(s: Line, tick: nat)
    ensures var t, stop := Physics(s, tick), s.ix.curtain;
            && t.flash == (s.flash != (stop && tick % 10 == 0))
            && t.qx == (if stop then Coils(false, false, s.qx.clamp, false, false, false, t.flash)
                        else s.qx.(runLamp := true, alarm := false))
            && t.state == s.state && t.ix.auto == s.ix.auto && t.ix.curtain == s.ix.curtain
  {
    hide Clip, ToWord, Advance;
  }

  /** The sequence leaves the arm, the lamps, the displayed position and the count as
      they are. */
  lemma ControlSpares(s: Line)
    ensures var t := Control(s);
            && t.lift == s.lift && t.rotate == s.rotate && t.clampPos == s.clampPos && t.flash == s.flash
            && t.mw == s.mw.(trigger := t.mw.trigger)
            && t.ix == s.ix.(chassis := t.ix.chassis, part := t.ix.part)
            && t.qx.runLamp == s.qx.runLamp && t.qx.alarm == s.qx.alarm
            && (s.state != 2 || !Active(s) ==> t.ix.part == s.ix.part)
  {
    hide Control;
    if !Active(s) {
      SequenceRests(s);
    } else if s.state == 0 || s.state == 8 {
      TransportSpares(s);
    } else {
      if !(0 <= s.state <= 8) { NoStates(s); }
      if s.state == 1 { LowersToPick(s); }
      if s.state == 2 { Clamps(s); }
      if s.state == 3 { Lifts(s); }
      if s.state == 4 { Turns(s); }
      if s.state == 5 { LowersToPlace(s); }
      if s.state == 6 { LetsGo(s); }
      if s.state == 7 { ReturnsHome(s); }
    }
  }

  lemma TransportSpares(s: Line)
    requires Active(s) && (s.state == 0 || s.state == 8)
    ensures var t := Control(s);
            && t.lift == s.lift && t.rotate == s.rotate && t.clampPos == s.clampPos && t.flash == s.flash
            && t.mw == s.mw.(trigger := t.mw.trigger) && t.ix == s.ix.(chassis := t.ix.chassis)
            && t.qx.runLamp == s.qx.runLamp && t.qx.alarm == s.qx.alarm
  {
  }

  lemma NoStates(s: Line)
    requires Active(s) && !(0 <= s.state <= 8)
    ensures Control(s) == s
  {
  }

  /** In every run the display shows the millimetres of the chassis, rounded, as
      it was when the conveyor had moved; it never wraps. */
  lemma {:induction false} PositionIsShown(xs: seq<Outside>)
    ensures var n := |xs| - 1;
            xs != [] ==>
              var p := Physics(Enter(Run(xs[..n]), xs[n]), |xs|).pos;
              p < 50000 && 50 * Run(xs).mw.iw0 <= p + 25 < 50 * Run(xs).mw.iw0 + 50
  {
    hide Physics, Control;
    if xs != [] {
      var n := |xs| - 1;
      var s := Enter(Run(xs[..n]), xs[n]);
      RunIsSane(xs[..n]);
      ChassisMoves(s, |xs|);
      ControlSpares(Physics(s, |xs|));
    }
  }

  // The sequence.

  /** MANUAL resets the sequence and touches nothing else; a broken curtain holds it
      where it is. */
  lemma SequenceRests(s: Line)
    requires !Active(s)
    ensures Control(s) == if s.ix.auto then s else s.(state := 0)
  {
  }

  /** State 0 has all actuators off and waits for the trigger, which it takes back;
      then the conveyor starts from 0. */
  lemma WaitsForTrigger(s: Line)
    requires Active(s) && s.state == 0
    ensures var t, go := Control(s), s.mw.trigger == 1;
            && t.state == (if go then 8 else 0) && t.pos == (if go then 0 else s.pos)
            && t.mw.trigger == (if go then 0 else s.mw.trigger)
            && t.qx == Coils(go, false, false, false, false, s.qx.runLamp, s.qx.alarm) && !t.ix.chassis
  {
  }

  /** State 8 runs the conveyor until the chassis is at the station or past it, puts
      it there, and goes on once a part is ready. */
  lemma WaitsForChassis(s: Line)
    requires Active(s) && s.state == 8
    ensures var t, there := Control(s), 25000 <= s.pos;
            && t.state == (if there && s.ix.part then 1 else 8) && t.pos == (if there then 25000 else s.pos)
            && t.qx == s.qx.(conveyor := !there) && t.ix.chassis == (there || s.ix.chassis)
  {
  }

  /** State 1 lowers the arm until it is down, ... */
  lemma LowersToPick(s: Line)
    requires Active(s) && s.state == 1
    ensures Control(s) == s.(qx := s.qx.(liftDown := true), state := if s.ix.down then 2 else 1)
  {
  }

  /** ... state 2 closes the clamp and takes the part, ... */
  lemma Clamps(s: Line)
    requires Active(s) && s.state == 2
    ensures Control(s) ==
            s.(qx := s.qx.(clamp := true), ix := s.ix.(part := s.ix.part && !s.ix.clamped), state := if s.ix.clamped then 3 else 2)
  {
  }

  /** ... state 3 lifts it up, ... */
  lemma Lifts(s: Line)
    requires Active(s) && s.state == 3
    ensures Control(s) == s.(qx := s.qx.(liftDown := false), state := if s.lift <= 5 then 4 else 3)
  {
  }

  /** ... state 4 turns it over the chassis, ... */
  lemma Turns(s: Line)
    requires Active(s) && s.state == 4
    ensures Control(s) == s.(qx := s.qx.(rotateRight := true), state := if s.ix.right then 5 else 4)
  {
  }

  /** ... state 5 lowers it, ... */
  lemma LowersToPlace(s: Line)
    requires Active(s) && s.state == 5
    ensures Control(s) == s.(qx := s.qx.(liftDown := true), state := if s.ix.down then 6 else 5)
  {
  }

  /** ... state 6 opens the clamp and lights the done lamp, ... */
  lemma LetsGo(s: Line)
    requires Active(s) && s.state == 6
    ensures var open := s.clampPos <= 5;
            Control(s) == s.(qx := s.qx.(clamp := false, done := s.qx.done || open), state := if open then 7 else 6)
  {
  }

  /** ... and state 7 brings the arm home, puts the lamp out and pushes the chassis
      to 525 mm. */
  lemma ReturnsHome(s: Line)
    requires Active(s) && s.state == 7
    ensures var q := s.qx.(liftDown := false, rotateRight := false);
            Control(s) == if s.ix.home then s.(qx := q.(done := false), pos := 26250, ix := s.ix.(chassis := false), state := 0)
                          else s.(qx := q)
  {
  }
}
