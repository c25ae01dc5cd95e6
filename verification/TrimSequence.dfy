/** The trim line's sequence from the outside: what each state waits for, what the
    coils and readings are meanwhile, and the whole of an undisturbed run. */
module TrimSequence {
  import opened Words
  import opened Motion
  import opened Trim
  import opened TrimRuns

  /** The sequence is at work. */
  predicate Active(s: Line) {
    s.ix.auto && !s.ix.eStop
  }

  /** AUTO with all outputs and counts 0, 20 degrees, a torque target of 450. */
  lemma StartsLikeThis()
    ensures var s := INITIAL;
            && s.ix == Inputs(true, false, false, false, false, false, false, false)
            && s.qx == Coils(false, false, false, false, false, false, false, false)
            && s.mw.iw0 == s.mw.torque == s.mw.press == s.mw.total == s.mw.ok == s.mw.ng == s.mw.bypass == 0
            && s.mw.heat == 20 && s.mw.target == 450
            && s.sim.dock == s.sim.torque == s.sim.press == s.sim.seat == 0 && s.sim.heat == 400
            && s.pos == s.state == 0 && !s.flash
  {
  }

  // Emergency stop, MANUAL, lamps.

  /** An emergency stop cuts all outputs but the siren, which goes five scans on and
      five off, and holds everything else where it is. */
  lemma StopCutsOutputs(s: Line, tick: nat, stableTorque: nat, stablePress: nat)
    requires s.ix.eStop
    ensures var t := Step(s, tick, stableTorque, stablePress);
            && !t.qx.conveyor && !t.qx.dock && !t.qx.bolt && !t.qx.glue && !t.qx.lifter && !t.qx.pass && !t.qx.running
            && (t.qx.fail <==> tick % 10 < 5)
            && t == s.(qx := t.qx)
  {
  }

  /** MANUAL puts the sequence back to 0 and leaves the actuators to the operator. */
  lemma ManualResets(s: Line, tick: nat, stableTorque: nat, stablePress: nat)
    requires !s.ix.auto && !s.ix.eStop
    ensures var t := Step(s, tick, stableTorque, stablePress);
            && t.state == 0
            && t.qx.conveyor == s.qx.conveyor && t.qx.dock == s.qx.dock && t.qx.bolt == s.qx.bolt
            && t.qx.glue == s.qx.glue && t.qx.lifter == s.qx.lifter && t.qx.pass == s.qx.pass
  {
    hide Tighten, Press, Convey, MoveSeat;
    StepIsControl(s, tick, stableTorque, stablePress);
    MovedEffect(s, tick, stableTorque, stablePress);
    MovedCoils(s, tick, stableTorque, stablePress);
    hide Moved;
  }

  lemma MovedCoils(s: Line, tick: nat, stableTorque: nat, stablePress: nat)
    ensures var t := Moved(s, tick, stableTorque, stablePress);
            && t.qx == s.qx.(fail := s.qx.fail && s.state == 7, running := if tick % 25 == 0 then !s.flash else s.flash)
            && t.flash == (if tick % 25 == 0 then !s.flash else s.flash)
            && t.mw.target == s.mw.target && t.mw.bypass == s.mw.bypass && t.ix.eStop == s.ix.eStop
  {
  }

  lemma StartKeepsLamp(s: Line)
    requires s.state == 0
    ensures Cockpit(s).qx.running == s.qx.running && Cockpit(s).flash == s.flash
  {
  }

  lemma DockKeepsLamp(s: Line)
    requires s.state == 1
    ensures Cockpit(s).qx.running == s.qx.running && Cockpit(s).flash == s.flash
  {
  }

  lemma TightenKeepsLamp(s: Line)
    requires s.state == 2
    ensures Cockpit(s).qx.running == s.qx.running && Cockpit(s).flash == s.flash
  {
  }

  lemma GlassKeepsLamp(s: Line)
    requires s.state !in {0, 1, 2}
    ensures Cockpit(s).qx.running == s.qx.running && Cockpit(s).flash == s.flash
  {
  }

  lemma CockpitKeepsLamp(s: Line)
    ensures Cockpit(s).qx.running == s.qx.running && Cockpit(s).flash == s.flash
  {
    hide Cockpit;
    if s.state == 0 {
      StartKeepsLamp(s);
    } else if s.state == 1 {
      DockKeepsLamp(s);
    } else if s.state == 2 {
      TightenKeepsLamp(s);
    } else {
      GlassKeepsLamp(s);
    }
  }

  /** What states 4 to 8 leave alone. */
  ghost predicate Kept(s: Line, t: Line, tick: nat) {
    && t.qx.running == s.qx.running
    && t.sim == s.sim && t.flash == s.flash
    && t.mw == s.mw.(total := t.mw.total, ok := t.mw.ok, ng := t.mw.ng)
    && (s.state != 7 ==> t.mw == s.mw)
    && (s.state != 8 || tick % 50 != 0 ==> t.ix == s.ix && t.pos == s.pos)
    && t.ix == s.ix.(inspection := t.ix.inspection)
  }

  lemma GlassAndSeatSpare(s: Line, tick: nat)
    requires s.state == 4 || s.state == 5
    ensures var t := Finish(s, tick); t == s.(qx := t.qx, state := t.state) && t.qx.running == s.qx.running
  {
    hide Judge;
  }

  lemma OthersSpare(s: Line, tick: nat)
    requires s.state !in {4, 5, 7, 8}
    ensures var t := Finish(s, tick); t == s.(qx := t.qx, state := t.state) && t.qx.running == s.qx.running
  {
    hide Judge;
  }

  lemma DisplaySpares(s: Line, tick: nat)
    requires s.state == 8
    ensures Kept(s, Finish(s, tick), tick)
  {
    hide Judge;
  }

  lemma Inspection(s: Line, tick: nat)
    requires s.state == 7
    ensures Finish(s, tick) ==
            if s.ix.inspection then Judge(s.(qx := s.qx.(conveyor := false))) else s.(qx := s.qx.(conveyor := true))
  {
    hide Judge;
  }

  lemma InspectionSpares(s: Line, tick: nat)
    requires s.state == 7
    ensures Kept(s, Finish(s, tick), tick)
  {
    hide Judge, Finish;
    Inspection(s, tick);
    JudgeKeepsLamp(s.(qx := s.qx.(conveyor := false)));
  }

  lemma FinishSpares(s: Line, tick: nat)
    ensures Kept(s, Finish(s, tick), tick)
  {
    hide Finish;
    if s.state == 7 {
      InspectionSpares(s, tick);
    } else if s.state == 8 {
      DisplaySpares(s, tick);
    } else if s.state == 4 || s.state == 5 {
      GlassAndSeatSpare(s, tick);
    } else {
      OthersSpare(s, tick);
    }
  }

  lemma JudgeKeepsLamp(s: Line)
    ensures Judge(s).qx.running == s.qx.running && Judge(s).flash == s.flash
    ensures Judge(s).ix == s.ix && Judge(s).sim == s.sim && Judge(s).pos == s.pos
    ensures Judge(s).mw == s.mw.(total := Judge(s).mw.total, ok := Judge(s).mw.ok, ng := Judge(s).mw.ng)
  {
    hide ToWord, Passes;
  }

  lemma ControlKeepsLamp(s: Line, tick: nat)
    ensures Control(s, tick).qx.running == s.qx.running && Control(s, tick).flash == s.flash
  {
    hide Cockpit, Finish;
    CockpitKeepsLamp(s);
    FinishSpares(s, tick);
  }

  /** While there is no emergency stop the running lamp changes with every 25th
      tick. */
  lemma RunningLampFlashes(s: Line, tick: nat, stableTorque: nat, stablePress: nat)
    requires !s.ix.eStop
    ensures var t := Step(s, tick, stableTorque, stablePress);
            t.qx.running == t.flash == (s.flash != (tick % 25 == 0))
  {
    hide Moved, Control;
    StepIsControl(s, tick, stableTorque, stablePress);
    MovedCoils(s, tick, stableTorque, stablePress);
    ControlKeepsLamp(Moved(s, tick, stableTorque, stablePress), tick);
  }

  // The machine under the sequence.

  /** What the dock cylinder, the nutrunner and the heater do in a scan. */
  lemma MovedCockpit(s: Line, tick: nat, stableTorque: nat, stablePress: nat)
    ensures var t := Moved(s, tick, stableTorque, stablePress);
            && t.sim.dock == Clip(if s.qx.dock then s.sim.dock + 50 else s.sim.dock - 50, 1000)
            && t.sim.torque == (if !s.qx.bolt || t.sim.dock < 950 then 0
                                else if s.sim.torque + 45 > 904 then stableTorque else s.sim.torque + 45)
            && t.mw.torque == ToWord((t.sim.torque + 1) / 2)
            && t.sim.heat == (if s.sim.heat < 800 then s.sim.heat + 3 else s.sim.heat - 1)
            && t.mw.heat == ToWord((t.sim.heat + 10) / 20)
  {
    hide Clip, ToWord, Convey, Lamps, Tighten, Press;
    LampsAndConveyor(s, tick);
    var c := Convey(Lamps(s, tick));
    TightenMoves(c, stableTorque);
    PressSpares(Tighten(c, stableTorque), tick, stablePress);
  }

  lemma TightenMoves(s: Line, stable: nat)
    ensures var t := Tighten(s, stable);
            && t.sim.dock == Clip(if s.qx.dock then s.sim.dock + 50 else s.sim.dock - 50, 1000)
            && t.sim.torque == (if !s.qx.bolt || t.sim.dock < 950 then 0
                                else if s.sim.torque + 45 > 904 then stable else s.sim.torque + 45)
            && t.mw.torque == ToWord((t.sim.torque + 1) / 2)
            && t.sim.heat == (if s.sim.heat < 800 then s.sim.heat + 3 else s.sim.heat - 1)
            && t.mw.heat == ToWord((t.sim.heat + 10) / 20)
  {
    hide Clip, ToWord;
  }

  lemma PressSpares(s: Line, tick: nat, stable: nat)
    ensures var t := Press(s, tick, stable);
            && t.sim.dock == s.sim.dock && t.sim.torque == s.sim.torque && t.sim.heat == s.sim.heat
            && t.mw.torque == s.mw.torque && t.mw.heat == s.mw.heat && t.qx == s.qx
  {
    hide ToWord;
  }

  lemma LampsAndConveyor(s: Line, tick: nat)
    ensures var t := Convey(Lamps(s, tick));
            && t.sim == s.sim && t.qx.dock == s.qx.dock && t.qx.bolt == s.qx.bolt && t.qx.glue == s.qx.glue
            && t.qx.lifter == s.qx.lifter && t.ix.aligned == s.ix.aligned && t.ix.glueLow == s.ix.glueLow
            && t.ix.auto == s.ix.auto
  {
  }

  /** What the glass robot and the seat lifter do. */
  lemma MovedStations(s: Line, tick: nat, stableTorque: nat, stablePress: nat)
    ensures var t := Moved(s, tick, stableTorque, stablePress);
            && t.sim.press == (if !s.qx.glue then 0 else if s.sim.press + 10 > 152 then stablePress else s.sim.press + 10)
            && t.mw.press == ToWord(t.sim.press)
            && (t.ix.aligned <==> s.qx.glue && (s.ix.aligned || t.sim.press >= 145))
            && (t.ix.glueLow <==> if s.qx.glue && tick % 100 == 0 then tick % 1000 >= 800 else s.ix.glueLow)
            && t.sim.seat == Clip(if s.qx.lifter then s.sim.seat + 33 else s.sim.seat - 33, 1000)
  {
    hide Clip, ToWord, Convey, Lamps, Tighten, Press;
    LampsAndConveyor(s, tick);
    TightenSpares(Convey(Lamps(s, tick)), stableTorque);
    PressMoves(Tighten(Convey(Lamps(s, tick)), stableTorque), tick, stablePress);
  }

  lemma PressMoves(s: Line, tick: nat, stable: nat)
    ensures var t := Press(s, tick, stable);
            && t.sim.press == (if !s.qx.glue then 0 else if s.sim.press + 10 > 152 then stable else s.sim.press + 10)
            && t.mw.press == ToWord(t.sim.press)
            && (t.ix.aligned <==> s.qx.glue && (s.ix.aligned || t.sim.press >= 145))
            && (t.ix.glueLow <==> if s.qx.glue && tick % 100 == 0 then tick % 1000 >= 800 else s.ix.glueLow)
            && t.sim.seat == s.sim.seat && t.qx == s.qx
  {
    hide ToWord;
  }

  lemma TightenSpares(s: Line, stable: nat)
    ensures var t := Tighten(s, stable);
            && t.qx == s.qx && t.ix == s.ix && t.sim.press == s.sim.press && t.sim.seat == s.sim.seat
  {
  }

  /** Where the chassis goes and which station sees it: the conveyor takes it 3 mm
      a scan and round at 1000 mm; within 10 mm behind 200, 700, 900 and, unless
      bypassed, 450 mm it is put on that spot. The position is shown in mm. */
  lemma MovedChassis(s: Line, tick: nat, stableTorque: nat, stablePress: nat)
    requires s.pos < 1000
    ensures var t, p := Moved(s, tick, stableTorque, stablePress), if s.pos + 3 >= 1000 then 0 else s.pos + 3;
            && t.mw.iw0 == t.pos < 1000
            && (if !s.qx.conveyor then
                  t.pos == s.pos && t.ix.cockpit == s.ix.cockpit && t.ix.glass == s.ix.glass
                  && t.ix.seat == s.ix.seat && t.ix.inspection == s.ix.inspection
                else
                  && t.ix.cockpit == (200 <= p < 210)
                  && t.ix.glass == (450 <= p < 460 && s.mw.bypass != 1)
                  && t.ix.seat == (700 <= p < 710)
                  && t.ix.inspection == (900 <= p < 910)
                  && t.pos == if t.ix.cockpit then 200 else if t.ix.glass then 450 else if t.ix.seat then 700
                              else if t.ix.inspection then 900 else p)
  {
    var c := Convey(Lamps(s, tick));
    assert c.pos < 1000 && c.mw.iw0 == c.pos;
    TightenKeeps(c, stableTorque);
    PressKeeps(Tighten(c, stableTorque), tick, stablePress);
    CockpitKept(Tighten(c, stableTorque), tick, stablePress);
    hide Tighten, Press;
    TightenReading(c, stableTorque);
  }

  lemma CockpitKept(s: Line, tick: nat, stable: nat)
    ensures Press(s, tick, stable).ix.cockpit == s.ix.cockpit && Press(s, tick, stable).mw.iw0 == s.mw.iw0
  {
  }

  lemma TightenReading(s: Line, stable: nat)
    ensures Tighten(s, stable).mw.iw0 == s.mw.iw0
  {
  }

  /** The sequence itself moves nothing, but that state 8 ends with the chassis put
      to 925 mm. */
  lemma CockpitSpares(s: Line)
    ensures var t := Cockpit(s); t == s.(qx := t.qx, state := t.state)
  {
  }

  /** So all that the machine does shows after the scan: cylinders, torque, force,
      heat, sensors and the chassis. */
  lemma MachineShows(s: Line, tick: nat, stableTorque: nat, stablePress: nat)
    requires !s.ix.eStop
    ensures var t, u := Step(s, tick, stableTorque, stablePress), Moved(s, tick, stableTorque, stablePress);
            && t.sim == u.sim && t.flash == u.flash
            && t.mw == u.mw.(total := t.mw.total, ok := t.mw.ok, ng := t.mw.ng)
            && (s.state != 7 || !s.ix.auto ==> t.mw == u.mw)
            && (s.state != 8 || tick % 50 != 0 || !s.ix.auto ==> t.ix == u.ix && t.pos == u.pos)
            && t.ix == u.ix.(inspection := t.ix.inspection)
  {
    hide Moved, Cockpit, Finish;
    StepIsControl(s, tick, stableTorque, stablePress);
    MovedEffect(s, tick, stableTorque, stablePress);
    CockpitSpares(Moved(s, tick, stableTorque, stablePress));
    FinishSpares(Moved(s, tick, stableTorque, stablePress), tick);
  }

  lemma CockpitShows(s: Line, tick: nat, stableTorque: nat, stablePress: nat)
    requires !s.ix.eStop
    ensures var t := Step(s, tick, stableTorque, stablePress);
            && t.sim.dock == Clip(if s.qx.dock then s.sim.dock + 50 else s.sim.dock - 50, 1000)
            && t.sim.torque == (if !s.qx.bolt || t.sim.dock < 950 then 0
                                else if s.sim.torque + 45 > 904 then stableTorque else s.sim.torque + 45)
            && t.mw.torque == ToWord((t.sim.torque + 1) / 2)
            && t.sim.heat == (if s.sim.heat < 800 then s.sim.heat + 3 else s.sim.heat - 1)
            && t.mw.heat == ToWord((t.sim.heat + 10) / 20)
  {
    hide Moved, Step, Clip, ToWord;
    MovedCockpit(s, tick, stableTorque, stablePress);
    MachineShows(s, tick, stableTorque, stablePress);
  }

  // What the states wait for, from any state of the line.

  /** State 0 rolls the chassis until the cockpit station sees it. */
  lemma WaitsForCockpit(s: Line, tick: nat, stableTorque: nat, stablePress: nat)
    requires Active(s) && s.state == 0
    ensures var t := Step(s, tick, stableTorque, stablePress);
            && t.state == (if t.ix.cockpit then 1 else 0) && t.qx.conveyor == !t.ix.cockpit
            && !t.qx.dock && !t.qx.bolt && !t.qx.glue && !t.qx.lifter && !t.qx.pass && !t.qx.fail
  {
    hide Moved;
    StepIsControl(s, tick, stableTorque, stablePress);
    MovedEffect(s, tick, stableTorque, stablePress);
    MovedCoils(s, tick, stableTorque, stablePress);
  }

  /** State 1 docks the cockpit until the gantry is 95 per cent out. */
  lemma WaitsForDock(s: Line, tick: nat, stableTorque: nat, stablePress: nat)
    requires Active(s) && s.state == 1
    ensures var t := Step(s, tick, stableTorque, stablePress);
            && t.state == (if t.sim.dock >= 950 then 2 else 1)
            && t.qx == s.qx.(dock := true, fail := false, running := t.flash)
  {
    hide Moved;
    StepIsControl(s, tick, stableTorque, stablePress);
    MovedEffect(s, tick, stableTorque, stablePress);
    MovedCoils(s, tick, stableTorque, stablePress);
  }

  /** State 2 tightens until the torque reading of the scan is at its target, not
      sooner and not later; then the nutrunner stops and the gantry goes back. */
  lemma WaitsForTorque(s: Line, tick: nat, stableTorque: nat, stablePress: nat)
    requires Active(s) && s.state == 2
    ensures var t := Step(s, tick, stableTorque, stablePress);
            var tight := t.mw.torque >= s.mw.target;
            && t.state == (if tight then 3 else 2)
            && t.qx == s.qx.(bolt := !tight, dock := s.qx.dock && !tight, fail := false, running := t.flash)
  {
    hide Moved;
    StepIsControl(s, tick, stableTorque, stablePress);
    MovedEffect(s, tick, stableTorque, stablePress);
    MovedCoils(s, tick, stableTorque, stablePress);
  }

  /** State 3 rolls on to the glass station, or past it when it is bypassed. */
  lemma WaitsForGlass(s: Line, tick: nat, stableTorque: nat, stablePress: nat)
    requires Active(s) && s.state == 3
    ensures var t := Step(s, tick, stableTorque, stablePress);
            && t.state == (if t.ix.glass then 4 else if s.mw.bypass == 1 then 5 else 3)
            && t.qx == s.qx.(conveyor := !t.ix.glass, fail := false, running := t.flash)
  {
    hide Moved;
    StepIsControl(s, tick, stableTorque, stablePress);
    MovedEffect(s, tick, stableTorque, stablePress);
    MovedCoils(s, tick, stableTorque, stablePress);
  }

  /** State 4 presses the glass on until it is aligned and the force at 148. */
  lemma WaitsForPress(s: Line, tick: nat, stableTorque: nat, stablePress: nat)
    requires Active(s) && s.state == 4
    ensures var t := Step(s, tick, stableTorque, stablePress);
            var done := t.ix.aligned && t.mw.press >= 148;
            && t.state == (if done then 5 else 4)
            && t.qx == s.qx.(glue := !done, fail := false, running := t.flash)
  {
    hide Moved;
    StepIsControl(s, tick, stableTorque, stablePress);
    MovedEffect(s, tick, stableTorque, stablePress);
    MovedCoils(s, tick, stableTorque, stablePress);
  }

  /** State 5 rolls on to the seat station. */
  lemma WaitsForSeat(s: Line, tick: nat, stableTorque: nat, stablePress: nat)
    requires Active(s) && s.state == 5
    ensures var t := Step(s, tick, stableTorque, stablePress);
            && t.state == (if t.ix.seat then 6 else 5)
            && t.qx == s.qx.(conveyor := !t.ix.seat, fail := false, running := t.flash)
  {
    hide Moved;
    StepIsControl(s, tick, stableTorque, stablePress);
    MovedEffect(s, tick, stableTorque, stablePress);
    MovedCoils(s, tick, stableTorque, stablePress);
  }

  /** State 6 lowers the seat until the lifter is 95 per cent down. */
  lemma WaitsForLifter(s: Line, tick: nat, stableTorque: nat, stablePress: nat)
    requires Active(s) && s.state == 6
    ensures var t := Step(s, tick, stableTorque, stablePress);
            var down := t.sim.seat >= 950;
            && t.state == (if down then 7 else 6)
            && t.qx == s.qx.(lifter := !down, fail := false, running := t.flash)
  {
    hide Moved;
    StepIsControl(s, tick, stableTorque, stablePress);
    MovedEffect(s, tick, stableTorque, stablePress);
    MovedCoils(s, tick, stableTorque, stablePress);
  }

  lemma Inspects(s: Line, tick: nat)
    requires s.ix.auto && s.state == 7
    ensures var t, good := Control(s, tick), Passes(s);
            && t.ix == s.ix && t.sim == s.sim && t.flash == s.flash && t.mw.torque == s.mw.torque && t.mw.press == s.mw.press
            && (if s.ix.inspection then
                  && t.state == 8 && t.qx == s.qx.(conveyor := false, pass := good, fail := !good)
                  && t.mw.total == ToWord(s.mw.total + 1)
                  && t.mw.ok == (if good then ToWord(s.mw.ok + 1) else s.mw.ok)
                  && t.mw.ng == (if good then s.mw.ng else ToWord(s.mw.ng + 1))
                else t.state == 7 && t.qx == s.qx.(conveyor := true) && t.mw == s.mw)
  {
    hide ToWord;
  }

  /** State 7 rolls on to the inspection and judges there: good if the torque reads
      430 to 470 and, unless the glass is bypassed, the press force 145 to 155 with
      enough glue. One lamp is lit and one count goes up with the total. */
  lemma JudgesAtInspection(s: Line, tick: nat, stableTorque: nat, stablePress: nat)
    requires Active(s) && s.state == 7
    ensures var t := Step(s, tick, stableTorque, stablePress);
            var good := 430 <= t.mw.torque <= 470
                        && (s.mw.bypass == 1 || (145 <= t.mw.press <= 155 && !t.ix.glueLow));
            if t.ix.inspection then
              && t.state == 8 && !t.qx.conveyor && t.qx.pass == good && t.qx.fail == !good
              && t.mw.total == ToWord(s.mw.total + 1)
              && t.mw.ok == (if good then ToWord(s.mw.ok + 1) else s.mw.ok)
              && t.mw.ng == (if good then s.mw.ng else ToWord(s.mw.ng + 1))
            else
              && t.state == 7 && t.qx == s.qx.(conveyor := true, running := t.flash)
              && t.mw.total == s.mw.total && t.mw.ok == s.mw.ok && t.mw.ng == s.mw.ng
  {
    hide Moved, Control, ToWord;
    StepIsControl(s, tick, stableTorque, stablePress);
    MovedEffect(s, tick, stableTorque, stablePress);
    MovedCoils(s, tick, stableTorque, stablePress);
    Inspects(Moved(s, tick, stableTorque, stablePress), tick);
  }

  /** State 8 shows the result until the next tick that 50 divides; then the lamps
      go out, the chassis is put to 925 mm and the cycle starts over. */
  lemma ShowsResult(s: Line, tick: nat, stableTorque: nat, stablePress: nat)
    requires Active(s) && s.state == 8
    ensures var t := Step(s, tick, stableTorque, stablePress);
            if tick % 50 == 0 then t.state == 0 && t.pos == 925 && !t.ix.inspection && !t.qx.pass && !t.qx.fail
            else t.state == 8 && t.qx == s.qx.(fail := false, running := t.flash)
  {
    hide Moved;
    StepIsControl(s, tick, stableTorque, stablePress);
    MovedEffect(s, tick, stableTorque, stablePress);
    MovedCoils(s, tick, stableTorque, stablePress);
  }

  // The whole of an undisturbed run, for a torque target of up to 450.

  /** AUTO, no emergency stop, the torque target `target`. */
  predicate Undisturbed(x: Outside, target: Word) {
    x.auto && !x.eStop && x.target == target
  }

  /** How many scans the nutrunner needs: the reading after `j` of them is 22.5 j,
      rounded. */
  function Turns(target: Word): nat {
    (2 * target + 43) / 45
  }

  /** The scan in which the torque is reached. */
  function Tight(target: Word): nat {
    89 + Turns(target)
  }

  /** Somebody has bypassed the glass station since. */
  predicate Bypassed(xs: seq<Outside>, target: Word) {
    exists i :: Tight(target) <= i < |xs| && xs[i].bypass == 1
  }

  function StateAt(n: nat, target: Word, bypassed: bool): int {
    if n <= 67 then 0 else if n <= 87 then 1 else if n < Tight(target) then 2
    else if n > Tight(target) && bypassed then 5 else 3
  }

  function PositionAt(n: nat): nat {
    if n == 0 then 0 else if n <= 67 then 3 * (n - 1) else 200
  }

  function DockAt(n: nat, target: Word): int {
    if n <= 69 then 0
    else if n <= Tight(target) then Clip(50 * (n - 69), 1000)
    else Clip(1000 - 50 * (n - Tight(target)), 1000)
  }

  /** The torque in half units of the reading. */
  function TorqueAt(n: nat, target: Word): nat {
    if 90 <= n <= Tight(target) then 45 * (n - 89) else 0
  }

  /** The line after `n` scans. */
  ghost predicate OnCourse(s: Line, n: nat, target: Word, bypassed: bool) {
    && s.state == StateAt(n, target, bypassed) && s.pos == PositionAt(n) && s.mw.iw0 == PositionAt(n)
    && s.qx.conveyor == (1 <= n <= 67 || Tight(target) < n)
    && s.qx.dock == (69 <= n < Tight(target)) && s.qx.bolt == (89 <= n < Tight(target))
    && !s.qx.glue && !s.qx.lifter && !s.qx.pass && !s.qx.fail
    && s.sim.dock == DockAt(n, target)
    && s.sim.torque == TorqueAt(n, target) && s.mw.torque == (TorqueAt(n, target) + 1) / 2
    && s.ix.cockpit == (68 <= n) && !s.ix.glass && !s.ix.seat && !s.ix.inspection
  }

  /** The torque is reached in the scan in which it reads its target, and in none
      before. */
  lemma TurnsAreEnough(target: Word, j: nat)
    requires target <= 450
    ensures (45 * j + 1) / 2 >= target <==> Turns(target) <= j
    ensures Turns(target) <= 20
  {
  }

  /** The chassis in a scan of the run, ... */
  lemma CourseRolls(s: Line, n: nat, target: Word, bypassed: bool, x: Outside)
    requires target <= 450 && OnCourse(s, n, target, bypassed) && Undisturbed(x, target)
    ensures var t := Step(Enter(s, x), n + 1, x.stableTorque, x.stablePress);
            && t.pos == PositionAt(n + 1) && t.mw.iw0 == PositionAt(n + 1)
            && t.ix.cockpit == (68 <= n + 1) && !t.ix.glass && !t.ix.seat && !t.ix.inspection
  {
    hide Moved, Step, Clip, Turns, DockAt, TorqueAt;
    var e := Enter(s, x);
    MovedChassis(e, n + 1, x.stableTorque, x.stablePress);
    MachineShows(e, n + 1, x.stableTorque, x.stablePress);
  }

  lemma TorqueMoves(n: nat, target: Word)
    requires Turns(target) <= 20
    ensures TorqueAt(n + 1, target) == if 89 <= n < Tight(target) then TorqueAt(n, target) + 45 else 0
    ensures TorqueAt(n + 1, target) <= 900
    ensures ToWord((TorqueAt(n + 1, target) + 1) / 2) == (TorqueAt(n + 1, target) + 1) / 2
  {
  }

  /** ... and the gantry with the nutrunner. */
  lemma CourseMoves(s: Line, n: nat, target: Word, bypassed: bool, x: Outside)
    requires target <= 450 && OnCourse(s, n, target, bypassed) && Undisturbed(x, target)
    ensures var t := Step(Enter(s, x), n + 1, x.stableTorque, x.stablePress);
            && t.sim.dock == DockAt(n + 1, target)
            && t.sim.torque == TorqueAt(n + 1, target) && t.mw.torque == (TorqueAt(n + 1, target) + 1) / 2
  {
    TurnsAreEnough(target, 0);
    DockMoves(n, target);
    TorqueMoves(n, target);
    hide Moved, Step, Clip, PositionAt, StateAt, Turns, DockAt, TorqueAt, ToWord;
    CockpitShows(Enter(s, x), n + 1, x.stableTorque, x.stablePress);
  }

  lemma DockMoves(n: nat, target: Word)
    requires Turns(target) <= 20
    ensures DockAt(n + 1, target) ==
            Clip(if 69 <= n < Tight(target) then DockAt(n, target) + 50 else DockAt(n, target) - 50, 1000)
    ensures 90 <= n + 1 <= Tight(target) ==> DockAt(n + 1, target) == 1000
    ensures DockAt(n + 1, target) >= 950 && n + 1 <= Tight(target) <==> 88 <= n + 1 <= Tight(target)
  {
  }

  lemma CourseSteps(s: Line, n: nat, target: Word, bypassed: bool, x: Outside)
    requires target <= 450 && OnCourse(s, n, target, bypassed) && Undisturbed(x, target)
    requires bypassed ==> Tight(target) < n
    ensures var b := bypassed || (Tight(target) <= n && x.bypass == 1);
            OnCourse(Step(Enter(s, x), n + 1, x.stableTorque, x.stablePress), n + 1, target, b)
  {
    var e, t1, t2 := Enter(s, x), x.stableTorque, x.stablePress;
    CourseRolls(s, n, target, bypassed, x);
    CourseMoves(s, n, target, bypassed, x);
    hide Step, PositionAt, DockAt, Clip;
    TurnsAreEnough(target, if n < 88 then 0 else n - 88);
    if n <= 67 {
      WaitsForCockpit(e, n + 1, t1, t2);
    } else if n <= 87 {
      DockMoves(n, target);
      WaitsForDock(e, n + 1, t1, t2);
    } else if n < Tight(target) {
      WaitsForTorque(e, n + 1, t1, t2);
    } else if s.state == 3 {
      WaitsForGlass(e, n + 1, t1, t2);
    } else {
      WaitsForSeat(e, n + 1, t1, t2);
    }
  }

  /** Every scan of every undisturbed run from initialisation, for all targets up to
      450: the chassis rolls 3 mm a scan and is stopped at 200 mm in scan 68; the
      gantry is out in scan 88; the torque rises by 22.5 a scan from scan 90 and
      reaches its target in scan `Tight`, which is 109 for a target of 450; then the
      gantry goes back and the conveyor runs for ever under a chassis that stays
      at 200 mm, in state 3, or in 5 once the glass station is bypassed. */
  lemma {:induction false} CourseIsExact(xs: seq<Outside>, target: Word)
    requires target <= 450 && forall i | 0 <= i < |xs| :: Undisturbed(xs[i], target)
    ensures OnCourse(Run(xs), |xs|, target, Bypassed(xs, target))
    ensures Tight(450) == 109
  {
    hide OnCourse, Step;
    if xs == [] {
      AtStart(target);
    } else {
      var n := |xs| - 1;
      CourseIsExact(xs[..n], target);
      BypassedStep(xs, target);
      CourseSteps(Run(xs[..n]), n, target, Bypassed(xs[..n], target), xs[n]);
    }
  }

  lemma AtStart(target: Word)
    ensures OnCourse(INITIAL, 0, target, false)
  {
  }

  lemma BypassedStep(xs: seq<Outside>, target: Word)
    requires xs != []
    ensures var n := |xs| - 1;
            Bypassed(xs, target) == (Bypassed(xs[..n], target) || (Tight(target) <= n && xs[n].bypass == 1))
    ensures Bypassed(xs[..|xs| - 1], target) ==> Tight(target) < |xs| - 1
  {
    hide Turns;
    var n := |xs| - 1;
    if Bypassed(xs[..n], target) {
      var i :| Tight(target) <= i < n && xs[..n][i].bypass == 1;
      assert xs[i].bypass == 1;
    }
    if Bypassed(xs, target) && !(Tight(target) <= n && xs[n].bypass == 1) {
      var i :| Tight(target) <= i < |xs| && xs[i].bypass == 1;
      assert xs[..n][i].bypass == 1;
    }
  }

  // The heater, which runs by itself.

  ghost predicate Warm(s: Line) {
    400 <= s.sim.heat <= 802
  }

  /** In every run the temperature stays between 20 and 40 degrees, and so does the
      reading, from the first scan that is not an emergency stop on. */
  lemma {:induction false} HeaterHolds(xs: seq<Outside>)
    ensures Warm(Run(xs)) && 20 <= Run(xs).mw.heat <= 40
  {
    hide Step;
    if xs != [] {
      var n, x := |xs| - 1, xs[|xs| - 1];
      HeaterHolds(xs[..n]);
      var e := Enter(Run(xs[..n]), x);
      if x.eStop {
        StopCutsOutputs(e, n + 1, x.stableTorque, x.stablePress);
      } else {
        CockpitShows(e, n + 1, x.stableTorque, x.stablePress);
      }
    }
  }
}
