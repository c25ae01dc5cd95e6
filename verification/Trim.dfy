/** The trim line logic. Positions count millimetres, cylinder travels 0.001 of
    their range, torque halves of the feedback unit, temperature 0.05 degrees. */
module Trim {
  import opened Words
  import opened Motion

  /** `__IX0_0` to `__IX0_7`. */
  datatype Inputs = Inputs(auto: bool, cockpit: bool, glass: bool, seat: bool, inspection: bool,
                           eStop: bool, aligned: bool, glueLow: bool)

  /** `__QX0_0` to `__QX0_7`. */
  datatype Coils = Coils(conveyor: bool, dock: bool, bolt: bool, glue: bool, lifter: bool,
                         pass: bool, fail: bool, running: bool)

  /** `__IW0` to `__IW3`, `__MW0` to `__MW4`. */
  datatype Registers = Registers(iw0: Word, torque: Word, press: Word, heat: Word,
                                 total: Word, ok: Word, ng: Word, target: Word, bypass: Word)

  datatype Sim = Sim(dock: int, torque: nat, press: nat, seat: int, heat: int)

  datatype Line = Line(ix: Inputs, qx: Coils, mw: Registers, pos: nat, sim: Sim, state: int, flash: bool)

  const INITIAL := Line(Inputs(true, false, false, false, false, false, false, false),
                        Coils(false, false, false, false, false, false, false, false),
                        Registers(0, 0, 0, 20, 0, 0, 0, 450, 0),
                        0, Sim(0, 0, 0, 0, 400), 0, false)

  predicate InWindow(pos: nat, station: nat) {
    station <= pos < station + 10
  }

  /** A chassis inside the window of a station is put exactly on the station. */
  function Snap(pos: nat, station: nat): nat {
    if InWindow(pos, station) then station else pos
  }

  /** Where the conveyor is before any station stops it. */
  function Roll(pos: nat): nat {
    if pos + 3 >= 1000 then 0 else pos + 3
  }

  /** A chassis rolled to `p0` is stopped at the stations, which show it. */
  function Arrive(s: Line, p0: nat): Line {
    var p1 := Snap(p0, 200);
    var p2 := if s.mw.bypass == 1 then p1 else Snap(p1, 450);
    var p3 := Snap(p2, 700);
    s.(pos := Snap(p3, 900),
       ix := s.ix.(cockpit := InWindow(p0, 200), glass := s.mw.bypass != 1 && InWindow(p1, 450),
                   seat := InWindow(p2, 700), inspection := InWindow(p3, 900)))
  }

  function Convey(s: Line): Line {
    var t := if s.qx.conveyor then Arrive(s, Roll(s.pos)) else s;
    t.(mw := t.mw.(iw0 := ToWord(t.pos)))
  }

  /** Docking, tightening and heating. `stable` is what the torque reads once it
      has passed its target: the target with a jitter. */
  function Tighten(s: Line, stable: nat): Line {
    var dock := Clip(if s.qx.dock then s.sim.dock + 50 else s.sim.dock - 50, 1000);
    var torque := if s.qx.bolt && dock >= 950 then
                    if s.sim.torque + 45 > 904 then stable else s.sim.torque + 45
                  else 0;
    var heat := if s.sim.heat < 800 then s.sim.heat + 3 else s.sim.heat - 1;
    s.(sim := s.sim.(dock := dock, torque := torque, heat := heat),
       mw := s.mw.(torque := ToWord((torque + 1) / 2), heat := ToWord((heat + 10) / 20)))
  }

  /** Glass pressing; `stable` as for the torque. */
  function PressOn(s: Line, stable: nat): Line {
    var press := if s.qx.glue then if s.sim.press + 10 > 152 then stable else s.sim.press + 10 else 0;
    s.(sim := s.sim.(press := press), mw := s.mw.(press := ToWord(press)))
  }

  /** The alignment and glue level sensors. */
  function Glass(s: Line, tick: nat): Line {
    s.(ix := if !s.qx.glue then s.ix.(aligned := false)
             else s.ix.(aligned := s.ix.aligned || s.sim.press >= 145,
                        glueLow := if tick % 100 == 0 then tick % 1000 >= 800 else s.ix.glueLow))
  }

  function Press(s: Line, tick: nat, stable: nat): Line {
    Glass(PressOn(s, stable), tick)
  }

  function MoveSeat(s: Line): Line {
    s.(sim := s.sim.(seat := Clip(if s.qx.lifter then s.sim.seat + 33 else s.sim.seat - 33, 1000)))
  }

  function Passes(s: Line): bool {
    && 430 <= s.mw.torque <= 470
    && (s.mw.bypass == 1 || (145 <= s.mw.press <= 155 && !s.ix.glueLow))
  }

  /** States 0 to 3: to the cockpit station, dock, tighten, on to the glass. */
  function Cockpit(s: Line): Line {
    match s.state
    case 0 => s.(qx := Coils(!s.ix.cockpit, false, false, false, false, false, s.qx.fail, s.qx.running),
                 state := if s.ix.cockpit then 1 else 0)
    case 1 => s.(qx := s.qx.(dock := true), state := if s.sim.dock >= 950 then 2 else 1)
    case 2 =>
      if s.mw.torque >= s.mw.target then s.(qx := s.qx.(bolt := false, dock := false), state := 3)
      else s.(qx := s.qx.(bolt := true))
    case 3 => s.(qx := s.qx.(conveyor := !s.ix.glass),
                 state := if s.ix.glass then 4 else if s.mw.bypass == 1 then 5 else 3)
    case _ => s
  }

  /** The quality decision at the last station. */
  function Judge(s: Line): Line {
    var ok := Passes(s);
    s.(qx := s.qx.(pass := ok, fail := !ok),
       mw := s.mw.(total := ToWord(s.mw.total + 1),
                   ok := if ok then ToWord(s.mw.ok + 1) else s.mw.ok,
                   ng := if ok then s.mw.ng else ToWord(s.mw.ng + 1)),
       state := 8)
  }

  /** States 4 to 8: glass, seat, inspection. */
  function Finish(s: Line, tick: nat): Line {
    match s.state
    case 4 =>
      var done := s.ix.aligned && s.mw.press >= 148;
      s.(qx := s.qx.(glue := !done), state := if done then 5 else 4)
    case 5 => s.(qx := s.qx.(conveyor := !s.ix.seat), state := if s.ix.seat then 6 else 5)
    case 6 =>
      var done := s.sim.seat >= 950;
      s.(qx := s.qx.(lifter := !done), state := if done then 7 else 6)
    case 7 =>
      if s.ix.inspection then Judge(s.(qx := s.qx.(conveyor := false)))
      else s.(qx := s.qx.(conveyor := true))
    case 8 =>
      if tick % 50 == 0 then
        s.(qx := s.qx.(pass := false, fail := false), pos := 925, ix := s.ix.(inspection := false), state := 0)
      else s
    case _ => s
  }

  function Lamps(s: Line, tick: nat): Line {
    var flash := if tick % 25 == 0 then !s.flash else s.flash;
    s.(flash := flash, qx := s.qx.(fail := s.qx.fail && s.state == 7, running := flash))
  }

  function Control(s: Line, tick: nat): Line {
    if !s.ix.auto then s.(state := 0)
    else if s.state <= 3 then Cockpit(s)
    else Finish(s, tick)
  }

  /** One call of the logic; during an emergency stop nothing but the lamps moves. */
  function Step(s: Line, tick: nat, stableTorque: nat, stablePress: nat): Line {
    if s.ix.eStop then
      s.(qx := Coils(false, false, false, false, false, false, tick % 10 < 5, false))
    else
      Control(MoveSeat(Press(Tighten(Convey(Lamps(s, tick)), stableTorque), tick, stablePress)), tick)
  }

  /** The exported symbols and the variables of the logic. */
  class TrimLine {
    var ix: Inputs
    var qx: Coils
    var mw: Registers
    var pos: nat
    var sim: Sim
    var state: int
    var flash: bool

    ghost function State(): Line
      reads this
    {
      Line(ix, qx, mw, pos, sim, state, flash)
    }

    method ConfigInit()
      modifies this
      ensures State() == INITIAL
    {
      ix := Inputs(true, false, false, false, false, false, false, false);
      qx := Coils(false, false, false, false, false, false, false, false);
      mw := Registers(0, 0, 0, 20, 0, 0, 0, 450, 0);
      pos, sim, state, flash := 0, Sim(0, 0, 0, 0, 400), 0, false;
    }

    method SimulateLamps(tick: nat)
      modifies this`qx, this`flash
      ensures State() == Lamps(old(State()), tick)
    {
      if state != 7 {
        qx := qx.(fail := false);
      }
      if tick % 25 == 0 {
        flash := !flash;
      }
      qx := qx.(running := flash);
    }

    method SimulateStations()
      modifies this`pos, this`ix
      ensures State() == Arrive(old(State()), old(pos))
    {
      var p, x := pos, ix;
      x := x.(cockpit := InWindow(p, 200));
      p := Snap(p, 200);
      if mw.bypass != 1 {
        x := x.(glass := InWindow(p, 450));
        p := Snap(p, 450);
      } else {
        x := x.(glass := false);
      }
      x := x.(seat := InWindow(p, 700));
      p := Snap(p, 700);
      x := x.(inspection := InWindow(p, 900));
      p := Snap(p, 900);
      pos, ix := p, x;
    }

    method SimulateConveyor()
      modifies this`pos, this`ix, this`mw
      ensures State() == Convey(old(State()))
    {
      if qx.conveyor {
        pos := pos + 3;
        if pos >= 1000 {
          pos := 0;
        }
        SimulateStations();
      }
      mw := mw.(iw0 := ToWord(pos));
    }

    method SimulateTightening(stable: nat)
      modifies this`sim, this`mw
      ensures State() == Tighten(old(State()), stable)
    {
      var dock := if qx.dock then sim.dock + 50 else sim.dock - 50;
      if dock < 0 { dock := 0; }
      if dock > 1000 { dock := 1000; }
      var torque: nat := 0;
      if qx.bolt && dock >= 950 {
        torque := sim.torque + 45;
        if torque > 904 {
          torque := stable;
        }
      }
      var heat := if sim.heat < 800 then sim.heat + 3 else sim.heat - 1;
      sim := sim.(dock := dock, torque := torque, heat := heat);
      mw := mw.(torque := ToWord((torque + 1) / 2), heat := ToWord((heat + 10) / 20));
    }

    method SimulatePress(stable: nat)
      modifies this`sim, this`mw
      ensures State() == PressOn(old(State()), stable)
    {
      var press: nat := 0;
      if qx.glue {
        press := sim.press + 10;
        if press > 152 {
          press := stable;
        }
      }
      sim := sim.(press := press);
      mw := mw.(press := ToWord(press));
    }

    method SimulateGlass(tick: nat)
      modifies this`ix
      ensures State() == Glass(old(State()), tick)
    {
      if qx.glue {
        if sim.press >= 145 {
          ix := ix.(aligned := true);
        }
        if tick % 100 == 0 {
          ix := ix.(glueLow := tick % 1000 >= 800);
        }
      } else {
        ix := ix.(aligned := false);
      }
    }

    method SimulateSeat()
      modifies this`sim
      ensures State() == MoveSeat(old(State()))
    {
      var seat := if qx.lifter then sim.seat + 33 else sim.seat - 33;
      if seat < 0 { seat := 0; }
      if seat > 1000 { seat := 1000; }
      sim := sim.(seat := seat);
    }

    /** Case 0 of the switch. */
    method RunTransport()
      requires state == 0
      modifies this`qx, this`state
      ensures State() == Cockpit(old(State()))
    {
      qx := qx.(conveyor := true, dock := false, bolt := false, glue := false, lifter := false, pass := false);
      if ix.cockpit {
        qx := qx.(conveyor := false);
        state := 1;
      }
    }

    /** Cases 0 to 3. */
    method RunCockpit()
      modifies this`qx, this`state
      ensures State() == Cockpit(old(State()))
    {
      match state
      case 0 =>
        RunTransport();
      case 1 =>
        qx := qx.(dock := true);
        if sim.dock >= 950 { state := 2; }
      case 2 =>
        qx := qx.(bolt := true);
        if mw.torque >= mw.target {
          qx := qx.(bolt := false, dock := false);
          state := 3;
        }
      case 3 =>
        qx := qx.(conveyor := true);
        if ix.glass {
          qx := qx.(conveyor := false);
          state := 4;
        } else if mw.bypass == 1 {
          state := 5;
        }
      case _ =>
    }

    method Decide()
      modifies this`qx, this`mw, this`state
      ensures State() == Judge(old(State()))
    {
      var torquePass := 430 <= mw.torque <= 470;
      var glassPass := mw.bypass == 1 || (145 <= mw.press <= 155 && !ix.glueLow);
      mw := mw.(total := ToWord(mw.total + 1));
      if torquePass && glassPass {
        qx := qx.(pass := true, fail := false);
        mw := mw.(ok := ToWord(mw.ok + 1));
      } else {
        qx := qx.(pass := false, fail := true);
        mw := mw.(ng := ToWord(mw.ng + 1));
      }
      state := 8;
    }

    method Inspect()
      requires state == 7
      modifies this`qx, this`mw, this`state
      ensures State() == Finish(old(State()), 0)
    {
      hide Judge;
      qx := qx.(conveyor := true);
      if ix.inspection {
        qx := qx.(conveyor := false);
        Decide();
      }
    }

    /** Cases 4 to 8 of the switch. */
    method RunFinish(tick: nat)
      modifies this`qx, this`mw, this`state, this`pos, this`ix
      ensures State() == Finish(old(State()), tick)
    {
      match state
      case 4 =>
        qx := qx.(glue := true);
        if ix.aligned && mw.press >= 148 {
          qx := qx.(glue := false);
          state := 5;
        }
      case 5 =>
        qx := qx.(conveyor := true);
        if ix.seat {
          qx := qx.(conveyor := false);
          state := 6;
        }
      case 6 =>
        qx := qx.(lifter := true);
        if sim.seat >= 950 {
          qx := qx.(lifter := false);
          state := 7;
        }
      case 7 =>
        Inspect();
      case 8 =>
        if tick % 50 == 0 {
          qx := qx.(pass := false, fail := false);
          pos := 925;
          ix := ix.(inspection := false);
          state := 0;
        }
      case _ =>
    }

    method RunSequence(tick: nat)
      modifies this`qx, this`mw, this`state, this`pos, this`ix
      ensures State() == Control(old(State()), tick)
    {
      if ix.auto {
        if state <= 3 {
          RunCockpit();
        } else {
          RunFinish(tick);
        }
      } else {
        state := 0;
      }
    }

    method ConfigRun(tick: nat, stableTorque: nat, stablePress: nat)
      modifies this
      ensures State() == Step(old(State()), tick, stableTorque, stablePress)
    {
      var eStop := ix.eStop;
      if eStop {
        qx := Coils(false, false, false, false, false, false, tick % 10 < 5, false);
        return;
      }
      SimulateLamps(tick);
      SimulateConveyor();
      SimulateTightening(stableTorque);
      SimulatePress(stablePress);
      SimulateGlass(tick);
      SimulateSeat();
      RunSequence(tick);
    }
  }
}
