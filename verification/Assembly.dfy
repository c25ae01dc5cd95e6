/** The assembly line logic: one scan of the simulated physics and of the
    sequence. Conveyor positions count 0.02 mm, lift and clamp 0.01 of their
    travel, rotation 0.001. */
module Assembly {
  import opened Words
  import opened Motion

  const STATION := 25000
  const WINDOW_END := 26000
  const PUSHED_PAST := 26250
  const EXIT := 50000

  /** `__IX0_0` to `__IX0_7`. */
  datatype Inputs = Inputs(auto: bool, chassis: bool, part: bool, home: bool,
                           clamped: bool, right: bool, down: bool, curtain: bool)

  /** `__QX0_0` to `__QX0_6`. */
  datatype Coils = Coils(conveyor: bool, liftDown: bool, clamp: bool, rotateRight: bool,
                         done: bool, runLamp: bool, alarm: bool)

  /** `__IW0` and `__MW0` to `__MW3`. */
  datatype Registers = Registers(iw0: Word, completed: Word, speed: Word, trigger: Word, forcePart: Word)

  datatype Line = Line(ix: Inputs, qx: Coils, mw: Registers,
                       pos: nat, lift: int, rotate: int, clampPos: int, state: int, flash: bool)

  const INITIAL := Line(Inputs(true, false, true, true, false, false, false, false),
                        Coils(false, false, false, false, false, false, false),
                        Registers(0, 0, 200, 0, 0), 0, 0, 0, 0, 0, false)

  /** The light curtain cuts every actuator but the clamp. */
  function Lamps(s: Line, tick: nat): Line {
    if s.ix.curtain then
      var flash := if tick % 10 == 0 then !s.flash else s.flash;
      s.(qx := Coils(false, false, s.qx.clamp, false, false, false, flash), flash := flash)
    else s.(qx := s.qx.(runLamp := true, alarm := false))
  }

  /** Where the conveyor is after one tick at speed `v`, and whether a chassis
      left at its end. */
  function Advance(pos: nat, v: Word): (nat, bool) {
    var p := pos + v;
    var q := if STATION <= p < WINDOW_END then STATION else p;
    if EXIT <= q then (0, true) else (q, false)
  }

  function Convey(s: Line): Line {
    var t := if s.qx.conveyor && !s.ix.curtain then
               var (p, left) := Advance(s.pos, s.mw.speed);
               s.(pos := p, ix := s.ix.(chassis := STATION <= s.pos + s.mw.speed < WINDOW_END),
                  mw := if left then s.mw.(completed := ToWord(s.mw.completed + 1)) else s.mw)
             else s;
    t.(mw := t.mw.(iw0 := ToWord((t.pos + 25) / 50)))
  }

  function MoveLift(s: Line): Line {
    var lift := Clip(if s.qx.liftDown && !s.ix.curtain then s.lift + 4 else s.lift - 4, 100);
    s.(lift := lift, ix := s.ix.(down := lift >= 95))
  }

  function MoveRotation(s: Line): Line {
    var rotate := Clip(if s.qx.rotateRight && !s.ix.curtain then s.rotate + 33 else s.rotate - 33, 1000);
    s.(rotate := rotate, ix := s.ix.(right := rotate >= 950))
  }

  /** The clamp moves as its solenoid says even while the curtain is broken. */
  function MoveClamp(s: Line): Line {
    var clampPos := Clip(if s.qx.clamp then s.clampPos + 10 else s.clampPos - 10, 100);
    s.(clampPos := clampPos, ix := s.ix.(clamped := clampPos >= 95))
  }

  /** A part is fed whenever the arm is home and open. */
  function FeedPart(s: Line): Line {
    var home := s.lift <= 5 && s.rotate <= 50;
    s.(ix := s.ix.(home := home, part := s.ix.part || (home && !s.qx.clamp) || s.mw.forcePart == 1))
  }

  function Physics(s: Line, tick: nat): Line {
    FeedPart(MoveClamp(MoveRotation(MoveLift(Convey(Lamps(s, tick))))))
  }

  /** States 0 and 8: waiting for a chassis, conveying it to the station. */
  function Transport(s: Line): Line {
    if s.state == 0 then
      var t := s.(qx := s.qx.(conveyor := false, liftDown := false, clamp := false, rotateRight := false, done := false),
                  ix := s.ix.(chassis := false));
      if s.mw.trigger == 1 then
        t.(mw := t.mw.(trigger := 0), pos := 0, qx := t.qx.(conveyor := true), state := 8)
      else t
    else if STATION <= s.pos then
      s.(pos := STATION, ix := s.ix.(chassis := true), qx := s.qx.(conveyor := false),
         state := if s.ix.part then 1 else 8)
    else s.(qx := s.qx.(conveyor := true))
  }

  /** States 1 to 7: the arm fetches a part, places it and returns. */
  function Assemble(s: Line): Line {
    match s.state
    case 1 => s.(qx := s.qx.(liftDown := true), state := if s.ix.down then 2 else 1)
    case 2 =>
      if s.ix.clamped then s.(qx := s.qx.(clamp := true), ix := s.ix.(part := false), state := 3)
      else s.(qx := s.qx.(clamp := true))
    case 3 => s.(qx := s.qx.(liftDown := false), state := if s.lift <= 5 then 4 else 3)
    case 4 => s.(qx := s.qx.(rotateRight := true), state := if s.ix.right then 5 else 4)
    case 5 => s.(qx := s.qx.(liftDown := true), state := if s.ix.down then 6 else 5)
    case 6 =>
      if s.clampPos <= 5 then s.(qx := s.qx.(clamp := false, done := true), state := 7)
      else s.(qx := s.qx.(clamp := false))
    case 7 =>
      var q := s.qx.(liftDown := false, rotateRight := false);
      if s.ix.home then
        s.(qx := q.(done := false), pos := PUSHED_PAST, ix := s.ix.(chassis := false), state := 0)
      else s.(qx := q)
    case _ => s
  }

  /** The sequence in AUTO mode. */
  function Sequence(s: Line): Line {
    if s.state == 0 || s.state == 8 then Transport(s) else Assemble(s)
  }

  /** The sequence runs in AUTO while the curtain is free; MANUAL resets it. */
  function Control(s: Line): Line {
    if s.ix.auto && !s.ix.curtain then Sequence(s)
    else if !s.ix.auto then s.(state := 0)
    else s
  }

  /** One call of the logic. */
  function Step(s: Line, tick: nat): Line {
    Control(Physics(s, tick))
  }

  /** The exported symbols and the variables of the logic. */
  class AssemblyLine {
    var ix: Inputs
    var qx: Coils
    var mw: Registers
    var pos: nat
    var lift: int
    var rotate: int
    var clampPos: int
    var state: int
    var flash: bool

    ghost function State(): Line
      reads this
    {
      Line(ix, qx, mw, pos, lift, rotate, clampPos, state, flash)
    }

    method ConfigInit()
      modifies this
      ensures State() == INITIAL
    {
      ix := Inputs(true, false, true, true, false, false, false, false);
      qx := Coils(false, false, false, false, false, false, false);
      mw := Registers(0, 0, 200, 0, 0);
      pos, lift, rotate, clampPos, state, flash := 0, 0, 0, 0, 0, false;
    }

    method SimulateLamps(tick: nat)
      modifies this`qx, this`flash
      ensures State() == Lamps(old(State()), tick)
    {
      if ix.curtain {
        qx := qx.(conveyor := false, liftDown := false, rotateRight := false, done := false, runLamp := false);
        if tick % 10 == 0 {
          flash := !flash;
        }
        qx := qx.(alarm := flash);
      } else {
        qx := qx.(runLamp := true, alarm := false);
      }
    }

    method SimulateConveyor()
      modifies this`pos, this`ix, this`mw
      ensures State() == Convey(old(State()))
    {
      if qx.conveyor && !ix.curtain {
        pos := pos + mw.speed;
        if STATION <= pos < WINDOW_END {
          pos := STATION;
          ix := ix.(chassis := true);
        } else {
          ix := ix.(chassis := false);
        }
        if EXIT <= pos {
          pos := 0;
          mw := mw.(completed := ToWord(mw.completed + 1));
        }
      }
      mw := mw.(iw0 := ToWord((pos + 25) / 50));
    }

    method SimulateLift()
      modifies this`lift, this`ix
      ensures State() == MoveLift(old(State()))
    {
      lift := if qx.liftDown && !ix.curtain then lift + 4 else lift - 4;
      if lift < 0 { lift := 0; }
      if lift > 100 { lift := 100; }
      ix := ix.(down := lift >= 95);
    }

    method SimulateRotation()
      modifies this`rotate, this`ix
      ensures State() == MoveRotation(old(State()))
    {
      rotate := if qx.rotateRight && !ix.curtain then rotate + 33 else rotate - 33;
      if rotate < 0 { rotate := 0; }
      if rotate > 1000 { rotate := 1000; }
      ix := ix.(right := rotate >= 950);
    }

    method SimulateClamp()
      modifies this`clampPos, this`ix
      ensures State() == MoveClamp(old(State()))
    {
      clampPos := if qx.clamp then clampPos + 10 else clampPos - 10;
      if clampPos < 0 { clampPos := 0; }
      if clampPos > 100 { clampPos := 100; }
      ix := ix.(clamped := clampPos >= 95);
    }

    method SimulateFeed()
      modifies this`ix
      ensures State() == FeedPart(old(State()))
    {
      ix := ix.(home := lift <= 5 && rotate <= 50);
      if (ix.home && !qx.clamp) || mw.forcePart == 1 {
        ix := ix.(part := true);
      }
    }

    /** Cases 0 and 8 of the switch. */
    method RunTransport()
      requires state == 0 || state == 8
      modifies this`qx, this`ix, this`mw, this`pos, this`state
      ensures State() == Transport(old(State()))
    {
      if state == 0 {
        qx := qx.(conveyor := false, liftDown := false, clamp := false, rotateRight := false, done := false);
        ix := ix.(chassis := false);
        if mw.trigger == 1 {
          mw := mw.(trigger := 0);
          pos := 0;
          qx := qx.(conveyor := true);
          state := 8;
        }
      } else {
        qx := qx.(conveyor := true);
        if STATION <= pos {
          pos := STATION;
          ix := ix.(chassis := true);
          qx := qx.(conveyor := false);
          if ix.part { state := 1; }
        }
      }
    }

    /** Cases 1 to 7 of the switch. */
    method RunAssembly()
      modifies this`qx, this`ix, this`pos, this`state
      ensures State() == Assemble(old(State()))
    {
      match state
      case 1 =>
        qx := qx.(liftDown := true);
        if ix.down { state := 2; }
      case 2 =>
        qx := qx.(clamp := true);
        if ix.clamped {
          ix := ix.(part := false);
          state := 3;
        }
      case 3 =>
        qx := qx.(liftDown := false);
        if lift <= 5 { state := 4; }
      case 4 =>
        qx := qx.(rotateRight := true);
        if ix.right { state := 5; }
      case 5 =>
        qx := qx.(liftDown := true);
        if ix.down { state := 6; }
      case 6 =>
        qx := qx.(clamp := false);
        if clampPos <= 5 {
          qx := qx.(done := true);
          state := 7;
        }
      case 7 =>
        qx := qx.(liftDown := false, rotateRight := false);
        if ix.home {
          qx := qx.(done := false);
          pos := PUSHED_PAST;
          ix := ix.(chassis := false);
          state := 0;
        }
      case _ =>
    }

    method ConfigRun(tick: nat)
      modifies this
      ensures State() == Step(old(State()), tick)
    {
      SimulateLamps(tick);
      SimulateConveyor();
      SimulateLift();
      SimulateRotation();
      SimulateClamp();
      SimulateFeed();
      if ix.auto && !ix.curtain {
        if state == 0 || state == 8 {
          RunTransport();
        } else {
          RunAssembly();
        }
      } else if !ix.auto {
        state := 0;
      }
    }
  }
}
