/** Where runs of the trim line can get to. */
module TrimRuns {
  import opened Words
  import opened Trim

  /** The produced-vehicle count is always the sum of good and bad ones, from
      whatever state and in whatever mode the scan runs. */
  ghost predicate Balanced(s: Line) {
    s.mw.total == ToWord(s.mw.ok + s.mw.ng)
  }

  lemma ControlCounts(s: Line, tick: nat)
    ensures var t := Control(s, tick);
            || t.mw == s.mw
            || (s.state == 7 && s.ix.inspection && t.mw.total == ToWord(s.mw.total + 1)
                && ((t.mw.ok == ToWord(s.mw.ok + 1) && t.mw.ng == s.mw.ng)
                    || (t.mw.ok == s.mw.ok && t.mw.ng == ToWord(s.mw.ng + 1))))
  {
  }

  /** The machine between the start of the scan and its sequence. */
  function Moved(s: Line, tick: nat, stableTorque: nat, stablePress: nat): Line {
    MoveSeat(Press(Tighten(Convey(Lamps(s, tick)), stableTorque), tick, stablePress))
  }

  lemma MovedEffect(s: Line, tick: nat, stableTorque: nat, stablePress: nat)
    ensures var t := Moved(s, tick, stableTorque, stablePress);
            && t.state == s.state && t.ix.auto == s.ix.auto
            && t.mw.total == s.mw.total && t.mw.ok == s.mw.ok && t.mw.ng == s.mw.ng
            && t.qx.conveyor == s.qx.conveyor
  {
  }

  lemma MovedConveyor(s: Line, tick: nat, stableTorque: nat, stablePress: nat)
    requires s.pos <= 200 && !s.ix.glass && !s.ix.seat && !s.ix.inspection
    ensures var t := Moved(s, tick, stableTorque, stablePress);
            && t.pos <= 200 && !t.ix.glass && !t.ix.seat && !t.ix.inspection
            && t.pos == (if s.qx.conveyor then Snap(s.pos + 3, 200) else s.pos)
  {
    hide Tighten, Press;
    if 197 <= s.pos {
      StationHoldsExactly(200, s.pos + 3 - 200);
    }
    var c := Convey(Lamps(s, tick));
    TightenKeeps(c, stableTorque);
    PressKeeps(Tighten(c, stableTorque), tick, stablePress);
  }

  lemma TightenKeeps(s: Line, stable: nat)
    ensures Tighten(s, stable).pos == s.pos && Tighten(s, stable).ix == s.ix
  {
  }

  lemma PressKeeps(s: Line, tick: nat, stable: nat)
    ensures var t := Press(s, tick, stable);
            t.pos == s.pos && t.ix.glass == s.ix.glass && t.ix.seat == s.ix.seat && t.ix.inspection == s.ix.inspection
  {
  }

  /** Adding one modulo 2^16 on both sides. */
  lemma WrapAdd(a: Word, b: Word, total: Word)
    requires total == ToWord(a + b)
    ensures ToWord(total + 1) == ToWord(ToWord(a + 1) + b) == ToWord(a + ToWord(b + 1))
  {
  }

  lemma StepKeepsBalance(s: Line, tick: nat, stableTorque: nat, stablePress: nat)
    requires Balanced(s)
    ensures Balanced(Step(s, tick, stableTorque, stablePress))
  {
    hide Control, Moved, Tighten, Press, Convey, Lamps, MoveSeat;
    if !s.ix.eStop {
      var t := Moved(s, tick, stableTorque, stablePress);
      MovedEffect(s, tick, stableTorque, stablePress);
      ControlCounts(t, tick);
      WrapAdd(t.mw.ok, t.mw.ng, t.mw.total);
      StepIsControl(s, tick, stableTorque, stablePress);
    }
  }

  lemma StepIsControl(s: Line, tick: nat, stableTorque: nat, stablePress: nat)
    requires !s.ix.eStop
    ensures Step(s, tick, stableTorque, stablePress) == Control(Moved(s, tick, stableTorque, stablePress), tick)
  {
    hide Control, Tighten, Press, Convey, Lamps, MoveSeat;
  }

  // Runs from initialisation.

  /** What may change between scans: mode, emergency stop, glue level, torque
      target and bypass, in MANUAL the coils; and the readings of the saturated
      sensors. */
  datatype Outside = Outside(auto: bool, eStop: bool, glueLow: bool, target: Word, bypass: Word, coils: Coils,
                             stableTorque: nat, stablePress: nat)

  function Enter(s: Line, x: Outside): Line {
    s.(ix := s.ix.(auto := x.auto, eStop := x.eStop, glueLow := x.glueLow),
       mw := s.mw.(target := x.target, bypass := x.bypass),
       qx := if x.auto then s.qx else x.coils)
  }

  function Run(xs: seq<Outside>): Line {
    if xs == [] then INITIAL
    else
      var n := |xs| - 1;
      Step(Enter(Run(xs[..n]), xs[n]), n + 1, xs[n].stableTorque, xs[n].stablePress)
  }

  ghost predicate Stuck(s: Line) {
    && s.pos <= 200 && s.state in {0, 1, 2, 3, 5}
    && !s.ix.glass && !s.ix.seat && !s.ix.inspection
    && s.mw.total == s.mw.ok == s.mw.ng == 0
  }

  lemma ControlKeepsStuck(s: Line, tick: nat)
    requires Stuck(s)
    ensures Stuck(Control(s, tick))
  {
  }

  lemma StepKeepsStuck(s: Line, tick: nat, stableTorque: nat, stablePress: nat)
    requires Stuck(s)
    ensures Stuck(Step(s, tick, stableTorque, stablePress))
  {
    hide Control, Moved, Tighten, Press, Convey, Lamps, MoveSeat;
    if !s.ix.eStop {
      MovedEffect(s, tick, stableTorque, stablePress);
      MovedConveyor(s, tick, stableTorque, stablePress);
      ControlKeepsStuck(Moved(s, tick, stableTorque, stablePress), tick);
      StepIsControl(s, tick, stableTorque, stablePress);
    }
  }

  /** From initialisation, whatever happens between scans, no vehicle gets past
      the cockpit station: 3 mm per scan never leave its 10 mm window. So the
      glass, seat and inspection states are never entered and no vehicle is ever
      counted. */
  lemma {:induction false} LineNeverProduces(xs: seq<Outside>)
    ensures Stuck(Run(xs))
  {
    hide Step;
    if xs != [] {
      var n := |xs| - 1;
      LineNeverProduces(xs[..n]);
      StepKeepsStuck(Enter(Run(xs[..n]), xs[n]), n + 1, xs[n].stableTorque, xs[n].stablePress);
    }
  }

  /** The exact reason: a vehicle standing at a station leaves it when the
      conveyor starts if and only if one scan carries it 10 mm or more. */
  lemma StationHoldsExactly(station: nat, travel: nat)
    ensures Snap(station + travel, station) == station <==> travel < 10
  {
  }
}
