/** The water tank logic. Levels count 0.02 mm: one scan drains 1, the inlet adds
    20, the outlet takes 15. */
module Tank {
  import opened Words
  import opened Motion

  const LOW := 7500
  const HIGH := 42500
  const FULL := 50000

  datatype Tank = Tank(auto: bool, low: bool, high: bool, inlet: bool, outlet: bool, lamp: bool,
                       iw0: Word, count: Word, target: Word,
                       level: int, prevInlet: bool, filling: bool)

  const INITIAL := Tank(false, false, false, false, false, false, 500, 0, 500, 25000, false, false)

  function Flow(s: Tank): Tank {
    var level := Clip(s.level - 1 + (if s.inlet then 20 else 0) - (if s.outlet then 15 else 0), FULL);
    s.(level := level, iw0 := ToWord((level + 25) / 50), low := level <= LOW, high := level >= HIGH)
  }

  /** Hysteresis: fill from the low sensor to the high one, then drain. */
  function Valves(s: Tank): Tank {
    if s.auto then
      var filling := if s.low then true else if s.high then false else s.filling;
      s.(filling := filling, inlet := filling, outlet := !filling)
    else s.(filling := s.inlet)
  }

  /** The inlet was opened in this scan. */
  predicate Edge(s: Tank) {
    s.inlet && !s.prevInlet
  }

  function Count(s: Tank): Tank {
    s.(count := if Edge(s) then ToWord(s.count + 1) else s.count, prevInlet := s.inlet, lamp := true)
  }

  /** One call of the logic. */
  function Step(s: Tank): Tank {
    Count(Valves(Flow(s)))
  }

  class MockTank {
    var auto: bool
    var low: bool
    var high: bool
    var inlet: bool
    var outlet: bool
    var lamp: bool
    var iw0: Word
    var count: Word
    var target: Word
    var level: int
    var prevInlet: bool
    var filling: bool

    ghost function State(): Tank
      reads this
    {
      Tank(auto, low, high, inlet, outlet, lamp, iw0, count, target, level, prevInlet, filling)
    }

    method ConfigInit()
      modifies this
      ensures State() == INITIAL
    {
      auto, low, high, inlet, outlet, lamp := false, false, false, false, false, false;
      iw0, count, target := 500, 0, 500;
      level, prevInlet, filling := 25000, false, false;
    }

    method Simulate()
      modifies this`level, this`iw0, this`low, this`high
      ensures State() == Flow(old(State()))
    {
      var change := -1;
      if inlet {
        change := change + 20;
      }
      if outlet {
        change := change - 15;
      }
      level := level + change;
      if level < 0 { level := 0; }
      if level > FULL { level := FULL; }
      iw0 := ToWord((level + 25) / 50);
      low := level <= LOW;
      high := level >= HIGH;
    }

    method Regulate()
      modifies this`filling, this`inlet, this`outlet
      ensures State() == Valves(old(State()))
    {
      if auto {
        if low {
          filling := true;
        } else if high {
          filling := false;
        }
        if filling {
          inlet, outlet := true, false;
        } else {
          inlet, outlet := false, true;
        }
      } else {
        filling := inlet;
      }
    }

    method ConfigRun(tick: nat)
      modifies this
      ensures State() == Step(old(State()))
    {
      hide Flow, Valves;
      Simulate();
      Regulate();
      if inlet && !prevInlet {
        count := ToWord(count + 1);
      }
      prevInlet := inlet;
      lamp := true;
    }
  }

  // Runs in AUTO mode, the registers written from outside at will.

  datatype Outside = Outside(count: Word, target: Word)

  function Enter(s: Tank, x: Outside): Tank {
    s.(auto := true, count := x.count, target := x.target)
  }

  function Run(xs: seq<Outside>): Tank {
    if xs == [] then INITIAL else Step(Enter(Run(xs[..|xs| - 1]), xs[|xs| - 1]))
  }

  /** Scan number `n` of the run opens the inlet: the count goes up. */
  predicate Opens(xs: seq<Outside>, n: nat)
    requires 0 < n <= |xs|
  {
    Edge(Valves(Flow(Enter(Run(xs[..n - 1]), xs[n - 1]))))
  }

  ghost predicate Regulated(s: Tank) {
    && LOW - 15 <= s.level <= HIGH + 18
    && !(s.inlet && s.outlet) && s.prevInlet == s.inlet
    && (s.inlet ==> s.filling && s.level < HIGH)
    && (s.outlet ==> !s.filling && LOW < s.level)
    && (!s.inlet && !s.outlet ==> !s.filling && s.level == 25000)
  }

  lemma StepRegulates(s: Tank, x: Outside)
    requires Regulated(s)
    ensures var t := Step(Enter(s, x));
            && Regulated(t)
            && (t.inlet || t.outlet)
            && t.count == ToWord(x.count + if Edge(Valves(Flow(Enter(s, x)))) then 1 else 0)
            && (Edge(Valves(Flow(Enter(s, x)))) <==> t.inlet && !s.inlet)
            && (s.inlet ==> t.level == s.level + 19) && (s.outlet ==> t.level == s.level - 16)
            && (t.inlet && !s.inlet ==> t.level <= LOW) && (!t.inlet && s.inlet ==> HIGH <= t.level)
  {
  }

  /** Always: the level stays within one scan's travel of the band from 150 mm to
      850 mm, and the valves are never open together. */
  lemma {:induction false} AlwaysRegulated(xs: seq<Outside>)
    ensures Regulated(Run(xs))
  {
    hide Step;
    if xs != [] {
      AlwaysRegulated(xs[..|xs| - 1]);
      StepRegulates(Run(xs[..|xs| - 1]), xs[|xs| - 1]);
    }
  }

  /** `age` scans after an opening with no opening in between: how far the level
      must have come up, and then down again. */
  ghost predicate SinceOpening(s: Tank, age: nat) {
    if s.inlet then s.level <= LOW + 19 * age
    else 1843 <= age && HIGH - 16 * (age - 1843) <= s.level
  }

  lemma {:induction false} AgesSinceOpening(xs: seq<Outside>, m: nat, n: nat)
    requires 0 < m <= n <= |xs| && Opens(xs, m)
    requires forall k | m < k <= n :: !Opens(xs, k)
    ensures SinceOpening(Run(xs[..n]), n - m) && (Run(xs[..n]).inlet || Run(xs[..n]).outlet)
  {
    hide Step, Valves, Flow;
    assert xs[..n][..n - 1] == xs[..n - 1];
    AlwaysRegulated(xs[..n - 1]);
    StepRegulates(Run(xs[..n - 1]), xs[n - 1]);
    if m < n {
      AgesSinceOpening(xs, m, n - 1);
      assert !Opens(xs, n);
    }
  }

  /** Any two openings of the inlet, so any two increments of the activation
      counter, are at least 4031 scans apart. */
  lemma {:induction false} NoChatter(xs: seq<Outside>, m: nat, n: nat)
    requires 0 < m < n <= |xs| && Opens(xs, m) && Opens(xs, n)
    ensures 4031 <= n - m
    decreases n - m
  {
    hide Step, Valves, Flow;
    if k :| m < k < n && Opens(xs, k) {
      NoChatter(xs, k, n);
    } else {
      AgesSinceOpening(xs, m, n - 1);
      assert xs[..n][..n - 1] == xs[..n - 1];
      AlwaysRegulated(xs[..n - 1]);
      StepRegulates(Run(xs[..n - 1]), xs[n - 1]);
    }
  }

  /** MANUAL at 500 mm with everything off. */
  lemma StartsLikeThis()
    ensures var s := INITIAL;
            && !s.auto && !s.low && !s.high && !s.inlet && !s.outlet && !s.lamp && !s.prevInlet && !s.filling
            && s.iw0 == 500 && s.count == 0 && s.target == 500 && s.level == 25000
  {
  }

  // A scan in any mode.

  /** The level falls by 0.02 mm a scan and moves by 0.4 mm up and 0.3 mm down with
      the valves, between 0 and 1000 mm. It is shown in whole millimetres, rounded;
      the limit switches are made up to 150 mm and from 850 mm on. */
  lemma LevelIsShown(s: Tank)
    requires 0 <= s.level <= 50000
    ensures var t := Step(s);
            var moved := s.level - 1 + (if s.inlet then 20 else 0) - (if s.outlet then 15 else 0);
            && t.level == (if moved < 0 then 0 else if moved > 50000 then 50000 else moved)
            && 50 * t.iw0 <= t.level + 25 < 50 * t.iw0 + 50
            && (t.low <==> t.level <= 7500) && (t.high <==> t.level >= 42500)
  {
    hide Valves;
    ValvesSpare(Flow(s));
  }

  lemma ValvesSpare(s: Tank)
    ensures var t := Valves(s);
            && t.level == s.level && t.iw0 == s.iw0 && t.low == s.low && t.high == s.high
            && t.prevInlet == s.prevInlet && t.count == s.count && t.auto == s.auto
  {
  }

  /** In MANUAL the valves stay as the operator has put them, both open included,
      and AUTO would go on from there. */
  lemma ManualLeavesValves(s: Tank)
    requires !s.auto
    ensures var t := Step(s); t.inlet == s.inlet && t.outlet == s.outlet && t.filling == s.inlet
  {
    hide Clip, ToWord;
  }

  /** In AUTO exactly one valve is open: the inlet from the low switch on, the outlet
      from the high one on, and in between whichever it was. */
  lemma AutoFillsAndDrains(s: Tank)
    requires s.auto && 0 <= s.level <= 50000
    ensures var t := Step(s);
            && t.inlet == (t.low || (!t.high && s.filling)) && t.outlet == !t.inlet && t.filling == t.inlet
  {
    hide Clip, ToWord;
  }

  /** The lamp is on after every scan, and the count has gone up if the inlet is
      open that was not. */
  lemma OpeningsAreCounted(s: Tank)
    ensures var t := Step(s);
            && t.lamp && t.prevInlet == t.inlet
            && t.count == (if t.inlet && !s.prevInlet then ToWord(s.count + 1) else s.count)
            && t.target == s.target && t.auto == s.auto
  {
    hide Clip, ToWord;
  }
}
