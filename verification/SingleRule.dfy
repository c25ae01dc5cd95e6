/** One rule by itself, with no assumption about its ends: when does a value
    that it has just copied survive the next pass? */
module SingleRule {
  import opened Words
  import opened Cells
  import opened Mapping

  /** What can be read back after `v` has been written to `c`. */
  predicate ReadsBack(m: Store, c: Cell, v: Word) {
    if c in m then IsBit(c.area) ==> v <= 1 else v == 0
  }

  function After(m: Store, r: MappingRule, n: nat): Store {
    Passes(Engine(m, [r]), n).mem
  }

  lemma TwoPasses(m: Store, r: MappingRule)
    ensures After(m, r, 1) == StepStore(m, r)
    ensures After(m, r, 2) == StepStore(StepStore(m, r), StepRule(m, r))
  {
    var e := Engine(m, [r]);
    var p := Passes(e, 1);
    assert p == Pass(Passes(e, 0)) == Step(Prefix(e, 0), 0);
    assert Passes(e, 2) == Pass(p) == Step(Prefix(p, 0), 0);
  }

  /** A rule at work, in full. What its source shows goes to the destination when
      the rule sees its first pass, when the source has changed, and when neither
      end has changed but they differ; what the destination shows goes to the
      source when the destination alone has changed. A bit takes 0 for 0 and 1 for
      anything else, a word takes all. The rule then remembers what it copied. */
  lemma FiringExactly(m: Store, r: MappingRule)
    requires WellFormed(m) && r.src in m && r.dst in m && r.src != r.dst
    ensures var s, d := m[r.src], m[r.dst];
            var t := Passes(Engine(m, [r]), 1);
            var back := r.initialized && s == r.lastSrc && d != r.lastDst;
            var (c, v) := if back then (r.src, d) else (r.dst, s);
            && t.mem == m[c := if IsBit(c.area) then (if v == 0 then 0 else 1) else v]
            && t.rules == [MappingRule(r.src, r.dst, v, v, true)]
  {
    var e := Engine(m, [r]);
    assert Passes(e, 1) == Pass(Passes(e, 0)) == Step(Prefix(e, 0), 0);
    assert m[r.src] == Kept(r.src.area, m[r.src]) && m[r.dst] == Kept(r.dst.area, m[r.dst]);
  }

  /** A word mapped to a bit, for every value: once the source newly shows `v`,
      the bit says after one pass whether `v` is 0 or not, and after two passes the
      word says no more than that either. */
  lemma WordToBitExactly(m: Store, r: MappingRule, v: Word)
    requires WellFormed(m) && r.src in m && r.dst in m && !IsBit(r.src.area) && IsBit(r.dst.area)
    requires m[r.src] == v && (r.initialized ==> v != r.lastSrc)
    ensures var bit: Word := if v == 0 then 0 else 1;
            && After(m, r, 1) == m[r.dst := bit]
            && After(m, r, 2) == m[r.dst := bit][r.src := bit]
  {
    TwoPasses(m, r);
    FiringExactly(m, r);
    var t := After(m, r, 1);
    assert t == m[r.dst := if v == 0 then 0 else 1];
    var q := MappingRule(r.src, r.dst, v, v, true);
    FiringExactly(t, q);
    TwoPasses(t, q);
    assert StepRule(m, r) == q;
    assert After(m, r, 2) == After(t, q, 1);
  }

  /** A changed source wins the first pass. It still holds its value after the
      second exactly when the destination can give that value back: a word copied
      to a bit, or anything but 0 copied to a missing cell, comes back altered
      and overwrites the source. */
  lemma SourceSurvivesExactly(m: Store, r: MappingRule)
    requires WellFormed(m) && r.src in m && r.src != r.dst
    requires r.initialized ==> Read(m, r.src) != r.lastSrc
    ensures Read(After(m, r, 1), r.src) == Read(m, r.src)
    ensures Read(After(m, r, 2), r.src) == Read(m, r.src) <==> ReadsBack(m, r.dst, Read(m, r.src))
  {
    TwoPasses(m, r);
    assert m[r.src] == Kept(r.src.area, m[r.src]);
  }

  /** The same for a changed destination. */
  lemma DestinationSurvivesExactly(m: Store, r: MappingRule)
    requires WellFormed(m) && r.dst in m && r.src != r.dst
    requires r.initialized && Read(m, r.src) == r.lastSrc && Read(m, r.dst) != r.lastDst
    ensures Read(After(m, r, 1), r.dst) == Read(m, r.dst)
    ensures Read(After(m, r, 2), r.dst) == Read(m, r.dst) <==> ReadsBack(m, r.src, Read(m, r.dst))
  {
    TwoPasses(m, r);
    assert m[r.dst] == Kept(r.dst.area, m[r.dst]);
  }

  /** Holding register 0 mapped to coil 0: a client that writes 7 finds 1 two
      passes later. */
  lemma WordToBitLosesTheWord()
    ensures var hr, coil := Cell(HoldingRegister, 0), Cell(Coil, 0);
            var m: Store := map[hr := 7, coil := 0];
            Read(After(m, MappingRule(hr, coil, 0, 0, true), 2), hr) == 1
  {
    var hr, coil := Cell(HoldingRegister, 0), Cell(Coil, 0);
    TwoPasses(map[hr := 7, coil := 0], MappingRule(hr, coil, 0, 0, true));
  }
}
