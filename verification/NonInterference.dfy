/** In AUTO mode nothing that clients do to the coils, directly or through
    another protocol, reaches the logic or survives a scan. */
module NonInterference {
  import opened Words
  import opened Cells
  import opened Mapping
  import opened Scan
  import opened ScanCoherence

  ghost predicate IsBoundCoil(bindings: seq<VarBinding>, c: Cell) {
    exists i :: 0 <= i < |bindings| && bindings[i].kind.COIL? && CellOf(bindings[i]) == c
  }

  /** A coil of the logic or a spoke of one. */
  ghost predicate CoilSide(edges: seq<Edge>, bindings: seq<VarBinding>, c: Cell) {
    IsBoundCoil(bindings, c)
    || exists i :: 0 <= i < |edges| && edges[i].dst == c && IsBoundCoil(bindings, edges[i].src)
  }

  /** The same cells, rules and values everywhere but on the coil side. */
  ghost predicate AlikeEngines(edges: seq<Edge>, bindings: seq<VarBinding>, e: Engine, f: Engine) {
    && Sound(edges, e) && Sound(edges, f) && f.mem.Keys == e.mem.Keys
    && (forall c | c in e.mem && !CoilSide(edges, bindings, c) :: f.mem[c] == e.mem[c])
    && (forall i | 0 <= i < |edges| && !IsBoundCoil(bindings, edges[i].src) :: f.rules[i] == e.rules[i])
  }

  /** A rule of another hub works alike on both; a coil's rule stays on the coil
      side. */
  lemma StepKeepsAlike(edges: seq<Edge>, bindings: seq<VarBinding>, e: Engine, f: Engine, k: nat)
    requires Star(edges) && AlikeEngines(edges, bindings, e, f) && k < |edges|
    ensures AlikeEngines(edges, bindings, Step(e, k), Step(f, k))
  {
    var x := edges[k];
    StepJoins(edges, e, k);
    StepJoins(edges, f, k);
    assert EdgeOf(e.rules[k]) == x && EdgeOf(f.rules[k]) == x;
    if IsBoundCoil(bindings, x.src) {
      assert CoilSide(edges, bindings, x.dst);
    } else {
      assert !CoilSide(edges, bindings, x.src) && !CoilSide(edges, bindings, x.dst);
    }
  }

  lemma {:induction false} PrefixKeepsAlike(edges: seq<Edge>, bindings: seq<VarBinding>, e: Engine, f: Engine, k: nat)
    requires Star(edges) && AlikeEngines(edges, bindings, e, f) && k <= |edges| == |e.rules| == |f.rules|
    ensures AlikeEngines(edges, bindings, Prefix(e, k), Prefix(f, k))
  {
    hide Step, AlikeEngines, SameShape, Star;
    if k > 0 {
      PrefixKeepsAlike(edges, bindings, e, f, k - 1);
      StepKeepsAlike(edges, bindings, Prefix(e, k - 1), Prefix(f, k - 1), k - 1);
    }
  }

  lemma PassKeepsAlike(edges: seq<Edge>, bindings: seq<VarBinding>, e: Engine, f: Engine)
    requires Star(edges) && AlikeEngines(edges, bindings, e, f)
    ensures AlikeEngines(edges, bindings, Pass(e), Pass(f))
  {
    hide Prefix;
    PrefixKeepsAlike(edges, bindings, e, f, |edges|);
  }

  /** In AUTO mode the input copy does not look at the coil side. */
  lemma AlikeInputs(edges: seq<Edge>, bindings: seq<VarBinding>, e: Engine, f: Engine, symbols: seq<Word>)
    requires Star(edges) && AlikeEngines(edges, bindings, e, f) && |symbols| == |bindings|
    requires AutoMode(e.mem)
    ensures CopyIn(e.mem, bindings, symbols) == CopyIn(f.mem, bindings, symbols)
  {
    assert !CoilSide(edges, bindings, AUTO_SWITCH);
    forall i | 0 <= i < |bindings|
      ensures CopiedIn(e.mem, bindings[i], symbols[i]) == CopiedIn(f.mem, bindings[i], symbols[i])
    {
      assert !bindings[i].kind.COIL? ==> !CoilSide(edges, bindings, CellOf(bindings[i]));
    }
  }

  /** The output copy overwrites every coil, so afterwards all hubs are equal. */
  lemma AlikeOutputs(edges: seq<Edge>, bindings: seq<VarBinding>, e: Engine, f: Engine, symbols: seq<Word>)
    requires Star(edges) && AlikeEngines(edges, bindings, e, f)
    requires |symbols| == |bindings| && DistinctBindings(bindings)
    ensures var m, n := CopyOut(e.mem, bindings, symbols, |bindings|), CopyOut(f.mem, bindings, symbols, |bindings|);
            forall c | c in m && (IsModbus(c) || !CoilSide(edges, bindings, c)) :: n[c] == m[c]
  {
    CopyOutWrites(e.mem, bindings, symbols, |bindings|);
    CopyOutWrites(f.mem, bindings, symbols, |bindings|);
    var m, n := CopyOut(e.mem, bindings, symbols, |bindings|), CopyOut(f.mem, bindings, symbols, |bindings|);
    forall c | c in m && (IsModbus(c) || !CoilSide(edges, bindings, c)) ensures n[c] == m[c] {
      if i :| 0 <= i < |bindings| && CellOf(bindings[i]) == c && !IsExternalControl(bindings[i]) {
        assert n[c] == m[c] == Kept(c.area, symbols[i]);
      } else {
        assert !IsBoundCoil(bindings, c);
      }
    }
  }

  /** Equal hubs settle to equal engines. */
  lemma EqualHubsSettleEqual(edges: seq<Edge>, bindings: seq<VarBinding>, e: Engine, f: Engine)
    requires Star(edges) && SpokesClean(edges, e) && SpokesClean(edges, f)
    requires e.mem.Keys == f.mem.Keys
    requires forall c | c in e.mem && (IsModbus(c) || !CoilSide(edges, bindings, c)) :: f.mem[c] == e.mem[c]
    ensures Pass(e) == Pass(f)
  {
    hide Pass, SpokesClean, Settled, WellFormed;
    CleanPassCopiesHubs(edges, e);
    CleanPassCopiesHubs(edges, f);
    var a, b := Pass(e), Pass(f);
    forall c | c in a.mem ensures a.mem[c] == b.mem[c] {
      if i :| 0 <= i < |edges| && edges[i].dst == c {
        SettledSpoke(edges, a, i);
        SettledSpoke(edges, b, i);
        HubsKept(edges, e, edges[i].src);
        HubsKept(edges, f, edges[i].src);
      }
    }
    forall i | 0 <= i < |edges| ensures a.rules[i] == b.rules[i] {
      SettledSpoke(edges, a, i);
      SettledSpoke(edges, b, i);
    }
    assert a.mem == b.mem && a.rules == b.rules;
  }

  lemma HubsKept(edges: seq<Edge>, e: Engine, c: Cell)
    requires Star(edges) && SpokesClean(edges, e) && c in e.mem && IsModbus(c)
    ensures Pass(e).mem[c] == e.mem[c]
  {
    hide Pass;
    CleanPassCopiesHubs(edges, e);
  }

  /** Two plants that differ on the coil side only, with the switch at AUTO when
      the scan reads it: after one scan they are the same plant. */
  lemma ScanErasesCoilWrites<S(!new)>(logic: Logic<S>, bindings: seq<VarBinding>, p: Plant<S>, q: Plant<S>,
                                      tick: nat, edges: seq<Edge>)
    requires |p.symbols| == |bindings| && KeepsSymbols(logic) && DistinctBindings(bindings)
    requires Star(edges) && AlikeEngines(edges, bindings, p.engine, q.engine)
    requires p.symbols == q.symbols && p.hidden == q.hidden
    requires AutoMode(Pass(p.engine).mem)
    ensures Scanned(logic, bindings, p, tick) == Scanned(logic, bindings, q, tick)
  {
    hide Pass, AlikeEngines, SpokesClean;
    var e, f := Pass(p.engine), Pass(q.engine);
    PassKeepsAlike(edges, bindings, p.engine, q.engine);
    AlikeInputs(edges, bindings, e, f, p.symbols);
    var c, d := Computed(logic, bindings, p, tick), Computed(logic, bindings, q, tick);
    AlikeOutputs(edges, bindings, e, f, c.symbols);
    AlikeAreSound(edges, bindings, p.engine, q.engine);
    ScanEndsSettled(logic, bindings, p, tick, edges);
    ScanEndsSettled(logic, bindings, q, tick, edges);
    EqualHubsSettleEqual(edges, bindings, Published(bindings, c), Published(bindings, d));
  }

  lemma AlikeAreSound(edges: seq<Edge>, bindings: seq<VarBinding>, e: Engine, f: Engine)
    requires AlikeEngines(edges, bindings, e, f)
    ensures Sound(edges, e) && Sound(edges, f) && e.mem.Keys == f.mem.Keys
  {
  }

  // Whole runs.

  /** The writes that do not go to the coil side, in their order. */
  ghost function OffCoils(edges: seq<Edge>, bindings: seq<VarBinding>, writes: seq<ClientWrite>): seq<ClientWrite> {
    if writes == [] then []
    else
      var k := |writes| - 1;
      OffCoils(edges, bindings, writes[..k]) + if CoilSide(edges, bindings, writes[k].cell) then [] else [writes[k]]
  }

  lemma {:induction false} CoilWritesStayOnCoils(edges: seq<Edge>, bindings: seq<VarBinding>, m: Store, writes: seq<ClientWrite>)
    ensures forall c | c in m && !CoilSide(edges, bindings, c) ::
              Written(m, writes)[c] == Written(m, OffCoils(edges, bindings, writes))[c]
  {
    hide CoilSide;
    if writes != [] {
      var k := |writes| - 1;
      var o := OffCoils(edges, bindings, writes[..k]);
      CoilWritesStayOnCoils(edges, bindings, m, writes[..k]);
      if !CoilSide(edges, bindings, writes[k].cell) {
        assert (o + [writes[k]])[..|o|] == o;
      } else {
        assert o + [] == o;
      }
    }
  }

  lemma DisturbedAlike<S>(edges: seq<Edge>, bindings: seq<VarBinding>, p: Plant<S>, a: seq<ClientWrite>, b: seq<ClientWrite>)
    requires Sound(edges, p.engine) && OffCoils(edges, bindings, a) == OffCoils(edges, bindings, b)
    ensures AlikeEngines(edges, bindings, Disturbed(p, a).engine, Disturbed(p, b).engine)
  {
    hide CoilSide, OffCoils, Written;
    CoilWritesStayOnCoils(edges, bindings, p.engine.mem, a);
    CoilWritesStayOnCoils(edges, bindings, p.engine.mem, b);
  }

  /** The switch reads AUTO in every scan of the run. */
  ghost predicate AlwaysAuto<S(!new)>(logic: Logic<S>, bindings: seq<VarBinding>, p: Plant<S>, clients: seq<seq<ClientWrite>>)
    requires |p.symbols| == |bindings| && KeepsSymbols(logic)
  {
    forall k | 0 <= k < |clients| ::
      AutoMode(Pass(Disturbed(Run(logic, bindings, p, clients[..k]), clients[k]).engine).mem)
  }

  /** Two runs of any length whose clients agree off the coil side end, scan for
      scan, in the same plant: memory, rules, logic symbols and logic state. */
  lemma {:induction false} CoilWritesNeverMatter<S(!new)>(
      logic: Logic<S>, bindings: seq<VarBinding>, p: Plant<S>, edges: seq<Edge>,
      a: seq<seq<ClientWrite>>, b: seq<seq<ClientWrite>>)
    requires |p.symbols| == |bindings| && KeepsSymbols(logic) && DistinctBindings(bindings)
    requires Star(edges) && Sound(edges, p.engine)
    requires |a| == |b| && forall k | 0 <= k < |a| :: OffCoils(edges, bindings, a[k]) == OffCoils(edges, bindings, b[k])
    requires AlwaysAuto(logic, bindings, p, a)
    ensures Run(logic, bindings, p, a) == Run(logic, bindings, p, b)
    ensures Sound(edges, Run(logic, bindings, p, a).engine)
  {
    hide AlikeEngines, Scanned, Disturbed, Star, Sound, OffCoils, Pass;
    if a != [] {
      var k := |a| - 1;
      assert forall j | 0 <= j < k :: a[..k][..j] == a[..j];
      CoilWritesNeverMatter(logic, bindings, p, edges, a[..k], b[..k]);
      var q := Run(logic, bindings, p, a[..k]);
      DisturbedAlike(edges, bindings, q, a[k], b[k]);
      ScanErasesCoilWrites(logic, bindings, Disturbed(q, a[k]), Disturbed(q, b[k]), k + 1, edges);
      AlikeAreSound(edges, bindings, Disturbed(q, a[k]).engine, Disturbed(q, b[k]).engine);
      ScanEndsSettled(logic, bindings, Disturbed(q, a[k]), k + 1, edges);
    }
  }
}
