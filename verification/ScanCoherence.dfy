/** What one scan leaves behind when every mapping rule joins a Modbus cell (the
    hub) to a cell of another protocol (a spoke), as the shipped configuration
    does. */
module ScanCoherence {
  import opened Words
  import opened Cells
  import opened Mapping
  import opened MappingGraph
  import opened Convergence
  import opened Scan

  predicate IsModbus(c: Cell) {
    c.area in {Coil, DiscreteInput, InputRegister, HoldingRegister}
  }

  /** Every spoke hangs on one hub. */
  ghost predicate Star(edges: seq<Edge>) {
    && (forall i | 0 <= i < |edges| :: IsModbus(edges[i].src) && !IsModbus(edges[i].dst))
    && (forall i, j | 0 <= i < j < |edges| :: edges[i].dst != edges[j].dst)
  }

  ghost function HubRooting(edges: seq<Edge>): Rooting {
    Rooting(seq(|edges|, i => true), c => if IsModbus(c) then 1 else 0)
  }

  lemma StarIsRooted(edges: seq<Edge>)
    requires Star(edges)
    ensures Rooted(edges, HubRooting(edges), 1) && ParentFirst(edges, HubRooting(edges))
    ensures forall i | 0 <= i < |edges| :: Child(edges, HubRooting(edges), i) == edges[i].dst
    ensures forall i | 0 <= i < |edges| :: Parent(edges, HubRooting(edges), i) == edges[i].src
  {
  }

  /** After one pass from any state, spokes hold what their rules left there. */
  ghost predicate SpokesClean(edges: seq<Edge>, e: Engine) {
    Sound(edges, e) && AllClean(edges, HubRooting(edges), e)
  }

  lemma PassCleansSpokes(edges: seq<Edge>, e: Engine)
    requires Star(edges) && Sound(edges, e)
    ensures SpokesClean(edges, Pass(e))
  {
    hide Prefix, SameShape;
    StarIsRooted(edges);
    PassesQuiet(edges, HubRooting(edges), 1, e, 1);
    assert Passes(e, 1) == Pass(Passes(e, 0));
  }

  /** A second pass then only copies hubs to spokes. */
  lemma CleanPassCopiesHubs(edges: seq<Edge>, e: Engine)
    requires Star(edges) && SpokesClean(edges, e)
    ensures Sound(edges, Pass(e)) && Settled(Pass(e))
    ensures forall c | c in e.mem && (forall i | 0 <= i < |edges| :: edges[i].dst != c) ::
              Pass(e).mem[c] == e.mem[c]
  {
    hide Prefix, Settled, WellFormed;
    StarIsRooted(edges);
    var r := HubRooting(edges);
    PrefixDrains(edges, r, 1, e, |edges|);
    AllSyncedIsSettled(edges, r, Pass(e));
    forall c | c in e.mem && (forall i | 0 <= i < |edges| :: edges[i].dst != c)
      ensures Pass(e).mem[c] == e.mem[c]
    {
      CleanPrefixKeepsRoots(edges, r, 1, e, |edges|, c);
    }
  }

  /** Changing hubs from outside leaves the spokes as they were. */
  lemma HubWritesKeepSpokesClean(edges: seq<Edge>, e: Engine, m: Store)
    requires Star(edges) && SpokesClean(edges, e) && WellFormed(m) && m.Keys == e.mem.Keys
    requires forall c | c in m && !IsModbus(c) :: m[c] == e.mem[c]
    ensures SpokesClean(edges, e.(mem := m))
  {
    StarIsRooted(edges);
    var t, r := e.(mem := m), HubRooting(edges);
    assert Sound(edges, t);
    forall i | 0 <= i < |edges| ensures Clean(edges, r, t, i) {
      assert Clean(edges, r, e, i);
    }
  }

  lemma {:induction false} CopyOutKeepsSpokes(m: Store, bindings: seq<VarBinding>, symbols: seq<Word>, k: nat)
    requires k <= |symbols| == |bindings|
    ensures forall c | c in m && !IsModbus(c) :: CopyOut(m, bindings, symbols, k)[c] == m[c]
  {
    if k > 0 {
      CopyOutKeepsSpokes(m, bindings, symbols, k - 1);
    }
  }

  /** The engine at the end of a scan, from the engine when the logic has run:
      the hubs are what the output copy left, in particular the second pass
      changes none of them, and the whole mapping is settled. */
  lemma ScanEndsSettled<S(!new)>(logic: Logic<S>, bindings: seq<VarBinding>, p: Plant<S>, tick: nat, edges: seq<Edge>)
    requires |p.symbols| == |bindings| && KeepsSymbols(logic)
    requires Star(edges) && Sound(edges, p.engine)
    ensures var before, after := Published(bindings, Computed(logic, bindings, p, tick)),
                                 Scanned(logic, bindings, p, tick).engine;
            && SpokesClean(edges, before)
            && Sound(edges, after) && Settled(after)
            && after.mem.Keys == before.mem.Keys == p.engine.mem.Keys
            && forall c | c in before.mem && (forall i | 0 <= i < |edges| :: edges[i].dst != c) ::
                 after.mem[c] == before.mem[c]
  {
    hide Prefix, Settled, AllClean;
    PassCleansSpokes(edges, p.engine);
    var q := Computed(logic, bindings, p, tick);
    CopyOutKeepsSpokes(q.engine.mem, bindings, q.symbols, |bindings|);
    HubWritesKeepSpokesClean(edges, q.engine, Published(bindings, q).mem);
    CleanPassCopiesHubs(edges, Published(bindings, q));
  }

  /** Every spoke equals its hub and every rule remembers that value; every bound
      cell that the logic owns, and every spoke of it, shows the logic's symbol. */
  ghost predicate InAgreement<S>(edges: seq<Edge>, bindings: seq<VarBinding>, q: Plant<S>)
    requires |q.symbols| == |bindings|
  {
    && Sound(edges, q.engine) && Settled(q.engine)
    && (forall i | 0 <= i < |bindings| && !IsExternalControl(bindings[i]) ::
          Read(q.engine.mem, CellOf(bindings[i])) == Kept(CellOf(bindings[i]).area, q.symbols[i]))
    && (forall i, j | 0 <= i < |bindings| && 0 <= j < |edges| &&
                      !IsExternalControl(bindings[i]) && edges[j].src == CellOf(bindings[i]) ::
          Read(q.engine.mem, edges[j].dst) == Kept(CellOf(bindings[i]).area, q.symbols[i]))
  }

  /** A scan from any state ends in agreement; cells that are neither bound nor
      spokes are as the first pass left them. */
  lemma ScanIsCoherent<S(!new)>(logic: Logic<S>, bindings: seq<VarBinding>, p: Plant<S>, tick: nat, edges: seq<Edge>)
    requires |p.symbols| == |bindings| && KeepsSymbols(logic) && DistinctBindings(bindings)
    requires Star(edges) && Sound(edges, p.engine)
    requires forall i | 0 <= i < |bindings| :: CellOf(bindings[i]) in p.engine.mem
    ensures var q := Scanned(logic, bindings, p, tick);
            && InAgreement(edges, bindings, q)
            && q.engine.mem.Keys == p.engine.mem.Keys
            && (forall c | c in p.engine.mem && (forall j | 0 <= j < |edges| :: edges[j].dst != c) &&
                           (forall i | 0 <= i < |bindings| :: CellOf(bindings[i]) == c ==> IsExternalControl(bindings[i])) ::
                  q.engine.mem[c] == Pass(p.engine).mem[c])
  {
    hide Pass, AllClean, Settled, CopyOut, CellOf, Kept, IsExternalControl, DistinctBindings, Star, Sound, CopyIn;
    ScanEndsSettled(logic, bindings, p, tick, edges);
    var c := Computed(logic, bindings, p, tick);
    CopyOutWrites(c.engine.mem, bindings, c.symbols, |bindings|);
    var q := Scanned(logic, bindings, p, tick);
    forall i | 0 <= i < |bindings| && !IsExternalControl(bindings[i])
      ensures Read(q.engine.mem, CellOf(bindings[i])) == Kept(CellOf(bindings[i]).area, q.symbols[i])
    {
      BoundCellIsNoSpoke(edges, bindings[i]);
    }
    forall j | 0 <= j < |edges| ensures Read(q.engine.mem, edges[j].dst) == Read(q.engine.mem, edges[j].src) {
      SettledSpoke(edges, q.engine, j);
    }
  }

  lemma BoundCellIsNoSpoke(edges: seq<Edge>, b: VarBinding)
    requires Star(edges)
    ensures forall j | 0 <= j < |edges| :: edges[j].dst != CellOf(b)
  {
  }

  /** Client writes of any kind between scans: every scan of every run ends in
      agreement. */
  lemma {:induction false} RunsAreCoherent<S(!new)>(logic: Logic<S>, bindings: seq<VarBinding>, p: Plant<S>, edges: seq<Edge>,
                                                   clients: seq<seq<ClientWrite>>)
    requires |p.symbols| == |bindings| && KeepsSymbols(logic) && DistinctBindings(bindings)
    requires Star(edges) && Sound(edges, p.engine)
    requires forall i | 0 <= i < |bindings| :: CellOf(bindings[i]) in p.engine.mem
    ensures var q := Run(logic, bindings, p, clients);
            && Sound(edges, q.engine) && q.engine.mem.Keys == p.engine.mem.Keys
            && (clients != [] ==> InAgreement(edges, bindings, q))
  {
    hide Pass, Scanned, Settled, Star, CellOf, Written, InAgreement, DistinctBindings;
    if clients != [] {
      var k := |clients| - 1;
      RunsAreCoherent(logic, bindings, p, edges, clients[..k]);
      var q := Disturbed(Run(logic, bindings, p, clients[..k]), clients[k]);
      assert Sound(edges, q.engine);
      hide Sound;
      ScanIsCoherent(logic, bindings, q, k + 1, edges);
      AgreementIsSound(edges, bindings, Run(logic, bindings, p, clients));
    }
  }

  lemma AgreementIsSound<S>(edges: seq<Edge>, bindings: seq<VarBinding>, q: Plant<S>)
    requires |q.symbols| == |bindings| && InAgreement(edges, bindings, q)
    ensures Sound(edges, q.engine)
  {
  }

  lemma SettledSpoke(edges: seq<Edge>, e: Engine, j: nat)
    requires Sound(edges, e) && Settled(e) && j < |edges|
    ensures edges[j].src in e.mem && edges[j].dst in e.mem && e.mem[edges[j].dst] == e.mem[edges[j].src]
    ensures e.rules[j] == MappingRule(edges[j].src, edges[j].dst, e.mem[edges[j].src], e.mem[edges[j].src], true)
  {
    assert EdgeOf(e.rules[j]) == edges[j];
  }
}
