/** One client write into a settled star: a hub with its spokes. */
module StarWrites {
  import opened Cells
  import opened Mapping
  import opened Takeover
  import opened Scan
  import opened ScanCoherence

  /** The hub and its spokes. */
  ghost function Group(edges: seq<Edge>, hub: Cell): set<Cell> {
    {hub} + set i | 0 <= i < |edges| && edges[i].src == hub :: edges[i].dst
  }

  /** `m` is the memory of `e` with one cell of the group written. */
  ghost predicate OneWrite(edges: seq<Edge>, e: Engine, m: Store, hub: Cell, c: Cell) {
    && m.Keys == e.mem.Keys && WellFormed(m) && c in Group(edges, hub)
    && forall d | d in Group(edges, hub) && d != c :: d in m && m[d] == e.mem[d]
  }

  lemma GroupIsIsland(edges: seq<Edge>, hub: Cell)
    requires Star(edges) && IsModbus(hub)
    ensures Island(edges, Group(edges, hub))
  {
    var group := Group(edges, hub);
    forall i | 0 <= i < |edges| ensures edges[i].src in group <==> edges[i].dst in group {
      if edges[i].dst in group {
        var j :| 0 <= j < |edges| && edges[j].src == hub && edges[j].dst == edges[i].dst;
        assert i == j;
      }
    }
  }

  lemma GroupCells(edges: seq<Edge>, e: Engine, hub: Cell)
    requires Sound(edges, e) && Settled(e) && hub in e.mem
    ensures forall d | d in Group(edges, hub) :: d in e.mem && e.mem[d] == e.mem[hub] && SameWidth(d, hub)
  {
    forall d | d in Group(edges, hub) ensures d in e.mem && e.mem[d] == e.mem[hub] && SameWidth(d, hub) {
      if d != hub {
        var i :| 0 <= i < |edges| && edges[i].src == hub && edges[i].dst == d;
        SettledSpoke(edges, e, i);
      }
    }
  }

  lemma WriteSpreads(edges: seq<Edge>, e: Engine, m: Store, hub: Cell, c: Cell)
    requires Star(edges) && Sound(edges, e) && Settled(e) && hub in e.mem && IsModbus(hub)
    requires OneWrite(edges, e, m, hub, c)
    ensures c in m && Spreading(edges, e.(mem := m), Group(edges, hub), e.mem[hub], m[c])
  {
    GroupIsIsland(edges, hub);
    GroupCells(edges, e, hub);
    forall i | 0 <= i < |edges| && edges[i].src in Group(edges, hub)
      ensures Primed(e, i) && e.rules[i].lastSrc == e.mem[hub]
    {
      SettledSpoke(edges, e, i);
    }
  }

  /** One pass takes the written value to the hub. */
  lemma WriteReachesHub(edges: seq<Edge>, e: Engine, m: Store, hub: Cell, c: Cell)
    requires Star(edges) && Sound(edges, e) && Settled(e) && hub in e.mem && IsModbus(hub)
    requires OneWrite(edges, e, m, hub, c)
    ensures c in m && hub in Pass(e.(mem := m)).mem && Pass(e.(mem := m)).mem[hub] == m[c]
  {
    hide Prefix, Settled, WellFormed;
    var start, group := e.(mem := m), Group(edges, hub);
    GroupIsIsland(edges, hub);
    WriteSpreads(edges, e, m, hub, c);
    var w := m[c];
    PrefixSpreads(edges, start, group, e.mem[hub], w, |edges|);
    assert c in Taken(start, group, w);
    assert hub in Taken(Pass(start), group, w) by {
      if c != hub {
        var i :| 0 <= i < |edges| && edges[i].src == hub && edges[i].dst == c;
        assert edges[i].dst in Taken(start, group, w);
      }
    }
  }

  /** Two passes take it to the whole group, and everything is settled again. */
  lemma WriteReachesStar(edges: seq<Edge>, e: Engine, m: Store, hub: Cell, c: Cell)
    requires Star(edges) && Sound(edges, e) && Settled(e) && hub in e.mem && IsModbus(hub)
    requires OneWrite(edges, e, m, hub, c)
    ensures var t := Pass(Pass(e.(mem := m)));
            && c in m && Sound(edges, t) && Settled(t)
            && forall d | d in Group(edges, hub) :: d in t.mem && t.mem[d] == m[c]
  {
    hide Pass, Settled, WellFormed;
    var start := e.(mem := m);
    WriteReachesHub(edges, e, m, hub, c);
    assert Sound(edges, start) by { WriteSpreads(edges, e, m, hub, c); }
    PassCleansSpokes(edges, start);
    CleanPassCopiesHubs(edges, Pass(start));
    GroupCells(edges, Pass(Pass(start)), hub);
    assert forall i | 0 <= i < |edges| :: edges[i].dst != hub;
  }

  /** Without a loaded logic a scan is two passes. */
  lemma PassThroughScan<S(!new)>(logic: Logic<S>, p: Plant<S>, tick: nat)
    requires p.symbols == [] && KeepsSymbols(logic)
    ensures Scanned(logic, [], p, tick).engine == Pass(Pass(p.engine))
  {
  }

  /** A set point, the mode switch, the light curtain or, in MANUAL, a coil that a
      client writes through any protocol is what the logic computes with in the
      very same scan. */
  lemma WriteReachesLogic<S(!new)>(edges: seq<Edge>, bindings: seq<VarBinding>, p: Plant<S>, m: Store, i: nat, c: Cell)
    requires Star(edges) && Sound(edges, p.engine) && Settled(p.engine)
    requires |p.symbols| == |bindings| && i < |bindings| && CellOf(bindings[i]) in p.engine.mem
    requires OneWrite(edges, p.engine, m, CellOf(bindings[i]), c)
    requires var e := p.engine.(mem := m);
             || bindings[i].kind.HOLDING_REGISTER?
             || (bindings[i].kind.DISCRETE_INPUT? && bindings[i].address in {0, 7})
             || (bindings[i].kind.COIL? && Shown(Pass(e).mem, DiscreteInput, 0) == 0)
    ensures c in m && SyncIn(bindings, p.(engine := p.engine.(mem := m))).symbols[i] == m[c]
  {
    hide Pass, Settled, SyncIn;
    WriteReachesHub(edges, p.engine, m, CellOf(bindings[i]), c);
    InputsReachLogic(bindings, p.(engine := p.engine.(mem := m)), i);
  }
}
