/** One scan of the runtime as a function on values: mapping pass, inputs to the
    logic, logic, outputs from the logic, mapping pass. The logic itself is any
    function of its symbols, its private state and the tick. */
module Scan {
  import opened Words
  import opened Cells
  import opened Mapping

  datatype SymbolType = DISCRETE_INPUT | COIL | INPUT_REGISTER | HOLDING_REGISTER

  /** A logic symbol bound to a Modbus address. */
  datatype VarBinding = VarBinding(kind: SymbolType, address: Word)

  function CellOf(b: VarBinding): Cell {
    Cell(match b.kind
         case DISCRETE_INPUT => DiscreteInput
         case COIL => Coil
         case INPUT_REGISTER => InputRegister
         case HOLDING_REGISTER => HoldingRegister, b.address)
  }

  const AUTO_SWITCH := Cell(DiscreteInput, 0)

  /** The mode switch and the light curtain are written from outside only. */
  predicate IsExternalControl(b: VarBinding) {
    b.kind.DISCRETE_INPUT? && (b.address == 0 || b.address == 7)
  }

  function AutoMode(m: Store): bool {
    Read(m, AUTO_SWITCH) != 0
  }

  /** The symbol after the input copy. */
  function CopiedIn(m: Store, b: VarBinding, symbol: Word): Word {
    match b.kind
    case COIL => if AutoMode(m) then symbol else Read(m, CellOf(b))
    case DISCRETE_INPUT => if IsExternalControl(b) then Read(m, CellOf(b)) else symbol
    case HOLDING_REGISTER => Read(m, CellOf(b))
    case INPUT_REGISTER => symbol
  }

  function CopyIn(m: Store, bindings: seq<VarBinding>, symbols: seq<Word>): (s: seq<Word>)
    requires |symbols| == |bindings|
    ensures |s| == |symbols|
  {
    seq<Word>(|symbols|, i requires 0 <= i < |symbols| => CopiedIn(m, bindings[i], symbols[i]))
  }

  /** The memory after the output copy of the first `k` symbols. */
  function CopyOut(m: Store, bindings: seq<VarBinding>, symbols: seq<Word>, k: nat): (t: Store)
    requires k <= |symbols| == |bindings|
    ensures t.Keys == m.Keys && (WellFormed(m) ==> WellFormed(t))
  {
    if k == 0 then m
    else
      var t := CopyOut(m, bindings, symbols, k - 1);
      if IsExternalControl(bindings[k - 1]) then t else Write(t, CellOf(bindings[k - 1]), symbols[k - 1])
  }

  lemma CopyOutStep(m: Store, bindings: seq<VarBinding>, symbols: seq<Word>, k: nat)
    requires k < |symbols| == |bindings|
    ensures CopyOut(m, bindings, symbols, 0) == m
    ensures var t := CopyOut(m, bindings, symbols, k);
            CopyOut(m, bindings, symbols, k + 1) ==
            if IsExternalControl(bindings[k]) then t else Write(t, CellOf(bindings[k]), symbols[k])
  {
  }

  type Logic<!S> = (seq<Word>, S, nat) -> (seq<Word>, S)

  /** The logic keeps its symbols; it only gives them values. */
  ghost predicate KeepsSymbols<S(!new)>(logic: Logic<S>) {
    forall s: seq<Word>, h: S, tick: nat :: |logic(s, h, tick).0| == |s|
  }

  datatype Plant<S> = Plant(engine: Engine, symbols: seq<Word>, hidden: S)

  function SyncIn<S>(bindings: seq<VarBinding>, p: Plant<S>): (q: Plant<S>)
    requires |p.symbols| == |bindings|
    ensures |q.symbols| == |bindings|
  {
    var e := Pass(p.engine);
    p.(engine := e, symbols := CopyIn(e.mem, bindings, p.symbols))
  }

  /** What a cell shows; 0 where there is none. */
  function Shown(m: Store, area: Area, address: Word): Word {
    if Cell(area, address) in m then m[Cell(area, address)] else 0
  }

  /** What each symbol holds when the logic starts, by its kind, once the first
      pass has gone over the memory: discrete inputs 0 and 7 and all holding
      registers come from the memory, in MANUAL also the coils; everything else is
      as the logic left it. MANUAL is discrete input 0 being 0. */
  lemma InputsReachLogic<S(!new)>(bindings: seq<VarBinding>, p: Plant<S>, i: nat)
    requires |p.symbols| == |bindings| && i < |bindings|
    ensures var m, a, now := Pass(p.engine).mem, bindings[i].address, SyncIn(bindings, p).symbols[i];
            match bindings[i].kind
            case HOLDING_REGISTER => now == Shown(m, HoldingRegister, a)
            case COIL => now == if Shown(m, DiscreteInput, 0) == 0 then Shown(m, Coil, a) else p.symbols[i]
            case DISCRETE_INPUT => now == if a == 0 || a == 7 then Shown(m, DiscreteInput, a) else p.symbols[i]
            case INPUT_REGISTER => now == p.symbols[i]
  {
  }

  /** What each symbol leaves in the memory, by its kind: coils and all discrete
      inputs but 0 and 7 as bits, registers as they are. */
  lemma OutputsReachMemory<S(!new)>(bindings: seq<VarBinding>, p: Plant<S>, i: nat)
    requires |p.symbols| == |bindings| && i < |bindings| && DistinctBindings(bindings)
    ensures var m, t, a, v := p.engine.mem, Published(bindings, p).mem, bindings[i].address, p.symbols[i];
            match bindings[i].kind
            case COIL => Cell(Coil, a) in m ==> t[Cell(Coil, a)] == if v == 0 then 0 else 1
            case DISCRETE_INPUT =>
              Cell(DiscreteInput, a) in m ==>
                t[Cell(DiscreteInput, a)] ==
                if a == 0 || a == 7 then m[Cell(DiscreteInput, a)] else if v == 0 then 0 else 1
            case INPUT_REGISTER => Cell(InputRegister, a) in m ==> t[Cell(InputRegister, a)] == v
            case HOLDING_REGISTER => Cell(HoldingRegister, a) in m ==> t[Cell(HoldingRegister, a)] == v
  {
    hide CopyOut;
    var b, k := bindings[i], |bindings|;
    if CellOf(b) in p.engine.mem {
      if IsExternalControl(b) {
        forall j | 0 <= j < k && CellOf(bindings[j]) == CellOf(b) ensures IsExternalControl(bindings[j]) {
        }
        CopyOutSpares(p.engine.mem, bindings, p.symbols, k, CellOf(b));
      } else {
        CopyOutReaches(p.engine.mem, bindings, p.symbols, k, i);
      }
    }
  }

  /** A scan runs the logic once, with the scan's number, on those symbols; the
      mapping engine passes before the inputs are taken and after the outputs are
      put. */
  lemma ScanRunsLogicOnce<S(!new)>(logic: Logic<S>, bindings: seq<VarBinding>, p: Plant<S>, tick: nat)
    requires |p.symbols| == |bindings| && KeepsSymbols(logic)
    ensures var q, t := SyncIn(bindings, p), Scanned(logic, bindings, p, tick);
            && q.engine == Pass(p.engine) && q.hidden == p.hidden
            && (t.symbols, t.hidden) == logic(q.symbols, p.hidden, tick)
            && t.engine == Pass(Published(bindings, q.(symbols := t.symbols)))
  {
  }

  function RunLogic<S>(logic: Logic<S>, p: Plant<S>, tick: nat): Plant<S> {
    var (s, h) := logic(p.symbols, p.hidden, tick);
    p.(symbols := s, hidden := h)
  }

  /** The engine when the outputs are copied and the second pass is due. */
  function Published<S>(bindings: seq<VarBinding>, p: Plant<S>): Engine
    requires |p.symbols| == |bindings|
  {
    p.engine.(mem := CopyOut(p.engine.mem, bindings, p.symbols, |bindings|))
  }

  function SyncOut<S>(bindings: seq<VarBinding>, p: Plant<S>): (q: Plant<S>)
    requires |p.symbols| == |bindings|
    ensures |q.symbols| == |bindings|
  {
    p.(engine := Pass(Published(bindings, p)))
  }

  /** The plant between the logic and the output copy. */
  function Computed<S(!new)>(logic: Logic<S>, bindings: seq<VarBinding>, p: Plant<S>, tick: nat): (q: Plant<S>)
    requires |p.symbols| == |bindings| && KeepsSymbols(logic)
    ensures |q.symbols| == |bindings|
  {
    RunLogic(logic, SyncIn(bindings, p), tick)
  }

  function Scanned<S(!new)>(logic: Logic<S>, bindings: seq<VarBinding>, p: Plant<S>, tick: nat): (q: Plant<S>)
    requires |p.symbols| == |bindings| && KeepsSymbols(logic)
    ensures |q.symbols| == |bindings|
  {
    SyncOut(bindings, Computed(logic, bindings, p, tick))
  }

  // Whole runs.

  /** The scans number 1, 2, ..., with client writes before each. */
  function Run<S(!new)>(logic: Logic<S>, bindings: seq<VarBinding>, p: Plant<S>, clients: seq<seq<ClientWrite>>): (q: Plant<S>)
    requires |p.symbols| == |bindings| && KeepsSymbols(logic)
    ensures |q.symbols| == |bindings|
  {
    if clients == [] then p
    else
      var k := |clients| - 1;
      Scanned(logic, bindings, Disturbed(Run(logic, bindings, p, clients[..k]), clients[k]), k + 1)
  }

  function Disturbed<S>(p: Plant<S>, writes: seq<ClientWrite>): (q: Plant<S>)
    ensures q.symbols == p.symbols && q.hidden == p.hidden
  {
    p.(engine := p.engine.(mem := Written(p.engine.mem, writes)))
  }

  /** No two symbols are bound to the same address of the same kind. */
  ghost predicate DistinctBindings(bindings: seq<VarBinding>) {
    forall i, j | 0 <= i < j < |bindings| :: bindings[i] != bindings[j]
  }

  /** A cell that no owned output is bound to is left alone. */
  lemma {:induction false} CopyOutSpares(m: Store, bindings: seq<VarBinding>, symbols: seq<Word>, k: nat, c: Cell)
    requires k <= |symbols| == |bindings| && c in m
    requires forall i | 0 <= i < k :: CellOf(bindings[i]) == c ==> IsExternalControl(bindings[i])
    ensures CopyOut(m, bindings, symbols, k)[c] == m[c]
  {
    if k > 0 {
      CopyOutSpares(m, bindings, symbols, k - 1, c);
      CopyOutStep(m, bindings, symbols, k - 1);
    }
  }

  lemma {:induction false} CopyOutReaches(m: Store, bindings: seq<VarBinding>, symbols: seq<Word>, k: nat, i: nat)
    requires i < k <= |symbols| == |bindings| && DistinctBindings(bindings)
    requires !IsExternalControl(bindings[i]) && CellOf(bindings[i]) in m
    ensures CopyOut(m, bindings, symbols, k)[CellOf(bindings[i])] == Kept(CellOf(bindings[i]).area, symbols[i])
  {
    hide CopyOut, CellOf, IsExternalControl, DistinctBindings, WellFormed, Kept;
    CopyOutStep(m, bindings, symbols, k - 1);
    if i < k - 1 {
      CopyOutReaches(m, bindings, symbols, k - 1, i);
      OwnCells(bindings, i, k - 1);
    }
  }

  lemma OwnCells(bindings: seq<VarBinding>, i: nat, j: nat)
    requires DistinctBindings(bindings) && i < j < |bindings|
    ensures CellOf(bindings[i]) != CellOf(bindings[j])
  {
  }

  /** The output copy puts every symbol but the two external controls into its
      own cell and changes nothing else. */
  lemma CopyOutWrites(m: Store, bindings: seq<VarBinding>, symbols: seq<Word>, k: nat)
    requires k <= |symbols| == |bindings| && DistinctBindings(bindings)
    ensures var t := CopyOut(m, bindings, symbols, k);
            && (forall i | 0 <= i < k && !IsExternalControl(bindings[i]) && CellOf(bindings[i]) in m ::
                  t[CellOf(bindings[i])] == Kept(CellOf(bindings[i]).area, symbols[i]))
            && (forall c | c in m &&
                  (forall i | 0 <= i < k :: CellOf(bindings[i]) == c ==> IsExternalControl(bindings[i])) ::
                  t[c] == m[c])
  {
    hide CopyOut, CellOf, Kept, IsExternalControl, DistinctBindings;
    forall i | 0 <= i < k && !IsExternalControl(bindings[i]) && CellOf(bindings[i]) in m
      ensures CopyOut(m, bindings, symbols, k)[CellOf(bindings[i])] == Kept(CellOf(bindings[i]).area, symbols[i])
    {
      CopyOutReaches(m, bindings, symbols, k, i);
    }
    forall c | c in m && (forall i | 0 <= i < k :: CellOf(bindings[i]) == c ==> IsExternalControl(bindings[i]))
      ensures CopyOut(m, bindings, symbols, k)[c] == m[c]
    {
      CopyOutSpares(m, bindings, symbols, k, c);
    }
  }
}
