/** `PlcLoader`: moves values between the memory and the symbols of the loaded
    logic, around each run of the logic. */
module Loader {
  import opened Words
  import opened Cells
  import opened Mapping
  import opened Memory
  import opened Scan

  class PlcLoader<S(!new)> {
    const memory: PlcMemory
    const bindings: seq<VarBinding>
    const logic: Logic<S>
    /** What the logic's initialisation puts into its variables. */
    const initial: (seq<Word>, S)
    /** `*sym_ptr` of each binding. */
    var symbols: array<Word>
    /** The variables of the logic that are not bound. */
    var hidden: S

    ghost predicate Valid()
      reads this, memory
    {
      memory.Valid() && symbols.Length == |initial.0| == |bindings| && KeepsSymbols(logic)
    }

    ghost function State(): Plant<S>
      reads this, memory, memory.mappings, symbols
    {
      Plant(memory.Contents(), symbols[..], hidden)
    }

    constructor (memory: PlcMemory, bindings: seq<VarBinding>, logic: Logic<S>, initial: (seq<Word>, S))
      requires memory.Valid() && |initial.0| == |bindings| && KeepsSymbols(logic)
      ensures Valid() && fresh(symbols)
      ensures this.memory == memory && this.bindings == bindings && this.logic == logic && this.initial == initial
    {
      this.memory, this.bindings, this.logic, this.initial := memory, bindings, logic, initial;
      symbols, hidden := new Word[|bindings|](i => 0), initial.1;
    }

    method InitLogic()
      requires Valid()
      modifies this`hidden, symbols
      ensures Valid() && State() == Plant(old(memory.Contents()), initial.0, initial.1)
    {
      SetSymbols(initial.0);
      hidden := initial.1;
    }

    method SetSymbols(s: seq<Word>)
      requires Valid() && |s| == |bindings|
      modifies symbols
      ensures symbols[..] == s && memory.Contents() == old(memory.Contents())
    {
      for i := 0 to |bindings|
        invariant forall j | 0 <= j < i :: symbols[j] == s[j]
        invariant memory.Contents() == old(memory.Contents())
      {
        symbols[i] := s[i];
      }
    }

    method SyncInputsToDll()
      requires Valid()
      modifies memory`cells, memory.mappings, symbols
      ensures Valid() && State() == SyncIn(bindings, old(State()))
    {
      memory.SyncMappings();
      ghost var m := memory.cells;
      for i := 0 to |bindings|
        invariant memory.cells == m && memory.Contents() == Pass(old(memory.Contents()))
        invariant forall j | 0 <= j < i :: symbols[j] == CopiedIn(m, bindings[j], old(symbols[j]))
        invariant forall j | i <= j < |bindings| :: symbols[j] == old(symbols[j])
      {
        var b := bindings[i];
        if b.kind.COIL? {
          var autoMode := memory.ReadValue(AUTO_SWITCH);
          if autoMode == 0 {
            var v := memory.ReadValue(Cell(Coil, b.address));
            symbols[i] := v;
          }
        } else if b.kind.DISCRETE_INPUT? {
          if b.address == 0 || b.address == 7 {
            var v := memory.ReadValue(Cell(DiscreteInput, b.address));
            symbols[i] := v;
          }
        } else if b.kind.HOLDING_REGISTER? {
          var v := memory.ReadValue(Cell(HoldingRegister, b.address));
          symbols[i] := v;
        }
      }
      assert symbols[..] == CopyIn(m, bindings, old(symbols[..]));
    }

    method Run(tick: nat)
      requires Valid()
      modifies this`hidden, symbols
      ensures Valid() && State() == RunLogic(logic, old(State()), tick)
    {
      var (s, h) := logic(symbols[..], hidden, tick);
      SetSymbols(s);
      hidden := h;
    }

    method SyncOutputsFromDll()
      requires Valid()
      modifies memory`cells, memory.mappings
      ensures Valid() && State() == SyncOut(bindings, old(State()))
    {
      hide Write, Covers, WellFormed, Pass;
      ghost var s := symbols[..];
      for i := 0 to |bindings|
        invariant memory.Valid() && memory.mappings[..] == old(memory.mappings[..])
        invariant memory.cells == CopyOut(old(memory.cells), bindings, s, i)
      {
        CopyOutStep(old(memory.cells), bindings, s, i);
        var b := bindings[i];
        if b.kind.DISCRETE_INPUT? {
          if b.address != 0 && b.address != 7 {
            memory.WriteValue(Cell(DiscreteInput, b.address), symbols[i]);
          }
        } else if b.kind.COIL? {
          memory.WriteValue(Cell(Coil, b.address), symbols[i]);
        } else if b.kind.INPUT_REGISTER? {
          memory.WriteValue(Cell(InputRegister, b.address), symbols[i]);
        } else {
          memory.WriteValue(Cell(HoldingRegister, b.address), symbols[i]);
        }
      }
      memory.SyncMappings();
    }

    /** The body of the scheduler's cycle. */
    method ScanOnce(tick: nat)
      requires Valid()
      modifies this`hidden, symbols, memory`cells, memory.mappings
      ensures Valid() && State() == Scanned(logic, bindings, old(State()), tick)
    {
      SyncInputsToDll();
      Run(tick);
      SyncOutputsFromDll();
    }
  }
}
