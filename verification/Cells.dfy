/** The memory of the runtime: one cell per (protocol area, index), all areas
    side by side. A bit cell holds 0 or 1, a word cell holds 16 bits. */
module Cells {
  import opened Words

  /** The areas of the four protocols. `Nowhere` stands for a reference whose
      protocol or area is unknown: it reads as 0 and ignores writes. */
  datatype Area =
    | Coil | DiscreteInput | InputRegister | HoldingRegister
    | S7PE | S7PA | S7DB1 | S7DB2
    | McX | McY | McM | McL | McB | McF | McSM
    | McD | McW | McR | McZR | McSD
    | LsI | LsQ | LsM | LsW
    | Nowhere

  datatype Cell = Cell(area: Area, index: nat)

  predicate IsBit(a: Area) {
    a in {Coil, DiscreteInput, S7PE, S7PA, McX, McY, McM, McL, McB, McF, McSM, LsI, LsQ, LsM}
  }

  predicate SameWidth(c: Cell, d: Cell) {
    IsBit(c.area) == IsBit(d.area)
  }

  /** The sizes of the four Modbus areas are chosen at construction; all other
      areas have fixed sizes. */
  datatype Sizes = Sizes(coils: nat, discreteInputs: nat, inputRegisters: nat, holdingRegisters: nat)

  function SizeOf(z: Sizes, a: Area): nat {
    if a.Coil? then z.coils
    else if a.DiscreteInput? then z.discreteInputs
    else if a.InputRegister? then z.inputRegisters
    else if a.HoldingRegister? then z.holdingRegisters
    else if a.Nowhere? then 0
    else if IsBit(a) then 2048
    else 1024
  }

  /** All areas with their sizes: 2048 bits or 1024 words, but for Modbus. */
  lemma SizesAre(z: Sizes)
    ensures SizeOf(z, Coil) == z.coils && SizeOf(z, DiscreteInput) == z.discreteInputs
    ensures SizeOf(z, InputRegister) == z.inputRegisters && SizeOf(z, HoldingRegister) == z.holdingRegisters
    ensures forall a | a in {S7PE, S7PA, McX, McY, McM, McL, McB, McF, McSM, LsI, LsQ, LsM} :: SizeOf(z, a) == 2048
    ensures forall a | a in {S7DB1, S7DB2, McD, McW, McR, McZR, McSD, LsW} :: SizeOf(z, a) == 1024
    ensures SizeOf(z, Nowhere) == 0
  {
  }

  /** A cell is in range exactly when it is a key of the store. */
  type Store = map<Cell, Word>

  ghost predicate Covers(z: Sizes, m: Store) {
    forall c: Cell :: c in m <==> c.index < SizeOf(z, c.area)
  }

  /** What a cell of this area keeps of a written value. */
  function Kept(a: Area, v: Word): Word {
    if IsBit(a) && v != 0 then 1 else v
  }

  ghost predicate WellFormed(m: Store) {
    forall c | c in m :: m[c] == Kept(c.area, m[c])
  }

  /** Out-of-range reads give 0. */
  function Read(m: Store, c: Cell): Word {
    if c in m then m[c] else 0
  }

  /** Out-of-range writes are dropped. */
  function Write(m: Store, c: Cell, v: Word): Store {
    if c in m then m[c := Kept(c.area, v)] else m
  }

  /** A write that comes in through one of the servers. */
  datatype ClientWrite = ClientWrite(cell: Cell, value: Word)

  function Written(m: Store, writes: seq<ClientWrite>): (t: Store)
    ensures t.Keys == m.Keys && (WellFormed(m) ==> WellFormed(t))
  {
    if writes == [] then m
    else
      var k := |writes| - 1;
      Write(Written(m, writes[..k]), writes[k].cell, writes[k].value)
  }
}
