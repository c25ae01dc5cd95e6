/** The Modbus request processor. */
module Modbus {
  import opened Words
  import opened Bits
  import opened Cells
  import opened Memory

  // Byte forms.

  function BigEndian(ws: seq<Word>): (s: seq<Byte>)
    ensures |s| == 2 * |ws|
    ensures forall i | 0 <= i < |ws| :: s[2 * i] == High(ws[i]) && s[2 * i + 1] == Low(ws[i])
  {
    if ws == [] then []
    else
      var k := |ws| - 1;
      BigEndian(ws[..k]) + [High(ws[k]), Low(ws[k])]
  }

  function WordAt(s: seq<Byte>, i: nat): Word
    requires i + 1 < |s|
  {
    Join(s[i], s[i + 1])
  }

  function WordsAt(s: seq<Byte>, at: nat, n: nat): (ws: seq<Word>)
    requires at + 2 * n <= |s|
    ensures |ws| == n
  {
    seq<Word>(n, i requires 0 <= i < n => WordAt(s, at + 2 * i))
  }

  /** The i-th of the bits that start in byte `6`, by an index of 8 bits. */
  function CoilBit(request: seq<Byte>, i: nat): bool
    requires ToByte(6 + i / 8) < |request|
  {
    BitOf(request[ToByte(6 + i / 8)], i % 8)
  }

  function CoilBits(request: seq<Byte>, n: nat): (s: seq<Word>)
    requires n <= 2000 && 6 + (n + 7) / 8 <= |request|
    ensures |s| == n
  {
    seq<Word>(n, i requires 0 <= i < n => Value(CoilBit(request, i)))
  }

  function Value(bit: bool): Word {
    if bit then 1 else 0
  }

  // Requests.

  datatype Reply = Reply(pdu: seq<Byte>, mem: Store)

  const ILLEGAL_FUNCTION: Byte := 1
  const ILLEGAL_ADDRESS: Byte := 2
  const ILLEGAL_VALUE: Byte := 3
  const SERVER_FAILURE: Byte := 4

  function Exception(fc: Byte, code: Byte): seq<Byte> {
    [if fc < 0x80 then fc + 0x80 else fc, code]
  }

  function ReadBits(z: Sizes, m: Store, fc: Byte, area: Area, start: Word, quantity: Word): seq<Byte> {
    if quantity < 1 || quantity > 2000 then Exception(fc, ILLEGAL_VALUE)
    else if start + quantity > SizeOf(z, area) then Exception(fc, ILLEGAL_ADDRESS)
    else
      var n := (quantity + 7) / 8;
      [fc, n] + PackAll(Bools(Block(m, area, start, quantity)), n)
  }

  function ReadRegisters(z: Sizes, m: Store, fc: Byte, area: Area, start: Word, quantity: Word): seq<Byte> {
    if quantity < 1 || quantity > 125 then Exception(fc, ILLEGAL_VALUE)
    else if start + quantity > SizeOf(z, area) then Exception(fc, ILLEGAL_ADDRESS)
    else [fc, 2 * quantity] + BigEndian(Block(m, area, start, quantity))
  }

  function WriteSingleCoil(z: Sizes, m: Store, request: seq<Byte>, start: Word, value: Word): Reply
    requires 5 <= |request|
  {
    if start >= SizeOf(z, Coil) then Reply(Exception(request[0], ILLEGAL_ADDRESS), m)
    else if value != 0xFF00 && value != 0 then Reply(Exception(request[0], ILLEGAL_VALUE), m)
    else Reply(request[..5], WriteAll(m, Coil, start, [if value == 0xFF00 then 1 else 0]))
  }

  function WriteSingleRegister(z: Sizes, m: Store, request: seq<Byte>, start: Word, value: Word): Reply
    requires 5 <= |request|
  {
    if start >= SizeOf(z, HoldingRegister) then Reply(Exception(request[0], ILLEGAL_ADDRESS), m)
    else Reply(request[..5], WriteAll(m, HoldingRegister, start, [value]))
  }

  function WriteCoils(z: Sizes, m: Store, request: seq<Byte>, start: Word, quantity: Word): Reply
    requires 5 <= |request|
  {
    var fc := request[0];
    if |request| < 6 || |request| < 6 + request[5] as int then Reply(Exception(fc, ILLEGAL_VALUE), m)
    else if quantity < 1 || quantity > 2000 || request[5] != (quantity + 7) / 8 then
      Reply(Exception(fc, ILLEGAL_VALUE), m)
    else if start + quantity > SizeOf(z, Coil) then Reply(Exception(fc, ILLEGAL_ADDRESS), m)
    else Reply(request[..5], WriteAll(m, Coil, start, CoilBits(request, quantity)))
  }

  function WriteRegisters(z: Sizes, m: Store, request: seq<Byte>, start: Word, quantity: Word): Reply
    requires 5 <= |request|
  {
    var fc := request[0];
    if |request| < 6 || |request| < 6 + request[5] as int then Reply(Exception(fc, ILLEGAL_VALUE), m)
    else if quantity < 1 || quantity > 123 || request[5] != 2 * quantity then Reply(Exception(fc, ILLEGAL_VALUE), m)
    else if start + quantity > SizeOf(z, HoldingRegister) then Reply(Exception(fc, ILLEGAL_ADDRESS), m)
    else Reply(request[..5], WriteAll(m, HoldingRegister, start, WordsAt(request, 6, quantity)))
  }

  function Respond(z: Sizes, m: Store, request: seq<Byte>): Reply {
    if request == [] then Reply(Exception(0, SERVER_FAILURE), m)
    else if |request| < 5 then Reply(Exception(request[0], ILLEGAL_VALUE), m)
    else
      var fc, start, quantity := request[0], WordAt(request, 1), WordAt(request, 3);
      match fc
      case 0x01 => Reply(ReadBits(z, m, fc, Coil, start, quantity), m)
      case 0x02 => Reply(ReadBits(z, m, fc, DiscreteInput, start, quantity), m)
      case 0x03 => Reply(ReadRegisters(z, m, fc, HoldingRegister, start, quantity), m)
      case 0x04 => Reply(ReadRegisters(z, m, fc, InputRegister, start, quantity), m)
      case 0x05 => WriteSingleCoil(z, m, request, start, quantity)
      case 0x06 => WriteSingleRegister(z, m, request, start, quantity)
      case 0x0F => WriteCoils(z, m, request, start, quantity)
      case 0x10 => WriteRegisters(z, m, request, start, quantity)
      case _ => Reply(Exception(fc, ILLEGAL_FUNCTION), m)
  }

  /** The 8-bit index wraps for no quantity that is accepted, and for the next. */
  lemma CoilIndexFits(i: nat)
    ensures ToByte(6 + i / 8) == 6 + i / 8 <==> i < 2000
  {
  }

  lemma BigEndianGrows(ws: seq<Word>, i: nat)
    requires i < |ws|
    ensures BigEndian(ws[..i + 1]) == BigEndian(ws[..i]) + [High(ws[i])] + [Low(ws[i])]
  {
    assert ws[..i + 1][..i] == ws[..i];
  }

  lemma PackAllGrows(bits: seq<bool>, b: nat)
    ensures PackAll(bits, 0) == []
    ensures PackAll(bits, b + 1) == PackAll(bits, b) + [Packed(bits, 8 * b, 8)]
  {
    hide Packed;
  }

  class ModbusServer {
    const memory: PlcMemory

    constructor (memory: PlcMemory)
      ensures this.memory == memory
    {
      this.memory := memory;
    }

    /** Function codes 1 and 2. */
    method ProcessReadBits(fc: Byte, area: Area, start: Word, quantity: Word) returns (response: seq<Byte>)
      requires memory.Valid()
      ensures response == ReadBits(memory.sizes, memory.cells, fc, area, start, quantity)
    {
      hide Packed, PackAll, Block, SizeOf, Covers, WellFormed;
      if quantity < 1 || quantity > 2000 {
        return Exception(fc, ILLEGAL_VALUE);
      }
      if start + quantity > SizeOf(memory.sizes, area) {
        return Exception(fc, ILLEGAL_ADDRESS);
      }
      var coils := memory.ReadBlock(area, start, quantity);
      var byteCount := ToByte((quantity + 7) / 8);
      ghost var bits := Bools(coils);
      response := [fc, byteCount];
      PackAllGrows(bits, 0);
      for b := 0 to byteCount
        invariant response == [fc, byteCount] + PackAll(bits, b)
      {
        var value := PackByte(coils, b);
        response := response + [value];
        PackAllGrows(bits, b);
      }
    }

    /** The inner loop: eight coils into one byte. */
    method PackByte(coils: seq<Word>, b: nat) returns (value: Byte)
      ensures value == Packed(Bools(coils), 8 * b, 8)
    {
      value := 0;
      for bit := 0 to 8
        invariant value == Packed(Bools(coils), 8 * b, bit)
      {
        PackStep(value, bit);
        if b * 8 + bit < |coils| && coils[b * 8 + bit] != 0 {
          value := SetBit(value, bit);
        }
      }
    }

    /** Function codes 3 and 4. */
    method ProcessReadRegisters(fc: Byte, area: Area, start: Word, quantity: Word) returns (response: seq<Byte>)
      requires memory.Valid()
      ensures response == ReadRegisters(memory.sizes, memory.cells, fc, area, start, quantity)
    {
      hide BigEndian, High, Low, Block, SizeOf, Covers, WellFormed;
      if quantity < 1 || quantity > 125 {
        return Exception(fc, ILLEGAL_VALUE);
      }
      if start + quantity > SizeOf(memory.sizes, area) {
        return Exception(fc, ILLEGAL_ADDRESS);
      }
      var registers := memory.ReadBlock(area, start, quantity);
      response := [fc, ToByte(2 * quantity)];
      assert registers[..0] == [];
      for i := 0 to |registers|
        invariant response == [fc, 2 * quantity] + BigEndian(registers[..i])
      {
        BigEndianGrows(registers, i);
        response := response + [High(registers[i])];
        response := response + [Low(registers[i])];
      }
      assert registers[..|registers|] == registers;
    }

    method UnpackCoils(request: seq<Byte>, quantity: Word) returns (values: seq<Word>)
      requires quantity <= 2000 && 6 + (quantity + 7) / 8 <= |request|
      ensures values == CoilBits(request, quantity)
    {
      hide BitOf;
      values := [];
      for i := 0 to quantity
        invariant values == CoilBits(request, i)
      {
        CoilIndexFits(i);
        var byteIdx := ToByte(6 + i / 8);
        values := values + [Value(BitOf(request[byteIdx], i % 8))];
      }
    }

    method UnpackRegisters(request: seq<Byte>, quantity: Word) returns (values: seq<Word>)
      requires 6 + 2 * quantity as int <= |request|
      ensures values == WordsAt(request, 6, quantity)
    {
      hide Join;
      values := [];
      for i := 0 to quantity
        invariant values == WordsAt(request, 6, i)
      {
        values := values + [WordAt(request, 6 + i * 2)];
      }
    }

    /** Function code 15. */
    method ProcessWriteCoils(request: seq<Byte>, start: Word, quantity: Word) returns (response: seq<Byte>)
      requires memory.Valid() && 5 <= |request|
      modifies memory`cells
      ensures memory.Valid()
      ensures Reply(response, memory.cells) == WriteCoils(memory.sizes, old(memory.cells), request, start, quantity)
    {
      var fc := request[0];
      if |request| < 6 {
        return Exception(fc, ILLEGAL_VALUE);
      }
      var byteCount := request[5];
      if |request| < 6 + byteCount as int {
        return Exception(fc, ILLEGAL_VALUE);
      }
      if quantity < 1 || quantity > 2000 || byteCount != (quantity + 7) / 8 {
        return Exception(fc, ILLEGAL_VALUE);
      }
      if start + quantity > SizeOf(memory.sizes, Coil) {
        return Exception(fc, ILLEGAL_ADDRESS);
      }
      var values := UnpackCoils(request, quantity);
      memory.WriteBlock(Coil, start, values);
      response := [fc, request[1], request[2], request[3], request[4]];
    }

    /** Function code 16. */
    method ProcessWriteRegisters(request: seq<Byte>, start: Word, quantity: Word) returns (response: seq<Byte>)
      requires memory.Valid() && 5 <= |request|
      modifies memory`cells
      ensures memory.Valid()
      ensures Reply(response, memory.cells) == WriteRegisters(memory.sizes, old(memory.cells), request, start, quantity)
    {
      hide WriteAll, WordsAt, Covers, WellFormed, SizeOf;
      var fc := request[0];
      if |request| < 6 {
        return Exception(fc, ILLEGAL_VALUE);
      }
      var byteCount := request[5];
      if |request| < 6 + byteCount as int {
        return Exception(fc, ILLEGAL_VALUE);
      }
      if quantity < 1 || quantity > 123 || byteCount != 2 * quantity {
        return Exception(fc, ILLEGAL_VALUE);
      }
      if start + quantity > SizeOf(memory.sizes, HoldingRegister) {
        return Exception(fc, ILLEGAL_ADDRESS);
      }
      var values := UnpackRegisters(request, quantity);
      memory.WriteBlock(HoldingRegister, start, values);
      response := [fc, request[1], request[2], request[3], request[4]];
    }

    method ProcessRequest(request: seq<Byte>) returns (response: seq<Byte>)
      requires memory.Valid()
      modifies memory`cells
      ensures memory.Valid()
      ensures Reply(response, memory.cells) == Respond(memory.sizes, old(memory.cells), request)
    {
      if request == [] {
        return Exception(0, SERVER_FAILURE);
      }
      var fc := request[0];
      if |request| < 5 {
        return Exception(fc, ILLEGAL_VALUE);
      }
      var start, quantity := WordAt(request, 1), WordAt(request, 3);
      ghost var echo := [fc, request[1], request[2], request[3], request[4]];
      assert request[..5] == echo;
      match fc
      case 0x01 => response := ProcessReadBits(fc, Coil, start, quantity);
      case 0x02 => response := ProcessReadBits(fc, DiscreteInput, start, quantity);
      case 0x03 => response := ProcessReadRegisters(fc, HoldingRegister, start, quantity);
      case 0x04 => response := ProcessReadRegisters(fc, InputRegister, start, quantity);
      case 0x05 =>
        if start >= SizeOf(memory.sizes, Coil) {
          return Exception(fc, ILLEGAL_ADDRESS);
        }
        if quantity != 0xFF00 && quantity != 0 {
          return Exception(fc, ILLEGAL_VALUE);
        }
        WriteOne(memory.cells, Coil, start, if quantity == 0xFF00 then 1 else 0);
        memory.WriteValue(Cell(Coil, start), if quantity == 0xFF00 then 1 else 0);
        response := [fc, request[1], request[2], request[3], request[4]];
      case 0x06 =>
        if start >= SizeOf(memory.sizes, HoldingRegister) {
          return Exception(fc, ILLEGAL_ADDRESS);
        }
        WriteOne(memory.cells, HoldingRegister, start, quantity);
        memory.WriteValue(Cell(HoldingRegister, start), quantity);
        response := [fc, request[1], request[2], request[3], request[4]];
      case 0x0F => response := ProcessWriteCoils(request, start, quantity);
      case 0x10 => response := ProcessWriteRegisters(request, start, quantity);
      case _ => response := Exception(fc, ILLEGAL_FUNCTION);
    }
  }

  lemma WriteOne(m: Store, area: Area, start: nat, v: Word)
    ensures WriteAll(m, area, start, [v]) == Write(m, Cell(area, start), v)
  {
    assert WriteAll(m, area, start, [v][..0]) == m;
  }
}
