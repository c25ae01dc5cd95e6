/** What a Modbus client can rely on. */
module ModbusProperties {
  import opened Words
  import opened Bits
  import opened Cells
  import opened Memory
  import opened Modbus

  function Request(fc: Byte, start: Word, quantity: Word): (r: seq<Byte>)
    ensures |r| == 5
    ensures WordAt(r, 1) == start && WordAt(r, 3) == quantity
  {
    SplitJoins(start);
    SplitJoins(quantity);
    [fc, High(start), Low(start), High(quantity), Low(quantity)]
  }

  predicate IsException(pdu: seq<Byte>) {
    |pdu| == 2 && pdu[0] >= 0x80
  }

  // Frames and sizes.

  /** Every response fits: at most 252 bytes, one below the 253 of section 4.1 of
      the Modbus Application Protocol Specification V1.1b3, and never empty. */
  lemma ResponseFits(z: Sizes, m: Store, request: seq<Byte>)
    ensures 2 <= |Respond(z, m, request).pdu| <= 252
  {
    hide WriteAll, CoilBits, WordsAt, Block, PackAll, Bools, BigEndian;
  }

  /** The cells a request writes when it is accepted. */
  predicate Addressed(request: seq<Byte>, c: Cell) {
    |request| >= 5 &&
    var start, quantity := WordAt(request, 1), WordAt(request, 3);
    match request[0]
    case 0x05 => c == Cell(Coil, start)
    case 0x06 => c == Cell(HoldingRegister, start)
    case 0x0F => c.area == Coil && start <= c.index < start + quantity
    case 0x10 => c.area == HoldingRegister && start <= c.index < start + quantity
    case _ => false
  }

  /** No request touches a cell it does not address; a refused request touches
      nothing; the set of cells never changes. */
  lemma OnlyAddressedCellsChange(z: Sizes, m: Store, request: seq<Byte>)
    ensures var r := Respond(z, m, request);
            && r.mem.Keys == m.Keys
            && (IsException(r.pdu) ==> r.mem == m)
            && (forall c | c in m && !Addressed(request, c) :: r.mem[c] == m[c])
            && (WellFormed(m) ==> WellFormed(r.mem))
  {
    hide ReadBits, ReadRegisters, CoilBits, WordsAt;
  }

  // Round trips.

  /** A request of function code 16 that writes `n` registers. */
  function WriteRegistersRequest(start: Word, n: Word, data: seq<Byte>): (r: seq<Byte>)
    requires |data| == 2 * n && n <= 123
    ensures |r| == 6 + |data| && r[6..] == data
  {
    Request(0x10, start, n) + [2 * n] + data
  }

  lemma AcceptsRegisters(z: Sizes, m: Store, start: Word, n: Word, data: seq<Byte>)
    requires |data| == 2 * n && 1 <= n <= 123 && start + n <= z.holdingRegisters
    ensures var request := WriteRegistersRequest(start, n, data);
            Respond(z, m, request) ==
            Reply(Request(0x10, start, n), WriteAll(m, HoldingRegister, start, WordsAt(request, 6, n)))
  {
    hide WriteAll, ReadBits, ReadRegisters, WriteCoils;
    var request := WriteRegistersRequest(start, n, data);
    assert request[..5] == Request(0x10, start, n);
    assert request[0] == 0x10 && request[5] == 2 * n;
    assert WordAt(request, 1) == start && WordAt(request, 3) == n;
  }

  lemma ReadRequest(z: Sizes, m: Store, start: Word, n: Word)
    requires 1 <= n <= 125 && start + n <= z.holdingRegisters
    ensures Respond(z, m, Request(0x03, start, n)) ==
            Reply([0x03, 2 * n] + BigEndian(Block(m, HoldingRegister, start, n)), m)
  {
    hide WriteAll, ReadBits, WriteCoils, WriteRegisters, Block, BigEndian;
  }

  lemma WriteRegisterRequest(z: Sizes, m: Store, start: Word, v: Word)
    requires start < z.holdingRegisters
    ensures Respond(z, m, Request(0x06, start, v)) ==
            Reply(Request(0x06, start, v), WriteAll(m, HoldingRegister, start, [v]))
  {
    hide WriteAll, ReadBits, ReadRegisters, WriteCoils, WriteRegisters;
    assert Request(0x06, start, v)[..5] == Request(0x06, start, v);
  }

  lemma OneWord(v: Word)
    ensures BigEndian([v]) == [High(v), Low(v)]
  {
  }

  /** Function code 6 and then 3 on the same register give the value back. */
  lemma RegisterRoundTrip(z: Sizes, m: Store, start: Word, v: Word)
    requires Covers(z, m) && start < z.holdingRegisters
    ensures var w := Respond(z, m, Request(0x06, start, v));
            && w.pdu == Request(0x06, start, v)
            && Respond(z, w.mem, Request(0x03, start, 1)).pdu == [0x03, 2, High(v), Low(v)]
  {
    hide Respond, WriteAll, Block, Request, WordAt, BigEndian, Covers;
    WriteRegisterRequest(z, m, start, v);
    BlockOfWritten(z, m, HoldingRegister, start, [v]);
    ReadRequest(z, WriteAll(m, HoldingRegister, start, [v]), start, 1);
    OneWord(v);
  }

  /** Function code 16 and then 3 give the very data bytes back. */
  lemma RegistersRoundTrip(z: Sizes, m: Store, start: Word, n: Word, data: seq<Byte>)
    requires Covers(z, m) && |data| == 2 * n && 1 <= n <= 123 && start + n <= z.holdingRegisters
    ensures var w := Respond(z, m, WriteRegistersRequest(start, n, data));
            && w.pdu == Request(0x10, start, n)
            && Respond(z, w.mem, Request(0x03, start, n)).pdu == [0x03, 2 * n] + data
  {
    hide Respond, WriteAll, WordsAt, Block, BigEndian, Request, WriteRegistersRequest, Covers, WordAt;
    var request := WriteRegistersRequest(start, n, data);
    AcceptsRegisters(z, m, start, n, data);
    ReadRequest(z, Respond(z, m, request).mem, start, n);
    BlockOfWritten(z, m, HoldingRegister, start, WordsAt(request, 6, n));
    WordsBack(request, data, n);
  }

  lemma BlockOfWritten(z: Sizes, m: Store, area: Area, start: nat, values: seq<Word>)
    requires Covers(z, m) && start + |values| <= SizeOf(z, area)
    requires forall i | 0 <= i < |values| :: Kept(area, values[i]) == values[i]
    ensures Block(WriteAll(m, area, start, values), area, start, |values|) == values
  {
    hide WriteAll;
    forall i | 0 <= i < |values|
      ensures Read(WriteAll(m, area, start, values), Cell(area, start + i)) == values[i]
    {
      assert Cell(area, start + i) in m;
    }
  }

  lemma WordsBack(request: seq<Byte>, data: seq<Byte>, n: nat)
    requires |data| == 2 * n && |request| == 6 + |data| && request[6..] == data
    ensures BigEndian(WordsAt(request, 6, n)) == data
  {
    var s := BigEndian(WordsAt(request, 6, n));
    forall i | 0 <= i < |data| ensures s[i] == data[i] {
      assert data[i] == request[6 + i];
      var k := i / 2;
      assert s[2 * k] == High(WordAt(request, 6 + 2 * k)) && s[2 * k + 1] == Low(WordAt(request, 6 + 2 * k));
      JoinSplits(request[6 + 2 * k], request[6 + 2 * k + 1]);
    }
  }

  function WriteCoilsRequest(start: Word, quantity: Word, data: seq<Byte>): (r: seq<Byte>)
    requires |data| <= 250
    ensures |r| == 6 + |data|
  {
    Request(0x0F, start, quantity) + [|data|] + data
  }

  lemma AcceptsCoils(z: Sizes, m: Store, start: Word, quantity: Word, data: seq<Byte>)
    requires 1 <= quantity <= 2000 && |data| == (quantity + 7) / 8 && start + quantity <= z.coils
    ensures var request := WriteCoilsRequest(start, quantity, data);
            && |request| == 6 + |data| && request[6..] == data
            && Respond(z, m, request) ==
               Reply(Request(0x0F, start, quantity), WriteAll(m, Coil, start, CoilBits(request, quantity)))
  {
    hide WriteAll, ReadBits, ReadRegisters, WriteRegisters;
    var request := WriteCoilsRequest(start, quantity, data);
    assert request[..5] == Request(0x0F, start, quantity);
    assert request[0] == 0x0F && request[5] == |data|;
    assert WordAt(request, 1) == start && WordAt(request, 3) == quantity;
  }

  lemma PackedBack(request: seq<Byte>, data: seq<Byte>, quantity: Word, b: nat, j: nat)
    requires 1 <= quantity <= 2000 && |data| == (quantity + 7) / 8
    requires |request| == 6 + |data| && request[6..] == data
    requires b < |data| && j < 8
    ensures BitOf(PackAll(Bools(CoilBits(request, quantity)), |data|)[b], j) ==
            (8 * b + j < quantity && BitOf(data[b], j))
  {
    var bits := Bools(CoilBits(request, quantity));
    assert PackAll(bits, |data|)[b] == Packed(bits, 8 * b, 8);
    if 8 * b + j < quantity {
      var i := 8 * b + j;
      assert i / 8 == b && i % 8 == j;
      CoilIndexFits(i);
      assert data[b] == request[6 + b];
      assert bits[i] == CoilBit(request, i);
    }
  }

  lemma ReadCoilsRequest(z: Sizes, m: Store, start: Word, quantity: Word)
    requires 1 <= quantity <= 2000 && start + quantity <= z.coils
    ensures var n := (quantity + 7) / 8;
            Respond(z, m, Request(0x01, start, quantity)) ==
            Reply([0x01, n] + PackAll(Bools(Block(m, Coil, start, quantity)), n), m)
  {
    hide WriteAll, ReadRegisters, WriteCoils, WriteRegisters, Block, Bools, PackAll;
  }

  lemma CoilsReadBack(z: Sizes, m: Store, start: Word, quantity: Word, data: seq<Byte>)
    requires Covers(z, m) && 1 <= quantity <= 2000 && |data| == (quantity + 7) / 8
    requires start + quantity <= z.coils
    ensures var request := WriteCoilsRequest(start, quantity, data);
            var w := Respond(z, m, request);
            && |request| == 6 + |data| && request[6..] == data
            && w.pdu == Request(0x0F, start, quantity)
            && Respond(z, w.mem, Request(0x01, start, quantity)).pdu ==
               [0x01, |data|] + PackAll(Bools(CoilBits(request, quantity)), |data|)
  {
    hide Respond, WriteAll, Block, CoilBits, Bools, PackAll;
    var request := WriteCoilsRequest(start, quantity, data);
    AcceptsCoils(z, m, start, quantity, data);
    CoilBitsAreKept(request, quantity);
    BlockOfWritten(z, m, Coil, start, CoilBits(request, quantity));
    ReadCoilsRequest(z, Respond(z, m, request).mem, start, quantity);
  }

  /** Function code 15 and then 1: every coil comes back in its place and the
      unused bits of the last byte are 0. */
  lemma CoilsRoundTrip(z: Sizes, m: Store, start: Word, quantity: Word, data: seq<Byte>)
    requires Covers(z, m) && 1 <= quantity <= 2000 && |data| == (quantity + 7) / 8
    requires start + quantity <= z.coils
    ensures var w := Respond(z, m, WriteCoilsRequest(start, quantity, data));
            var r := Respond(z, w.mem, Request(0x01, start, quantity)).pdu;
            && w.pdu == Request(0x0F, start, quantity)
            && |r| == 2 + |data| && r[0] == 0x01 && r[1] == |data|
            && forall b, j | 0 <= b < |data| && 0 <= j < 8 ::
                 BitOf(r[2..][b], j) == (8 * b + j < quantity && BitOf(data[b], j))
  {
    hide Respond, Request, WordAt, Covers, CoilBits, Bools, PackAll, BitOf;
    var request := WriteCoilsRequest(start, quantity, data);
    CoilsReadBack(z, m, start, quantity, data);
    var packed := PackAll(Bools(CoilBits(request, quantity)), |data|);
    var r := Respond(z, Respond(z, m, request).mem, Request(0x01, start, quantity)).pdu;
    assert r == [0x01, |data|] + packed;
    forall b, j | 0 <= b < |data| && 0 <= j < 8
      ensures BitOf(packed[b], j) == (8 * b + j < quantity && BitOf(data[b], j))
    {
      PackedBack(request, data, quantity, b, j);
    }
    assert r[2..] == packed;
  }

  lemma CoilBitsAreKept(request: seq<Byte>, n: nat)
    requires n <= 2000 && 6 + (n + 7) / 8 <= |request|
    ensures forall i | 0 <= i < n :: Kept(Coil, CoilBits(request, n)[i]) == CoilBits(request, n)[i]
  {
  }
}
