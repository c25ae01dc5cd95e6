/** The Modbus request processor byte by byte: for every function code which cells
    it is about, what comes back, and exactly when it is refused how. */
module ModbusWire {
  import opened Words
  import opened Bits
  import opened Cells
  import opened Memory
  import opened Modbus

  // Fields.

  /** The address and the quantity, or value, high byte first. */
  function First(request: seq<Byte>): Word
    requires 5 <= |request|
  {
    0x100 * request[1] as int + request[2] as int
  }

  function Count(request: seq<Byte>): Word
    requires 5 <= |request|
  {
    0x100 * request[3] as int + request[4] as int
  }

  lemma Fields(request: seq<Byte>)
    requires 5 <= |request|
    ensures WordAt(request, 1) == First(request) && WordAt(request, 3) == Count(request)
  {
    HalvesOfWord(0, request[1], request[2]);
    HalvesOfWord(0, request[3], request[4]);
  }

  function Shown(m: Store, area: Area, index: nat): Word {
    if Cell(area, index) in m then m[Cell(area, index)] else 0
  }

  /** Refused with a code, nothing written: 1 for the function, 2 for the address, 3
      for a value. */
  ghost predicate Refuses(z: Sizes, m: Store, request: seq<Byte>, code: Byte)
    requires request != []
  {
    Respond(z, m, request) == Reply([if request[0] < 0x80 then request[0] + 0x80 else request[0], code], m)
  }

  /** Bits in bytes, the first in the lowest bit, unused bits 0. */
  ghost predicate CarriesBits(data: seq<Byte>, m: Store, area: Area, start: nat, n: nat) {
    && |data| == (n + 7) / 8
    && forall b, j | 0 <= b < |data| && 0 <= j < 8 ::
         BitOf(data[b], j) == (8 * b + j < n && Shown(m, area, start + 8 * b + j) != 0)
  }

  /** Registers, high byte first. */
  ghost predicate CarriesWords(data: seq<Byte>, m: Store, area: Area, start: nat, n: nat) {
    && |data| == 2 * n
    && forall i | 0 <= i < n ::
         0x100 * data[2 * i] as int + data[2 * i + 1] as int == Shown(m, area, start + i)
  }

  // Reading.

  lemma BitCarried(m: Store, area: Area, start: nat, n: nat, b: nat, j: nat)
    requires b < (n + 7) / 8 && j < 8
    ensures BitOf(PackAll(Bools(Block(m, area, start, n)), (n + 7) / 8)[b], j) ==
            (8 * b + j < n && Shown(m, area, start + 8 * b + j) != 0)
  {
    hide BitOf;
    var block, at := Block(m, area, start, n), 8 * b + j;
    var bits := Bools(block);
    assert PackAll(bits, (n + 7) / 8)[b] == Packed(bits, 8 * b, 8);
    if at < n {
      assert bits[at] == (block[at] != 0) && block[at] == Read(m, Cell(area, start + at));
    }
  }

  lemma BitsCarried(m: Store, area: Area, start: nat, n: nat)
    ensures CarriesBits(PackAll(Bools(Block(m, area, start, n)), (n + 7) / 8), m, area, start, n)
  {
    hide BitOf, Shown, PackAll, Bools, Block;
    var data := PackAll(Bools(Block(m, area, start, n)), (n + 7) / 8);
    forall b, j | 0 <= b < |data| && 0 <= j < 8
      ensures BitOf(data[b], j) == (8 * b + j < n && Shown(m, area, start + 8 * b + j) != 0)
    {
      BitCarried(m, area, start, n, b, j);
    }
  }

  lemma WordsCarried(m: Store, area: Area, start: nat, n: nat)
    ensures CarriesWords(BigEndian(Block(m, area, start, n)), m, area, start, n)
  {
    hide High, Low, Join;
    var block := Block(m, area, start, n);
    var s := BigEndian(block);
    forall i | 0 <= i < n ensures 0x100 * s[2 * i] as int + s[2 * i + 1] as int == Shown(m, area, start + i) {
      var w := block[i];
      assert w == Read(m, Cell(area, start + i)) == Shown(m, area, start + i);
      assert s[2 * i] == High(w) && s[2 * i + 1] == Low(w);
      SplitJoins(w);
      HalvesOfWord(w, High(w), Low(w));
    }
  }

  /** Function codes 1 and 2: coils and discrete inputs, 1 to 2000 of them. */
  lemma BitsAreRead(z: Sizes, m: Store, request: seq<Byte>)
    requires 5 <= |request| && request[0] in {0x01, 0x02}
    ensures var area, size := if request[0] == 0x01 then Coil else DiscreteInput,
                              if request[0] == 0x01 then z.coils else z.discreteInputs;
            var start, n, r := First(request), Count(request), Respond(z, m, request);
            if n < 1 || 2000 < n then Refuses(z, m, request, 3)
            else if size < start + n then Refuses(z, m, request, 2)
            else r.mem == m && |r.pdu| >= 2 && r.pdu[0] == request[0] && r.pdu[1] == (n + 7) / 8
                 && CarriesBits(r.pdu[2..], m, area, start, n)
  {
    hide PackAll, Bools, Block, BitOf;
    Fields(request);
    BitsCarried(m, if request[0] == 0x01 then Coil else DiscreteInput, First(request), Count(request));
    hide CarriesBits;
    forall a: Byte, b: Byte, s: seq<Byte> ensures ([a, b] + s)[2..] == s {
    }
  }

  /** Function codes 3 and 4: holding and input registers, 1 to 125 of them. */
  lemma RegistersAreRead(z: Sizes, m: Store, request: seq<Byte>)
    requires 5 <= |request| && request[0] in {0x03, 0x04}
    ensures var area, size := if request[0] == 0x03 then HoldingRegister else InputRegister,
                              if request[0] == 0x03 then z.holdingRegisters else z.inputRegisters;
            var start, n, r := First(request), Count(request), Respond(z, m, request);
            if n < 1 || 125 < n then Refuses(z, m, request, 3)
            else if size < start + n then Refuses(z, m, request, 2)
            else r.mem == m && |r.pdu| >= 2 && r.pdu[0] == request[0] && r.pdu[1] == 2 * n
                 && CarriesWords(r.pdu[2..], m, area, start, n)
  {
    hide BigEndian, Block;
    Fields(request);
    WordsCarried(m, if request[0] == 0x03 then HoldingRegister else InputRegister, First(request), Count(request));
    hide CarriesWords;
    forall a: Byte, b: Byte, s: seq<Byte> ensures ([a, b] + s)[2..] == s {
    }
  }

  // Writing.

  /** Cells `start` on take the values, and nothing else changes. */
  ghost predicate Stored(m: Store, t: Store, area: Area, start: nat, values: seq<Word>) {
    && t.Keys == m.Keys
    && forall c | c in m ::
         t[c] == if c.area == area && start <= c.index < start + |values| then values[c.index - start] else m[c]
  }

  lemma AllStored(m: Store, area: Area, start: nat, values: seq<Word>)
    requires IsBit(area) ==> forall i | 0 <= i < |values| :: values[i] <= 1
    ensures Stored(m, WriteAll(m, area, start, values), area, start, values)
  {
    hide WriteAll;
  }

  /** Function code 5: 0xFF00 sets the coil, 0 clears it; the request comes back. */
  lemma CoilIsWritten(z: Sizes, m: Store, request: seq<Byte>)
    requires 5 <= |request| && request[0] == 0x05
    ensures var start, v, r := First(request), Count(request), Respond(z, m, request);
            if z.coils <= start then Refuses(z, m, request, 2)
            else if v != 0xFF00 && v != 0 then Refuses(z, m, request, 3)
            else r.pdu == request[..5] && Stored(m, r.mem, Coil, start, [if v == 0 then 0 else 1])
  {
    hide WriteAll;
    Fields(request);
    AllStored(m, Coil, First(request), [if Count(request) == 0 then 0 else 1]);
  }

  /** Function code 6. */
  lemma RegisterIsWritten(z: Sizes, m: Store, request: seq<Byte>)
    requires 5 <= |request| && request[0] == 0x06
    ensures var start, v, r := First(request), Count(request), Respond(z, m, request);
            if z.holdingRegisters <= start then Refuses(z, m, request, 2)
            else r.pdu == request[..5] && Stored(m, r.mem, HoldingRegister, start, [v])
  {
    hide WriteAll;
    Fields(request);
    AllStored(m, HoldingRegister, First(request), [Count(request)]);
  }

  /** The bits behind the byte count, the first in the lowest bit. */
  function BitsSent(request: seq<Byte>): (s: seq<Word>)
    requires 5 <= |request| && Count(request) <= 2000 && 6 + (Count(request) + 7) / 8 <= |request|
    ensures |s| == Count(request)
  {
    seq<Word>(Count(request), i requires 0 <= i < Count(request) => if BitOf(request[6 + i / 8], i % 8) then 1 else 0)
  }

  lemma CoilBitsAreSent(request: seq<Byte>)
    requires 5 <= |request| && Count(request) <= 2000 && 6 + (Count(request) + 7) / 8 <= |request|
    ensures CoilBits(request, Count(request)) == BitsSent(request)
  {
    hide BitOf;
    forall i | 0 <= i < Count(request)
      ensures CoilBits(request, Count(request))[i] == BitsSent(request)[i]
    {
      CoilIndexFits(i);
    }
  }

  /** Function code 15: 1 to 2000 coils, with the byte count they need. */
  lemma CoilsAreWritten(z: Sizes, m: Store, request: seq<Byte>)
    requires 5 <= |request| && request[0] == 0x0F
    ensures var start, n, r := First(request), Count(request), Respond(z, m, request);
            if |request| < 6 || |request| < 6 + request[5] as int || n < 1 || 2000 < n || request[5] != (n + 7) / 8 then
              Refuses(z, m, request, 3)
            else if z.coils < start + n then Refuses(z, m, request, 2)
            else r.pdu == request[..5] && Stored(m, r.mem, Coil, start, BitsSent(request))
  {
    hide WriteAll, CoilBits, BitOf;
    Fields(request);
    var n := Count(request);
    if 6 <= |request| && 6 + request[5] as int <= |request| && 1 <= n <= 2000 && request[5] == (n + 7) / 8 {
      CoilBitsAreSent(request);
      AllStored(m, Coil, First(request), BitsSent(request));
    }
  }

  /** The registers behind the byte count, high byte first. */
  function WordsSent(request: seq<Byte>): (s: seq<Word>)
    requires 5 <= |request| && 6 + 2 * Count(request) <= |request|
    ensures |s| == Count(request)
  {
    seq<Word>(Count(request), i requires 0 <= i < Count(request) =>
      0x100 * request[6 + 2 * i] as int + request[7 + 2 * i] as int)
  }

  lemma WordsAtAreSent(request: seq<Byte>)
    requires 5 <= |request| && 6 + 2 * Count(request) <= |request|
    ensures WordsAt(request, 6, Count(request)) == WordsSent(request)
  {
    forall i | 0 <= i < Count(request) ensures WordsAt(request, 6, Count(request))[i] == WordsSent(request)[i] {
      HalvesOfWord(0, request[6 + 2 * i], request[7 + 2 * i]);
    }
  }

  /** Function code 16: 1 to 123 registers. */
  lemma RegistersAreWritten(z: Sizes, m: Store, request: seq<Byte>)
    requires 5 <= |request| && request[0] == 0x10
    ensures var start, n, r := First(request), Count(request), Respond(z, m, request);
            if |request| < 6 || |request| < 6 + request[5] as int || n < 1 || 123 < n || request[5] != 2 * n then
              Refuses(z, m, request, 3)
            else if z.holdingRegisters < start + n then Refuses(z, m, request, 2)
            else r.pdu == request[..5] && Stored(m, r.mem, HoldingRegister, start, WordsSent(request))
  {
    hide WriteAll, WordsAt;
    Fields(request);
    var n := Count(request);
    if 6 <= |request| && 6 + request[5] as int <= |request| && 1 <= n <= 123 && request[5] == 2 * n {
      WordsAtAreSent(request);
      AllStored(m, HoldingRegister, First(request), WordsSent(request));
    }
  }

  /** Everything else is refused: no bytes at all with code 4, fewer than five with
      code 3, any other function code with code 1. */
  lemma OthersAreRefused(z: Sizes, m: Store, request: seq<Byte>)
    ensures request == [] ==> Respond(z, m, request) == Reply([0x80, 4], m)
    ensures 0 < |request| < 5 ==> Refuses(z, m, request, 3)
    ensures 5 <= |request| && request[0] !in {0x01, 0x02, 0x03, 0x04, 0x05, 0x06, 0x0F, 0x10} ==> Refuses(z, m, request, 1)
  {
  }
}
