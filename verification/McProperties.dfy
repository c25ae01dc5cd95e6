/** What an MC client can rely on. */
module McProperties {
  import opened Words
  import opened Cells
  import opened Memory
  import opened Mc
  import Address
  import McWire
  import Text

  /** A number as `k` bytes, the lowest first. */
  function Bytes(n: nat, k: nat): (s: seq<Byte>)
    ensures |s| == k
  {
    if k == 0 then [] else [n % 0x100] + Bytes(n / 0x100, k - 1)
  }

  lemma {:induction false} NumberOfBytes(n: nat, k: nat)
    requires n < Power(k)
    ensures Number(Bytes(n, k)) == n
  {
    if k > 0 {
      NumberOfBytes(n / 0x100, k - 1);
      assert Bytes(n, k)[1..] == Bytes(n / 0x100, k - 1);
    }
  }

  function Power(k: nat): nat {
    if k == 0 then 1 else 0x100 * Power(k - 1)
  }

  /** A request frame: subheader, routing, length, timer, command and point
      fields, then the data. */
  function Request(routing: seq<Byte>, command: Word, sub: Word, start: nat, device: Byte, points: Word, data: seq<Byte>): (r: seq<Byte>)
    requires |routing| == 5 && start < 0x100_0000
    ensures |r| == 21 + |data| && r[21..] == data && r[2..7] == routing && r[18] == device
    ensures Command(r) == command && SubCommand(r) == sub && Start(r) == start && Points(r) == points
  {
    NumberOfBytes(start, 3);
    SplitJoins(command);
    SplitJoins(sub);
    SplitJoins(points);
    var length := ToWord(12 + |data|);
    var r := [0x50, 0x00] + routing + [Low(length), High(length), 0, 0, Low(command), High(command), Low(sub), High(sub)]
    + Bytes(start, 3) + [device, Low(points), High(points)] + data;
    assert r[15..18] == Bytes(start, 3);
    r
  }

  /** The fields that frame the request. */
  lemma RequestHeader(routing: seq<Byte>, command: Word, sub: Word, start: nat, device: Byte, points: Word, data: seq<Byte>)
    requires |routing| == 5 && start < 0x100_0000
    ensures var r := Request(routing, command, sub, start, device, points, data);
            r[0] == 0x50 && r[1] == 0 && WordAtLE(r, 7) == ToWord(12 + |data|)
  {
    var length := ToWord(12 + |data|);
    SplitJoins(length);
    hide Join, High, Low, Bytes;
  }

  predicate IsError(frame: seq<Byte>) {
    |frame| == 11 && frame[9] != 0
  }

  /** The response frame, field by field. */
  lemma FrameFields(request: seq<Byte>, routing: seq<Byte>, data: seq<Byte>)
    requires 21 <= |request| && request[2..7] == routing && |data| < 0x1_0000
    ensures Frame(request, data) == [0xD0, 0x00] + routing + [Low(|data|), High(|data|)] + data
  {
    hide High, Low, ToWord;
    LengthIsLength(|data|);
  }

  lemma LengthIsLength(n: nat)
    requires n < 0x1_0000
    ensures ToWord(n) == n
  {
  }

  lemma DoneFrame(request: seq<Byte>, routing: seq<Byte>)
    requires 21 <= |request| && request[2..7] == routing
    ensures Frame(request, [0, 0]) == [0xD0, 0x00] + routing + [2, 0, 0, 0]
  {
  }

  /** Where a span does not run over the 16-bit addresses, points are
      consecutive cells. */
  lemma {:induction false} WritesAreConsecutive(m: Store, area: Area, start: nat, values: seq<Word>)
    requires start + |values| <= 0x1_0000
    ensures WritePoints(m, area, start, values) == WriteAll(m, area, start, values)
    decreases |values|
  {
    if values != [] {
      var k := |values| - 1;
      WritesAreConsecutive(m, area, start, values[..k]);
      SamePoint(area, start, k);
    }
  }

  lemma SamePoint(area: Area, start: nat, k: nat)
    requires start + k < 0x1_0000
    ensures PointCell(area, start, k) == Cell(area, start + k)
  {
  }

  /** Writing points and reading them again gives the values back. */
  lemma PointsReadBack(z: Sizes, m: Store, area: Area, start: nat, values: seq<Word>)
    requires Covers(z, m) && start + |values| <= SizeOf(z, area) <= 0x1_0000
    requires forall i | 0 <= i < |values| :: Kept(area, values[i]) == values[i]
    ensures ReadPoints(WritePoints(m, area, start, values), area, start, |values|) == values
  {
    hide WritePoints, WriteAll;
    WritesAreConsecutive(m, area, start, values);
    var t := WritePoints(m, area, start, values);
    forall i | 0 <= i < |values| ensures Read(t, PointCell(area, start, i)) == values[i] {
      assert Cell(area, start + i) in m;
    }
  }

  lemma AreaSizes(z: Sizes, device: Byte)
    ensures !WordArea(device).Nowhere? ==> SizeOf(z, WordArea(device)) == 1024 && !IsBit(WordArea(device))
    ensures !BitArea(device).Nowhere? ==> SizeOf(z, BitArea(device)) == 2048 && IsBit(BitArea(device))
  {
  }

  lemma WordsThereAndBack(data: seq<Byte>, n: nat)
    requires |data| == 2 * n
    ensures LittleEndian(WordsAtLE(data, n)) == data
  {
    hide LittleEndian, High, Low, Join;
    var s := LittleEndian(WordsAtLE(data, n));
    forall i | 0 <= i < |data| ensures s[i] == data[i] {
      var k := i / 2;
      assert s[2 * k] == Low(WordAtLE(data, 2 * k)) && s[2 * k + 1] == High(WordAtLE(data, 2 * k));
      JoinSplits(data[2 * k + 1], data[2 * k]);
    }
  }

  /** What a word write request does. */
  lemma WordWriteEffect(m: Store, routing: seq<Byte>, start: nat, device: Byte, n: Word, data: seq<Byte>)
    requires |routing| == 5 && start < 0x100_0000 && |data| == 2 * n && !WordArea(device).Nowhere?
    ensures var r := Respond(m, Request(routing, WRITE, 0, start, device, n, data));
            && r.mem == WritePoints(m, WordArea(device), start, WordsAtLE(data, n))
            && r.frame == [0xD0, 0x00] + routing + [2, 0, 0, 0]
  {
    hide WritePoints, Request, WordsAtLE, WordArea, WellFormed, Frame, Command, SubCommand, Start, Points;
    DoneFrame(Request(routing, WRITE, 0, start, device, n, data), routing);
  }

  lemma WordReadEffect(m: Store, routing: seq<Byte>, start: nat, device: Byte, points: Word)
    requires |routing| == 5 && start < 0x100_0000 && !WordArea(device).Nowhere?
    ensures var r := Request(routing, READ, 0, start, device, points, []);
            && Respond(m, r).mem == m
            && Respond(m, r).frame ==
               Frame(r, [0, 0] + LittleEndian(ReadPoints(m, WordArea(device), start, points)))
  {
    hide ReadPoints, Request, LittleEndian, Frame;
  }

  /** Word write, then word read of the same in-range span: the words are in the
      cells with those addresses, and the same bytes come back, the routing echoed
      and the length field right. */
  lemma WordRoundTrip(z: Sizes, m: Store, routing: seq<Byte>, start: nat, device: Byte, n: Word, data: seq<Byte>)
    requires Covers(z, m) && |routing| == 5 && McWire.WordDevice(device) != ""
    requires |data| == 2 * n && start + n <= 1024
    ensures var w := Respond(m, Request(routing, WRITE, 0, start, device, n, data));
            && w.frame == [0xD0, 0x00] + routing + [2, 0, 0, 0]
            && (forall i | 0 <= i < n ::
                  Read(w.mem, Address.Named(McWire.WordDevice(device) + Text.Decimal(start + i))) ==
                  data[2 * i] as int + 0x100 * data[2 * i + 1] as int)
            && Respond(w.mem, Request(routing, READ, 0, start, device, n, [])).frame ==
               [0xD0, 0x00] + routing + [Low(2 + 2 * n), High(2 + 2 * n), 0, 0] + data
  {
    hide Respond, Request, WritePoints, ReadPoints, WordArea, Covers, SizeOf, Frame, Low, High, WordsAtLE, LittleEndian,
      McWire.WordDevice, Address.Named, Text.Decimal, Read;
    McWire.WordPoints(device, 0);
    AreaSizes(z, device);
    WordsLand(z, m, start, device, WordsAtLE(data, n), data);
    WordWriteEffect(m, routing, start, device, n, data);
    var t := WritePoints(m, WordArea(device), start, WordsAtLE(data, n));
    WordReadEffect(t, routing, start, device, n);
    PointsReadBack(z, m, WordArea(device), start, WordsAtLE(data, n));
    WordsThereAndBack(data, n);
    FrameFields(Request(routing, READ, 0, start, device, n, []), routing, [0, 0] + data);
    Splice([0xD0, 0x00] + routing, Low(2 + 2 * n), High(2 + 2 * n), data);
  }

  lemma WordsLand(z: Sizes, m: Store, start: nat, device: Byte, words: seq<Word>, data: seq<Byte>)
    requires Covers(z, m) && McWire.WordDevice(device) != ""
    requires |data| == 2 * |words| && words == WordsAtLE(data, |words|) && start + |words| <= 1024
    ensures forall i | 0 <= i < |words| ::
              Read(WritePoints(m, WordArea(device), start, words), Address.Named(McWire.WordDevice(device) + Text.Decimal(start + i))) ==
              data[2 * i] as int + 0x100 * data[2 * i + 1] as int
  {
    hide WritePoints, WordArea, Covers, SizeOf, McWire.WordDevice, Text.Decimal, Address.Named, Join;
    McWire.WordPoints(device, 0);
    AreaSizes(z, device);
    PointsReadBack(z, m, WordArea(device), start, words);
    var t := WritePoints(m, WordArea(device), start, words);
    forall i | 0 <= i < |words|
      ensures Read(t, Address.Named(McWire.WordDevice(device) + Text.Decimal(start + i))) ==
              data[2 * i] as int + 0x100 * data[2 * i + 1] as int
    {
      McWire.WordPoints(device, start + i);
      SamePoint(WordArea(device), start, i);
      assert ReadPoints(t, WordArea(device), start, |words|)[i] == words[i];
      HalvesOfWord(0, data[2 * i + 1], data[2 * i]);
    }
  }

  lemma Splice(head: seq<Byte>, low: Byte, high: Byte, data: seq<Byte>)
    ensures head + [low, high] + ([0, 0] + data) == head + [low, high, 0, 0] + data
  {
  }

  /** The packed bits of `n` points in normal form: 1 for any non-zero half byte,
      an unused last half 0. */
  function Normal(data: seq<Byte>, n: nat): seq<Byte>
    requires |data| == (n + 1) / 2
  {
    PackNibbles(NibblesAt(data, n), |data|)
  }

  lemma NormalIs(data: seq<Byte>, n: nat)
    requires |data| == (n + 1) / 2
    ensures Normal(data, n) == PackNibbles(NibblesAt(data, n), |data|)
  {
  }

  lemma BitWriteEffect(m: Store, routing: seq<Byte>, start: nat, device: Byte, points: Word, data: seq<Byte>)
    requires |routing| == 5 && start < 0x100_0000 && |data| == (points + 1) / 2
    requires !BitArea(device).Nowhere?
    ensures var r := Request(routing, WRITE, 1, start, device, points, data);
            && Respond(m, r).mem == WritePoints(m, BitArea(device), start, NibblesAt(data, points))
            && Respond(m, r).frame == [0xD0, 0x00] + routing + [2, 0, 0, 0]
  {
    hide WritePoints, Request, NibblesAt, BitArea, WellFormed, Frame, Command, SubCommand, Start, Points;
    DoneFrame(Request(routing, WRITE, 1, start, device, points, data), routing);
  }

  lemma BitReadEffect(m: Store, routing: seq<Byte>, start: nat, device: Byte, points: Word)
    requires |routing| == 5 && start < 0x100_0000 && !BitArea(device).Nowhere?
    ensures var r := Request(routing, READ, 1, start, device, points, []);
            && Respond(m, r).mem == m
            && Respond(m, r).frame ==
               Frame(r, [0, 0] + PackNibbles(ReadPoints(m, BitArea(device), start, points), (points + 1) / 2))
  {
    hide ReadPoints, Request, PackNibbles, Frame;
  }

  /** Bit write, then bit read of the same in-range span, for any number of
      points: the bits come back in normal form. */
  lemma BitRoundTrip(z: Sizes, m: Store, routing: seq<Byte>, start: nat, device: Byte, points: Word, data: seq<Byte>)
    requires Covers(z, m) && |routing| == 5 && McWire.BitDevice(device) != ""
    requires |data| == (points + 1) / 2 && start + points <= 2048
    ensures var w := Respond(m, Request(routing, WRITE, 1, start, device, points, data));
            && w.frame == [0xD0, 0x00] + routing + [2, 0, 0, 0]
            && (forall i | 0 <= i < points ::
                  Read(w.mem, Address.Named(McWire.BitDevice(device) + Text.Decimal(start + i))) ==
                  if (if i % 2 == 0 then 0x10 <= data[i / 2] else data[i / 2] % 0x10 != 0) then 1 else 0)
            && Respond(w.mem, Request(routing, READ, 1, start, device, points, [])).frame ==
               [0xD0, 0x00] + routing + [Low(2 + |data|), High(2 + |data|), 0, 0] + Normal(data, points)
  {
    hide Respond, Request, WritePoints, ReadPoints, BitArea, Covers, SizeOf, PackNibbles, Frame, Low, High, NibblesAt,
      Kept, Normal, Number, ToWord, McWire.BitDevice, Address.Named, Text.Decimal, Read;
    McWire.BitPoints(device, 0);
    AreaSizes(z, device);
    BitsLand(z, m, start, device, NibblesAt(data, points), data);
    BitWriteEffect(m, routing, start, device, points, data);
    var bits, area := NibblesAt(data, points), BitArea(device);
    var t, back := WritePoints(m, area, start, bits), Normal(data, points);
    BitsAreKept(area, data, points);
    PointsReadBack(z, m, area, start, bits);
    NormalIs(data, points);
    BitReadEffect(t, routing, start, device, points);
    var r := Request(routing, READ, 1, start, device, points, []);
    assert Respond(t, r).frame == Frame(r, [0, 0] + back);
    FrameFields(r, routing, [0, 0] + back);
    Splice([0xD0, 0x00] + routing, Low(2 + |data|), High(2 + |data|), back);
  }

  lemma BitsLand(z: Sizes, m: Store, start: nat, device: Byte, bits: seq<Word>, data: seq<Byte>)
    requires Covers(z, m) && McWire.BitDevice(device) != ""
    requires |data| == (|bits| + 1) / 2 && bits == NibblesAt(data, |bits|) && start + |bits| <= 2048
    ensures forall i | 0 <= i < |bits| ::
              Read(WritePoints(m, BitArea(device), start, bits), Address.Named(McWire.BitDevice(device) + Text.Decimal(start + i))) ==
              if (if i % 2 == 0 then 0x10 <= data[i / 2] else data[i / 2] % 0x10 != 0) then 1 else 0
  {
    hide WritePoints, BitArea, Covers, SizeOf, McWire.BitDevice, Text.Decimal, Address.Named, Kept;
    McWire.BitPoints(device, 0);
    AreaSizes(z, device);
    BitsAreKept(BitArea(device), data, |bits|);
    PointsReadBack(z, m, BitArea(device), start, bits);
    var t := WritePoints(m, BitArea(device), start, bits);
    forall i | 0 <= i < |bits|
      ensures Read(t, Address.Named(McWire.BitDevice(device) + Text.Decimal(start + i))) ==
              if (if i % 2 == 0 then 0x10 <= data[i / 2] else data[i / 2] % 0x10 != 0) then 1 else 0
    {
      McWire.BitPoints(device, start + i);
      SamePoint(BitArea(device), start, i);
      assert ReadPoints(t, BitArea(device), start, |bits|)[i] == bits[i] == NibbleAt(data, i);
    }
  }

  lemma BitsAreKept(area: Area, data: seq<Byte>, n: nat)
    requires IsBit(area) && (n + 1) / 2 <= |data|
    ensures forall i | 0 <= i < n :: Kept(area, NibblesAt(data, n)[i]) == NibblesAt(data, n)[i]
  {
  }

  /** Normal form changes nothing in data that is already 0s and 1s per half. */
  lemma NormalKeepsBits(data: seq<Byte>, n: nat)
    requires |data| == (n + 1) / 2
    requires forall k | 0 <= k < |data| :: data[k] in {0x00, 0x01, 0x10, 0x11}
    requires n % 2 == 1 ==> data[|data| - 1] in {0x00, 0x10}
    ensures Normal(data, n) == data
  {
    forall k | 0 <= k < |data| ensures Normal(data, n)[k] == data[k] {
      NormalKeepsByte(data, n, k);
    }
  }

  lemma NormalKeepsByte(data: seq<Byte>, n: nat, k: nat)
    requires |data| == (n + 1) / 2 && k < |data| && data[k] in {0x00, 0x01, 0x10, 0x11}
    requires n % 2 == 1 && k == |data| - 1 ==> data[k] in {0x00, 0x10}
    ensures Normal(data, n)[k] == data[k]
  {
    var bits, b := NibblesAt(data, n), data[k];
    assert 2 * k / 2 == k && 2 * k % 2 == 0 && (2 * k + 1) / 2 == k && (2 * k + 1) % 2 == 1;
    assert bits[2 * k] == if b / 0x10 != 0 then 1 else 0;
    if 2 * k + 1 < n {
      assert bits[2 * k + 1] == if b % 0x10 != 0 then 1 else 0;
    }
    assert Normal(data, n)[k] == Nibbles(bits, k);
  }

  /** The 16-bit length field of a word read tells the truth exactly up to 32766
      points. */
  lemma LengthFieldExact(m: Store, routing: seq<Byte>, start: nat, device: Byte, points: Word)
    requires |routing| == 5 && start < 0x100_0000 && !WordArea(device).Nowhere?
    ensures var f := Respond(m, Request(routing, READ, 0, start, device, points, [])).frame;
            && |f| >= 9 && f[2..7] == routing
            && (WordAtLE(f, 7) == |f| - 9 <==> points <= 32766)
  {
    hide Request, Respond, ReadPoints, LittleEndian, Frame, WordAtLE, ToWord;
    WordReadEffect(m, routing, start, device, points);
    LengthField(Request(routing, READ, 0, start, device, points, []), routing,
                [0, 0] + LittleEndian(ReadPoints(m, WordArea(device), start, points)));
    FitsExactly(2 + 2 * points);
  }

  lemma FitsExactly(n: nat)
    ensures ToWord(n) == n <==> n < 0x1_0000
  {
  }

  lemma LengthField(request: seq<Byte>, routing: seq<Byte>, data: seq<Byte>)
    requires 21 <= |request| && request[2..7] == routing
    ensures var f := Frame(request, data);
            |f| == 9 + |data| && f[2..7] == routing && WordAtLE(f, 7) == ToWord(|data|)
  {
    SplitJoins(ToWord(|data|));
  }

  /** A request changes cells of its own area only, a refused one and a read
      change none. */
  lemma OnlyItsAreaChanges(m: Store, request: seq<Byte>)
    ensures var r := Respond(m, request);
            && r.mem.Keys == m.Keys && (WellFormed(m) ==> WellFormed(r.mem))
            && (IsError(r.frame) || |request| < 21 || Command(request) == READ ==> r.mem == m)
            && forall c | c in m && (|request| < 21 || c.area != (if SubCommand(request) == 0 then WordArea(request[18]) else BitArea(request[18]))) ::
                 r.mem[c] == m[c]
  {
    hide WordsAtLE, NibblesAt, RespondRead;
  }

  /** The cells of `n` points from `start` on. */
  function Targets(area: Area, start: nat, n: nat): set<Cell> {
    if n == 0 then {} else Targets(area, start, n - 1) + {PointCell(area, start, n - 1)}
  }

  /** Nothing but the addressed points is written. */
  lemma {:induction false} PointsAlone(m: Store, area: Area, start: nat, values: seq<Word>, c: Cell)
    requires c in m && c !in Targets(area, start, |values|)
    ensures WritePoints(m, area, start, values)[c] == m[c]
  {
    if values != [] {
      var k := |values| - 1;
      PointsAlone(m, area, start, values[..k], c);
    }
  }

  /** ... and of its area only the points it addresses, wherever they lie. */
  lemma OnlyItsPointsChange(m: Store, request: seq<Byte>, c: Cell)
    requires 21 <= |request| && c in m
    requires var area := if SubCommand(request) == 0 then WordArea(request[18]) else BitArea(request[18]);
             c !in Targets(area, Start(request), Points(request))
    ensures Respond(m, request).mem[c] == m[c]
  {
    hide WritePoints, WordsAtLE, NibblesAt, RespondRead, PointCell, Targets, Start, Points, WordArea, BitArea;
    var n, data := Points(request), request[21..];
    if SubCommand(request) == 0 && 2 * n <= |data| {
      PointsAlone(m, WordArea(request[18]), Start(request), WordsAtLE(data, n), c);
    } else if SubCommand(request) == 1 && (n + 1) / 2 <= |data| {
      PointsAlone(m, BitArea(request[18]), Start(request), NibblesAt(data, n), c);
    }
  }
}
