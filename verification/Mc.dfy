/** The MELSEC MC 3E request processor. */
module Mc {
  import opened Words
  import opened Bits
  import opened Cells
  import opened Memory

  function LittleEndian(ws: seq<Word>): (s: seq<Byte>)
    ensures |s| == 2 * |ws|
    ensures forall i | 0 <= i < |ws| :: s[2 * i] == Low(ws[i]) && s[2 * i + 1] == High(ws[i])
  {
    if ws == [] then []
    else
      var k := |ws| - 1;
      LittleEndian(ws[..k]) + [Low(ws[k]), High(ws[k])]
  }

  function WordAtLE(s: seq<Byte>, i: nat): Word
    requires i + 1 < |s|
  {
    Join(s[i + 1], s[i])
  }

  /** `Nowhere` stands for the empty name. */
  function WordArea(code: Byte): Area {
    match code
    case 0xA8 => McD
    case 0xB4 => McW
    case 0xAF => McR
    case 0xB0 => McZR
    case 0xA9 => McSD
    case _ => Nowhere
  }

  function BitArea(code: Byte): Area {
    match code
    case 0x9C => McX
    case 0x9D => McY
    case 0x90 => McM
    case 0x92 => McL
    case 0xA0 => McB
    case 0x93 => McF
    case 0x91 => McSM
    case _ => Nowhere
  }

  /** Addresses are cut to 16 bits point by point. */
  function PointCell(area: Area, start: nat, i: nat): Cell {
    Cell(area, ToWord(start + i))
  }

  function ReadPoints(m: Store, area: Area, start: nat, n: nat): (s: seq<Word>)
    ensures |s| == n
  {
    seq<Word>(n, i requires 0 <= i < n => Read(m, PointCell(area, start, i)))
  }

  function WritePoints(m: Store, area: Area, start: nat, values: seq<Word>): (t: Store)
    ensures t.Keys == m.Keys && (WellFormed(m) ==> WellFormed(t))
    ensures forall c | c in m && c.area != area :: t[c] == m[c]
  {
    if values == [] then m
    else
      var k := |values| - 1;
      Write(WritePoints(m, area, start, values[..k]), PointCell(area, start, k), values[k])
  }

  /** Two points to a byte, the first in the upper half. */
  function Nibbles(bits: seq<Word>, k: nat): Byte {
    (if 2 * k < |bits| && bits[2 * k] != 0 then 0x10 else 0)
    + (if 2 * k + 1 < |bits| && bits[2 * k + 1] != 0 then 0x01 else 0)
  }

  /** The first `n` bytes of the packing of `bits`, 0 where there are no more. */
  function PackNibbles(bits: seq<Word>, n: nat): (s: seq<Byte>)
    ensures |s| == n
  {
    seq<Byte>(n, k requires 0 <= k < n => Nibbles(bits, k))
  }

  /** The i-th point of packed data. */
  function NibbleAt(data: seq<Byte>, i: nat): Word
    requires i / 2 < |data|
  {
    var b := data[i / 2];
    if (if i % 2 == 0 then b / 0x10 else b % 0x10) != 0 then 1 else 0
  }

  function NibblesAt(data: seq<Byte>, n: nat): (s: seq<Word>)
    requires (n + 1) / 2 <= |data|
    ensures |s| == n
  {
    seq<Word>(n, i requires 0 <= i < n => NibbleAt(data, i))
  }

  function WordsAtLE(data: seq<Byte>, n: nat): (s: seq<Word>)
    requires 2 * n <= |data|
    ensures |s| == n
  {
    seq<Word>(n, i requires 0 <= i < n => WordAtLE(data, 2 * i))
  }

  datatype Reply = Reply(frame: seq<Byte>, mem: Store)

  const BAD_FORMAT: Word := 0xC051
  const BAD_DEVICE: Word := 0xC05C

  function ErrorFrame(code: Word): seq<Byte> {
    [0xD0, 0x00, 0x00, 0xFF, 0xFF, 0x03, 0x00, 2, 0, Low(code), High(code)]
  }

  /** A frame with the routing of the request; the length field is 16 bits. */
  function Frame(request: seq<Byte>, data: seq<Byte>): seq<Byte>
    requires 21 <= |request|
  {
    [0xD0, 0x00] + request[2..7] + [Low(ToWord(|data|)), High(ToWord(|data|))] + data
  }

  const READ: Word := 0x0401
  const WRITE: Word := 0x1401

  function Command(request: seq<Byte>): Word
    requires 21 <= |request|
  {
    WordAtLE(request, 11)
  }

  function SubCommand(request: seq<Byte>): Word
    requires 21 <= |request|
  {
    WordAtLE(request, 13)
  }

  /** Bytes as a number, the lowest first. */
  function Number(s: seq<Byte>): nat {
    if s == [] then 0 else s[0] + 0x100 * Number(s[1..])
  }

  /** A 24-bit address. */
  function Start(request: seq<Byte>): nat
    requires 21 <= |request|
  {
    Number(request[15..18])
  }

  lemma ThreeBytes(s: seq<Byte>)
    requires |s| == 3
    ensures Number(s) == s[0] as int + 0x100 * s[1] as int + 0x1_0000 * s[2] as int
  {
    assert Number(s[1..][1..]) == s[2] + 0x100 * Number([]);
  }

  function Points(request: seq<Byte>): Word
    requires 21 <= |request|
  {
    WordAtLE(request, 19)
  }

  function RespondRead(m: Store, request: seq<Byte>): seq<Byte>
    requires 21 <= |request|
  {
    var start, points := Start(request), Points(request);
    if SubCommand(request) == 0 then
      var area := WordArea(request[18]);
      if area.Nowhere? then ErrorFrame(BAD_DEVICE)
      else Frame(request, [0, 0] + LittleEndian(ReadPoints(m, area, start, points)))
    else if SubCommand(request) == 1 then
      var area := BitArea(request[18]);
      if area.Nowhere? then ErrorFrame(BAD_DEVICE)
      else Frame(request, [0, 0] + PackNibbles(ReadPoints(m, area, start, points), (points + 1) / 2))
    else ErrorFrame(BAD_FORMAT)
  }

  function RespondWrite(m: Store, request: seq<Byte>): Reply
    requires 21 <= |request|
  {
    var start, points, data := Start(request), Points(request), request[21..];
    if SubCommand(request) == 0 then
      var area := WordArea(request[18]);
      if area.Nowhere? then Reply(ErrorFrame(BAD_DEVICE), m)
      else if |data| < 2 * points then Reply(ErrorFrame(BAD_FORMAT), m)
      else Reply(Frame(request, [0, 0]), WritePoints(m, area, start, WordsAtLE(data, points)))
    else if SubCommand(request) == 1 then
      var area := BitArea(request[18]);
      if area.Nowhere? then Reply(ErrorFrame(BAD_DEVICE), m)
      else if |data| < (points + 1) / 2 then Reply(ErrorFrame(BAD_FORMAT), m)
      else Reply(Frame(request, [0, 0]), WritePoints(m, area, start, NibblesAt(data, points)))
    else Reply(ErrorFrame(BAD_FORMAT), m)
  }

  function Respond(m: Store, request: seq<Byte>): Reply {
    if |request| < 21 then Reply(ErrorFrame(BAD_FORMAT), m)
    else if Command(request) == READ then Reply(RespondRead(m, request), m)
    else if Command(request) == WRITE then RespondWrite(m, request)
    else Reply(ErrorFrame(BAD_FORMAT), m)
  }

  lemma WritePointsStep(m: Store, area: Area, start: nat, values: seq<Word>, k: nat)
    requires k < |values|
    ensures WritePoints(m, area, start, values[..k + 1]) ==
            Write(WritePoints(m, area, start, values[..k]), PointCell(area, start, k), values[k])
  {
    assert values[..k + 1][..k] == values[..k];
  }

  lemma NoPoints(m: Store, area: Area, start: nat)
    ensures WritePoints(m, area, start, []) == m
  {
  }

  /** The halves of a byte set one after the other. */
  lemma SetHalves()
    ensures SetBit(0, 4) == 0x10 && SetBit(0x10, 0) == 0x11 && SetBit(0, 0) == 0x01
  {
    assert SetBit(2, 1) == 2 + 0;
    assert SetBit(0, 2) == 4;
  }

  /** Adding point `i` changes its own byte only, which becomes
      `b | 0x10` or `b | 0x01`. */
  lemma PackNibblesStep(bits: seq<Word>, i: nat, n: nat)
    requires i < |bits| && |bits| <= 2 * n
    ensures var b := PackNibbles(bits[..i], n)[i / 2];
            && b == (if i % 2 == 1 && bits[i - 1] != 0 then 0x10 else 0)
            && SetBit(b, if i % 2 == 0 then 4 else 0) < 0x100
            && PackNibbles(bits[..i + 1], n) ==
               PackNibbles(bits[..i], n)[i / 2 := if bits[i] != 0 then SetBit(b, if i % 2 == 0 then 4 else 0) else b]
  {
    SetHalves();
  }

  lemma PackNothing(n: nat)
    ensures PackNibbles([], n) == seq<Byte>(n, i => 0)
  {
  }

  lemma FrameBytes(request: seq<Byte>, data: seq<Byte>)
    requires 21 <= |request|
    ensures Frame(request, data) ==
            [0xD0, 0x00, request[2], request[3], request[4], request[5], request[6],
             Low(ToWord(|data|)), High(ToWord(|data|))] + data
  {
    hide Low, High, ToWord;
  }

  class McServer {
    const memory: PlcMemory

    constructor (memory: PlcMemory)
      ensures this.memory == memory
    {
      this.memory := memory;
    }

    method ReadWords(area: Area, start: nat, points: Word) returns (respData: array<Byte>)
      ensures fresh(respData) && respData[..] == [0, 0] + LittleEndian(ReadPoints(memory.cells, area, start, points))
    {
      hide LittleEndian, High, Low, Read;
      respData := new Byte[2 + points * 2](i => 0);
      ghost var words := ReadPoints(memory.cells, area, start, points);
      for i := 0 to points
        invariant respData[0] == respData[1] == 0
        invariant forall j | 0 <= j < i :: respData[2 + 2 * j] == Low(words[j]) && respData[3 + 2 * j] == High(words[j])
      {
        var val := memory.ReadValue(PointCell(area, start, i));
        respData[2 + i * 2] := Low(val);
        respData[2 + i * 2 + 1] := High(val);
      }
      ghost var expected := [0, 0] + LittleEndian(words);
      forall j | 0 <= j < respData.Length ensures respData[j] == expected[j] {
        if j >= 2 {
          var k := (j - 2) / 2;
          assert expected[2 + 2 * k] == Low(words[k]) && expected[3 + 2 * k] == High(words[k]);
        }
      }
    }

    method ReadBits(area: Area, start: nat, points: Word) returns (respData: array<Byte>)
      ensures fresh(respData) && respData[..] == [0, 0] + PackNibbles(ReadPoints(memory.cells, area, start, points), (points + 1) / 2)
    {
      hide Nibbles, SetBit;
      var bitBytes := (points + 1) / 2;
      respData := new Byte[2 + bitBytes](i => 0);
      ghost var bits := ReadPoints(memory.cells, area, start, points);
      PackNothing(bitBytes);
      assert bits[..0] == [];
      for i := 0 to points
        invariant respData[..] == [0, 0] + PackNibbles(bits[..i], bitBytes)
      {
        PackNibblesStep(bits, i, bitBytes);
        assert respData[2 + i / 2] == respData[..][2 + i / 2] == PackNibbles(bits[..i], bitBytes)[i / 2];
        var val := memory.ReadValue(PointCell(area, start, i));
        var byteIdx := i / 2;
        if val != 0 {
          respData[2 + byteIdx] := SetBit(respData[2 + byteIdx], if i % 2 == 0 then 4 else 0);
        }
      }
      assert bits[..points] == bits;
    }

    method WriteWords(area: Area, start: nat, points: Word, request: seq<Byte>)
      requires memory.Valid() && 21 + 2 * points <= |request|
      modifies memory`cells
      ensures memory.Valid()
      ensures memory.cells == WritePoints(old(memory.cells), area, start, WordsAtLE(request[21..], points))
    {
      hide WritePoints, Write, Covers, WellFormed;
      ghost var words := WordsAtLE(request[21..], points);
      assert words[..0] == [];
      NoPoints(memory.cells, area, start);
      for i := 0 to points
        invariant memory.Valid() && memory.cells == WritePoints(old(memory.cells), area, start, words[..i])
      {
        WritePointsStep(old(memory.cells), area, start, words, i);
        var val := WordAtLE(request, 21 + i * 2);
        memory.WriteValue(PointCell(area, start, i), val);
      }
      assert words[..points] == words;
    }

    method WriteBits(area: Area, start: nat, points: Word, request: seq<Byte>)
      requires memory.Valid() && 21 + (points + 1) / 2 <= |request|
      modifies memory`cells
      ensures memory.Valid()
      ensures memory.cells == WritePoints(old(memory.cells), area, start, NibblesAt(request[21..], points))
    {
      hide WritePoints, Write, Covers, WellFormed;
      ghost var bits := NibblesAt(request[21..], points);
      assert bits[..0] == [];
      NoPoints(memory.cells, area, start);
      for i := 0 to points
        invariant memory.Valid() && memory.cells == WritePoints(old(memory.cells), area, start, bits[..i])
      {
        WritePointsStep(old(memory.cells), area, start, bits, i);
        var byteVal := request[21 + i / 2];
        var bitVal := if i % 2 == 0 then (byteVal / 0x10) % 0x10 != 0 else byteVal % 0x10 != 0;
        memory.WriteValue(PointCell(area, start, i), if bitVal then 1 else 0);
      }
      assert bits[..points] == bits;
    }

    method StartAddress(request: seq<Byte>) returns (start: nat)
      requires 21 <= |request|
      ensures start == Start(request)
    {
      start := request[15] as int + 0x100 * request[16] as int + 0x1_0000 * request[17] as int;
      ThreeBytes(request[15..18]);
    }

    method ProcessRequest(request: seq<Byte>) returns (response: seq<Byte>)
      requires memory.Valid()
      modifies memory`cells
      ensures memory.Valid() && Reply(response, memory.cells) == Respond(old(memory.cells), request)
    {
      hide Frame, High, Low, Join, ToWord, Start, Number, LittleEndian, PackNibbles, ReadPoints, WritePoints, WordsAtLE, NibblesAt, WordArea, BitArea, Covers, WellFormed;
      if |request| < 21 {
        return ErrorFrame(BAD_FORMAT);
      }
      var command, subcommand := Command(request), SubCommand(request);
      var startAddr := StartAddress(request);
      var points := Points(request);
      var respData: array<Byte>;
      if command == READ {
        if subcommand == 0 {
          var area := WordArea(request[18]);
          if area.Nowhere? { return ErrorFrame(BAD_DEVICE); }
          respData := ReadWords(area, startAddr, points);
        } else if subcommand == 1 {
          var area := BitArea(request[18]);
          if area.Nowhere? { return ErrorFrame(BAD_DEVICE); }
          respData := ReadBits(area, startAddr, points);
        } else {
          return ErrorFrame(BAD_FORMAT);
        }
      } else if command == WRITE {
        if subcommand == 0 {
          var area := WordArea(request[18]);
          if area.Nowhere? { return ErrorFrame(BAD_DEVICE); }
          if |request| - 21 < 2 * points as int { return ErrorFrame(BAD_FORMAT); }
          WriteWords(area, startAddr, points, request);
        } else if subcommand == 1 {
          var area := BitArea(request[18]);
          if area.Nowhere? { return ErrorFrame(BAD_DEVICE); }
          if |request| - 21 < (points as int + 1) / 2 { return ErrorFrame(BAD_FORMAT); }
          WriteBits(area, startAddr, points, request);
        } else {
          return ErrorFrame(BAD_FORMAT);
        }
        respData := new Byte[2](i => 0);
        assert respData[..] == [0, 0];
      } else {
        return ErrorFrame(BAD_FORMAT);
      }
      response := [0xD0, 0x00, request[2], request[3], request[4], request[5], request[6],
                   Low(ToWord(respData.Length)), High(ToWord(respData.Length))] + respData[..];
      FrameBytes(request, respData[..]);
    }
  }
}
