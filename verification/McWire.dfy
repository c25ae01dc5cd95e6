/** The MC request processor byte by byte: which bytes of a request mean what,
    which cells they are about by their written addresses, and which bytes come
    back. */
module McWire {
  import opened Words
  import opened Text
  import opened Cells
  import opened Address
  import opened Mc

  // Device codes.

  /** How the points of a word device are written, up to the number. */
  function WordDevice(code: Byte): string {
    match code
    case 0xA8 => "MC.D."
    case 0xB4 => "MC.W."
    case 0xAF => "MC.R."
    case 0xB0 => "MC.ZR."
    case 0xA9 => "MC.SD."
    case _ => ""
  }

  function BitDevice(code: Byte): string {
    match code
    case 0x9C => "MC.X."
    case 0x9D => "MC.Y."
    case 0x90 => "MC.M."
    case 0x92 => "MC.L."
    case 0xA0 => "MC.B."
    case 0x93 => "MC.F."
    case 0x91 => "MC.SM."
    case _ => ""
  }

  /** A device code stands for the points that are written that way. */
  lemma WordPoints(code: Byte, n: Word)
    ensures WordDevice(code) == "" <==> WordArea(code).Nowhere?
    ensures WordDevice(code) != "" ==> Named(WordDevice(code) + Decimal(n)) == Cell(WordArea(code), n)
  {
    hide Named, Parse;
    McWordAddresses(n);
    McWordFileAddresses(n);
  }

  lemma BitPoints(code: Byte, n: Word)
    ensures BitDevice(code) == "" <==> BitArea(code).Nowhere?
    ensures BitDevice(code) != "" ==> Named(BitDevice(code) + Decimal(n)) == Cell(BitArea(code), n)
  {
    hide Named, Parse;
    McBitAddresses(n);
  }

  // Fields.

  function First(request: seq<Byte>): nat
    requires 21 <= |request|
  {
    request[15] as int + 0x100 * request[16] as int + 0x1_0000 * request[17] as int
  }

  function Count(request: seq<Byte>): nat
    requires 21 <= |request|
  {
    request[19] as int + 0x100 * request[20] as int
  }

  /** The address of point `i`: 16 bits of the sum. */
  function Point(request: seq<Byte>, i: nat): Word
    requires 21 <= |request|
  {
    (First(request) + i) % 0x1_0000
  }

  function Shown(m: Store, c: Cell): Word {
    if c in m then m[c] else 0
  }

  predicate Asks(request: seq<Byte>, a: Byte, b: Byte, c: Byte, d: Byte) {
    21 <= |request| && request[11..15] == [a, b, c, d]
  }

  lemma Fields(request: seq<Byte>, i: nat)
    requires 21 <= |request|
    ensures Command(request) == request[11] as int + 0x100 * request[12] as int
    ensures SubCommand(request) == request[13] as int + 0x100 * request[14] as int
    ensures Start(request) == First(request) && Points(request) == Count(request)
    ensures ToWord(Start(request) + i) == Point(request, i)
  {
    HalvesOfWord(0, request[12], request[11]);
    HalvesOfWord(0, request[14], request[13]);
    HalvesOfWord(0, request[20], request[19]);
    ThreeBytes(request[15..18]);
  }

  /** A good answer: subheader, routing, the length, end code 0, the data. */
  ghost predicate Answers(frame: seq<Byte>, request: seq<Byte>, data: seq<Byte>)
    requires 21 <= |request|
  {
    && |frame| == 11 + |data|
    && frame[0] == 0xD0 && frame[1] == 0 && frame[2..7] == request[2..7]
    && (2 + |data| < 0x1_0000 ==> frame[7] as int + 0x100 * frame[8] as int == 2 + |data|)
    && frame[9] == frame[10] == 0 && frame[11..] == data
  }

  lemma FrameAnswers(request: seq<Byte>, data: seq<Byte>)
    requires 21 <= |request|
    ensures Answers(Frame(request, [0, 0] + data), request, data)
  {
    var f, n := Frame(request, [0, 0] + data), ToWord(2 + |data|);
    var k, l := Truncation(2 + |data|);
    HalvesOfWord(n, High(n), Low(n));
    hide High, Low, ToWord;
    FrameBytes(request, [0, 0] + data);
    hide Frame;
    var head := [0xD0, 0x00, request[2], request[3], request[4], request[5], request[6], Low(n), High(n)];
    assert f == head + ([0, 0] + data) && f[..9] == head && f[11..] == data;
    assert f[2..7] == head[2..7] == request[2..7];
  }

  /** Words as they lie in a frame, low byte first. */
  ghost predicate Carries(data: seq<Byte>, words: seq<Word>) {
    && |data| == 2 * |words|
    && forall i | 0 <= i < |words| :: data[2 * i] as int + 0x100 * data[2 * i + 1] as int == words[i]
  }

  lemma WordsCarried(words: seq<Word>)
    ensures Carries(LittleEndian(words), words)
  {
    hide High, Low;
    var s := LittleEndian(words);
    forall i | 0 <= i < |words| ensures s[2 * i] as int + 0x100 * s[2 * i + 1] as int == words[i] {
      SplitJoins(words[i]);
      HalvesOfWord(words[i], s[2 * i + 1], s[2 * i]);
    }
  }

  // Reading.

  function WordsShown(m: Store, request: seq<Byte>): (s: seq<Word>)
    requires 21 <= |request|
    ensures |s| == Count(request)
  {
    seq<Word>(Count(request), i requires 0 <= i < Count(request) =>
      Shown(m, Named(WordDevice(request[18]) + Decimal(Point(request, i)))))
  }

  function BitsShown(m: Store, request: seq<Byte>): (s: seq<Word>)
    requires 21 <= |request|
    ensures |s| == Count(request)
  {
    seq<Word>(Count(request), i requires 0 <= i < Count(request) =>
      Shown(m, Named(BitDevice(request[18]) + Decimal(Point(request, i)))))
  }

  /** Command 0x0401, subcommand 0: the words at the addresses, in order. */
  lemma WordsAreRead(m: Store, request: seq<Byte>) returns (data: seq<Byte>)
    requires Asks(request, 0x01, 0x04, 0, 0) && WordDevice(request[18]) != ""
    ensures Respond(m, request).mem == m && Answers(Respond(m, request).frame, request, data)
    ensures Carries(data, WordsShown(m, request))
  {
    hide Frame, LittleEndian, Named, WordDevice, WordArea, Decimal, Start, Points, Command, SubCommand, Answers, Carries;
    WordPoints(request[18], 0);
    Fields(request, 0);
    var words := ReadPoints(m, WordArea(request[18]), Start(request), Points(request));
    forall i | 0 <= i < Count(request) ensures words[i] == WordsShown(m, request)[i] {
      Fields(request, i);
      WordPoints(request[18], Point(request, i));
    }
    assert words == WordsShown(m, request);
    data := LittleEndian(words);
    WordsCarried(words);
    FrameAnswers(request, data);
    assert request[11] == request[11..15][0] && request[12] == request[11..15][1];
    assert request[13] == request[11..15][2] && request[14] == request[11..15][3];
  }

  /** Two points to a byte, the first in the upper half, an unused half 0. */
  ghost predicate Packs(data: seq<Byte>, bits: seq<Word>) {
    && |data| == (|bits| + 1) / 2
    && forall k | 0 <= k < |data| ::
         data[k] == (if bits[2 * k] != 0 then 0x10 else 0) + (if 2 * k + 1 < |bits| && bits[2 * k + 1] != 0 then 1 else 0)
  }

  lemma BitsPacked(bits: seq<Word>)
    ensures Packs(PackNibbles(bits, (|bits| + 1) / 2), bits)
  {
  }

  /** Command 0x0401, subcommand 1: the bits at the addresses. */
  lemma BitsAreRead(m: Store, request: seq<Byte>) returns (data: seq<Byte>)
    requires Asks(request, 0x01, 0x04, 1, 0) && BitDevice(request[18]) != ""
    ensures Respond(m, request).mem == m && Answers(Respond(m, request).frame, request, data)
    ensures Packs(data, BitsShown(m, request))
  {
    hide Frame, PackNibbles, Named, BitDevice, BitArea, Decimal, Start, Points, Command, SubCommand, Answers, Packs;
    BitPoints(request[18], 0);
    Fields(request, 0);
    var bits := ReadPoints(m, BitArea(request[18]), Start(request), Points(request));
    forall i | 0 <= i < Count(request) ensures bits[i] == BitsShown(m, request)[i] {
      Fields(request, i);
      BitPoints(request[18], Point(request, i));
    }
    assert bits == BitsShown(m, request);
    data := PackNibbles(bits, (|bits| + 1) / 2);
    BitsPacked(bits);
    FrameAnswers(request, data);
    assert request[11] == request[11..15][0] && request[12] == request[11..15][1];
    assert request[13] == request[11..15][2] && request[14] == request[11..15][3];
  }

  // Writing.

  /** The values are at the addresses and nowhere else anything has changed. */
  ghost predicate Stored(m: Store, t: Store, request: seq<Byte>, device: string, values: seq<Word>)
    requires 21 <= |request|
  {
    && t.Keys == m.Keys
    && (forall i | 0 <= i < |values| ::
          var c := Named(device + Decimal(Point(request, i))); c in m ==> t[c] == values[i])
    && forall c | c in m && forall i | 0 <= i < |values| :: Named(device + Decimal(Point(request, i))) != c ::
         t[c] == m[c]
  }

  lemma PointsApart(start: nat, i: nat, k: nat)
    requires i < k < 0x1_0000
    ensures ToWord(start + i) != ToWord(start + k)
  {
  }

  lemma {:induction false} PointsLand(m: Store, area: Area, start: nat, values: seq<Word>, i: nat)
    requires i < |values| <= 0x1_0000 && PointCell(area, start, i) in m
    requires forall j | 0 <= j < |values| && IsBit(area) :: values[j] <= 1
    ensures WritePoints(m, area, start, values)[PointCell(area, start, i)] == values[i]
  {
    hide ToWord;
    var k := |values| - 1;
    if i < k {
      PointsLand(m, area, start, values[..k], i);
      PointsApart(start, i, k);
    }
  }

  lemma {:induction false} PointsSpare(m: Store, area: Area, start: nat, values: seq<Word>, c: Cell)
    requires c in m && forall i | 0 <= i < |values| :: PointCell(area, start, i) != c
    ensures WritePoints(m, area, start, values)[c] == m[c]
  {
    hide ToWord;
    if values != [] {
      var k := |values| - 1;
      PointsSpare(m, area, start, values[..k], c);
      assert PointCell(area, start, k) != c;
    }
  }

  lemma PointsStored(m: Store, request: seq<Byte>, device: string, area: Area, values: seq<Word>)
    requires 21 <= |request| && |values| == Count(request)
    requires forall j | 0 <= j < |values| && IsBit(area) :: values[j] <= 1
    requires forall n: Word :: Named(device + Decimal(n)) == Cell(area, n)
    ensures Stored(m, WritePoints(m, area, Start(request), values), request, device, values)
  {
    hide Named, Decimal, WritePoints, Start, ToWord, IsBit;
    forall i | 0 <= i < |values|
      ensures Named(device + Decimal(Point(request, i))) == PointCell(area, Start(request), i)
    {
      Fields(request, i);
    }
    forall i | 0 <= i < |values| && PointCell(area, Start(request), i) in m
      ensures WritePoints(m, area, Start(request), values)[PointCell(area, Start(request), i)] == values[i]
    {
      PointsLand(m, area, Start(request), values, i);
    }
    forall c | c in m && forall i | 0 <= i < |values| :: Named(device + Decimal(Point(request, i))) != c
      ensures WritePoints(m, area, Start(request), values)[c] == m[c]
    {
      PointsSpare(m, area, Start(request), values, c);
    }
  }

  /** The words behind the 21 bytes, low byte first. */
  function WordsSent(request: seq<Byte>): (s: seq<Word>)
    requires 21 <= |request| && 21 + 2 * Count(request) <= |request|
    ensures |s| == Count(request)
  {
    seq<Word>(Count(request), i requires 0 <= i < Count(request) =>
      request[21 + 2 * i] as int + 0x100 * request[22 + 2 * i] as int)
  }

  /** The bits, two to a byte: anything but 0 in a half is a 1. */
  function BitsSent(request: seq<Byte>): (s: seq<Word>)
    requires 21 <= |request| && 21 + (Count(request) + 1) / 2 <= |request|
    ensures |s| == Count(request)
  {
    seq<Word>(Count(request), i requires 0 <= i < Count(request) =>
      if (if i % 2 == 0 then 0x10 <= request[21 + i / 2] else request[21 + i / 2] % 0x10 != 0) then 1 else 0)
  }

  /** Refused: a fixed frame with the end code, and nothing written. */
  ghost predicate Refuses(m: Store, request: seq<Byte>, low: Byte, high: Byte) {
    Respond(m, request) == Reply([0xD0, 0x00, 0x00, 0xFF, 0xFF, 0x03, 0x00, 2, 0, low, high], m)
  }

  lemma EndCodes()
    ensures Low(BAD_FORMAT) == 0x51 && High(BAD_FORMAT) == 0xC0
    ensures Low(BAD_DEVICE) == 0x5C && High(BAD_DEVICE) == 0xC0
  {
    HalvesOfWord(BAD_FORMAT, 0, 0);
    HalvesOfWord(BAD_DEVICE, 0, 0);
  }

  /** Command 0x1401, subcommand 0. */
  lemma WordsAreWritten(m: Store, request: seq<Byte>)
    requires Asks(request, 0x01, 0x14, 0, 0) && WordDevice(request[18]) != ""
    ensures if |request| < 21 + 2 * Count(request) then Refuses(m, request, 0x51, 0xC0)
            else Answers(Respond(m, request).frame, request, [])
                 && Stored(m, Respond(m, request).mem, request, WordDevice(request[18]), WordsSent(request))
  {
    hide Frame, WordsAtLE, Named, WordDevice, WordArea, Decimal, Start, Points, Command, SubCommand, Answers, Stored, WritePoints, Low, High;
    Fields(request, 0);
    assert request[11] == request[11..15][0] && request[12] == request[11..15][1];
    assert request[13] == request[11..15][2] && request[14] == request[11..15][3];
    EndCodes();
    forall n: Word ensures Named(WordDevice(request[18]) + Decimal(n)) == Cell(WordArea(request[18]), n) {
      WordPoints(request[18], n);
    }
    WordPoints(request[18], 0);
    if 21 + 2 * Count(request) <= |request| {
      var words := WordsAtLE(request[21..], Count(request));
      WordsAtAreSent(request);
      PlainWords(request[18]);
      PointsStored(m, request, WordDevice(request[18]), WordArea(request[18]), words);
      FrameAnswers(request, []);
      assert [0, 0] + [] == [0, 0];
    }
  }

  lemma PlainWords(code: Byte)
    ensures !IsBit(WordArea(code)) || WordArea(code).Nowhere?
  {
  }

  lemma WordsAtAreSent(request: seq<Byte>)
    requires 21 <= |request| && 21 + 2 * Count(request) <= |request|
    ensures WordsAtLE(request[21..], Count(request)) == WordsSent(request)
  {
    forall i | 0 <= i < Count(request) ensures WordAtLE(request[21..], 2 * i) == WordsSent(request)[i] {
      HalvesOfWord(0, request[22 + 2 * i], request[21 + 2 * i]);
    }
  }

  lemma NibblesAtAreSent(request: seq<Byte>)
    requires 21 <= |request| && 21 + (Count(request) + 1) / 2 <= |request|
    ensures NibblesAt(request[21..], Count(request)) == BitsSent(request)
  {
  }

  /** Command 0x1401, subcommand 1. */
  lemma BitsAreWritten(m: Store, request: seq<Byte>)
    requires Asks(request, 0x01, 0x14, 1, 0) && BitDevice(request[18]) != ""
    ensures if |request| < 21 + (Count(request) + 1) / 2 then Refuses(m, request, 0x51, 0xC0)
            else Answers(Respond(m, request).frame, request, [])
                 && Stored(m, Respond(m, request).mem, request, BitDevice(request[18]), BitsSent(request))
  {
    hide Frame, NibblesAt, Named, BitDevice, BitArea, Decimal, Start, Points, Command, SubCommand, Answers, Stored, WritePoints, Low, High;
    Fields(request, 0);
    assert request[11] == request[11..15][0] && request[12] == request[11..15][1];
    assert request[13] == request[11..15][2] && request[14] == request[11..15][3];
    EndCodes();
    forall n: Word ensures Named(BitDevice(request[18]) + Decimal(n)) == Cell(BitArea(request[18]), n) {
      BitPoints(request[18], n);
    }
    BitPoints(request[18], 0);
    if 21 + (Count(request) + 1) / 2 <= |request| {
      NibblesAtAreSent(request);
      PointsStored(m, request, BitDevice(request[18]), BitArea(request[18]), BitsSent(request));
      FrameAnswers(request, []);
      assert [0, 0] + [] == [0, 0];
    }
  }

  /** What is refused, and with which end code: 0xC051 for a short frame, a
      command other than 0x0401 and 0x1401 or a subcommand other than 0 and 1,
      0xC05C for a device code that the subcommand has no device for. */
  lemma OthersAreRefused(m: Store, request: seq<Byte>)
    ensures |request| < 21 ==> Refuses(m, request, 0x51, 0xC0)
    ensures 21 <= |request| ==>
              var read, write := request[11..13] == [0x01, 0x04], request[11..13] == [0x01, 0x14];
              var word, bit := request[13..15] == [0, 0], request[13..15] == [1, 0];
              && (!(read || write) || !(word || bit) ==> Refuses(m, request, 0x51, 0xC0))
              && ((read || write) && ((word && WordDevice(request[18]) == "") || (bit && BitDevice(request[18]) == "")) ==>
                    Refuses(m, request, 0x5C, 0xC0))
  {
    hide Frame, WordDevice, BitDevice, WordArea, BitArea, Start, Points, WritePoints, Low, High;
    EndCodes();
    if 21 <= |request| {
      Fields(request, 0);
      WordPoints(request[18], 0);
      BitPoints(request[18], 0);
      assert request[11] == request[11..13][0] && request[12] == request[11..13][1];
      assert request[13] == request[13..15][0] && request[14] == request[13..15][1];
      assert request[11..13] == [request[11], request[12]] && request[13..15] == [request[13], request[14]];
    }
  }
}
