/** What an XGT client can rely on. */
module XgtProperties {
  import opened Words
  import opened Text
  import opened Cells
  import opened Xgt
  import Mc
  import McProperties
  import Memory

  function Bytes(s: string): (b: seq<Byte>)
    requires forall c | c in s :: c as int < 0x100
    ensures |b| == |s|
  {
    seq<Byte>(|s|, i requires 0 <= i < |s| => ToByte(s[i] as int))
  }

  lemma CharsOfBytes(s: string)
    requires forall c | c in s :: c as int < 0x100
    ensures Chars(Bytes(s)) == s
  {
    forall i | 0 <= i < |s| ensures Chars(Bytes(s))[i] == s[i] {
      assert s[i] in s;
    }
  }

  /** The name of word `index`. */
  function WordName(index: Word): (s: string)
    ensures 4 <= |s| && forall c | c in s :: c as int < 0x100
  {
    var d := Decimal(index);
    assert |d| > 0 && forall c | c in d :: IsDigit(c);
    "%MW" + d
  }

  lemma ResolveWordName(index: Word)
    ensures Resolve(WordName(index)) == Some(Resolved(LsM, false, index, 0))
  {
    hide Decimal, Stoi;
    StoiOfDecimal(index);
    assert WordName(index)[3..] == Decimal(index);
  }

  /** A bit is named by its byte and its place in it. */
  lemma ResolveBitName(index: Word, sub: Word)
    ensures Resolve("%QX" + (Decimal(index) + ['.'] + Decimal(sub))) == Some(Resolved(LsQ, true, index, sub))
  {
    hide Decimal, Stoi, Split;
    var rest := Decimal(index) + ['.'] + Decimal(sub);
    var name := "%QX" + rest;
    assert name[3..] == rest && Decimal(index) != "" && Decimal(sub) != "";
    assert !IsDigit('.');
    SplitFirst(Decimal(index), Decimal(sub), '.');
    NoDelimiter(Decimal(sub), '.');
    StoiOfDecimal(index);
    StoiOfDecimal(sub);
    TwoNumbers(Decimal(index), Decimal(sub));
  }

  lemma TwoNumbers(a: string, b: string)
    requires Stoi(a).Some? && Stoi(b).Some?
    ensures Numbers([a] + [b]) == Some([Stoi(a).value, Stoi(b).value])
  {
    hide Stoi;
    var x, y := Stoi(a).value, Stoi(b).value;
    assert [a][..0] == [] && [a][0] == a && [] + [x] == [x];
    assert Numbers([a]) == Some([x]);
    assert ([a] + [b])[..1] == [a] && ([a] + [b])[1] == b && [x] + [y] == [x, y];
  }

  /** The 18-byte header and the fixed part of a continuous request. */
  function Head(command: Word, nameLength: Word, length: Word): (h: seq<Byte>)
    ensures |h| == 30 && Le(h, 20) == command && Le(h, 22) == CONTINUOUS && Le(h, 28) == nameLength
  {
    SplitJoins(command);
    SplitJoins(nameLength);
    [0x4C, 0x53, 0x49, 0x53, 0x2D, 0x58, 0x47, 0x54, 0, 0, 0, 0, 0, 0x33, 0, 0, Low(length), High(length), 0, 0,
     Low(command), High(command), 0x14, 0, 0, 0, 1, 0, Low(nameLength), High(nameLength)]
  }

  lemma HeadFrames(command: Word, nameLength: Word, length: Word)
    ensures var h := Head(command, nameLength, length); h[..8] == COMPANY && Le(h, 16) == length
  {
    SplitJoins(length);
  }

  /** A continuous request: head with a length field, name, byte count, data. */
  function Request(length: Word, command: Word, name: seq<Byte>, count: Word, data: seq<Byte>): (r: seq<Byte>)
    requires |name| < 0x1_0000
    ensures |r| == 32 + |name| + |data|
  {
    Head(command, |name|, length) + (name + (LeBytes(count) + data))
  }

  /** The length field that says how long the body is. */
  function BodyLength(name: seq<Byte>, data: seq<Byte>): nat {
    14 + |name| + |data|
  }

  lemma RequestFields(length: Word, command: Word, name: seq<Byte>, count: Word, data: seq<Byte>)
    requires |name| < 0x1_0000
    ensures var r, after := Request(length, command, name, count, data), 30 + |name|;
            && Le(r, 20) == command && Le(r, 22) == CONTINUOUS && Le(r, 28) == |name|
            && r[30..after] == name && Le(r, after) == count && r[after + 2..] == data
  {
    hide Head;
    SplitJoins(count);
    var h, r, after := Head(command, |name|, length), Request(length, command, name, count, data), 30 + |name|;
    assert r[..30] == h && r[30..] == name + (LeBytes(count) + data);
    assert r[after..] == LeBytes(count) + data;
    assert Le(r, 20) == Le(h, 20) && Le(r, 22) == Le(h, 22) && Le(r, 28) == Le(h, 28);
    assert r[after] == r[after..][0] && r[after + 1] == r[after..][1];
  }

  /** How many words a continuous write of `length` bytes takes. */
  function Taken(length: Word): nat {
    WriteLength(length) / 2
  }

  /** The data of a response. */
  function Payload(frame: seq<Byte>): seq<Byte> {
    if |frame| < 30 then [] else frame[30..]
  }

  /** The server takes `name` for something at `index`; in a continuous request
      only the index matters. */
  ghost predicate Names(name: seq<Byte>, index: Word) {
    && |name| < 0x1_0000
    && match Resolve(Chars(name))
       case None => false
       case Some(r) => r.index == index
  }

  function TenTo(k: nat): nat {
    if k == 0 then 1 else 10 * TenTo(k - 1)
  }

  lemma {:induction false} DecimalIsShort(n: nat, k: nat)
    requires 0 < k && n < TenTo(k)
    ensures |Decimal(n)| <= k
  {
    if n >= 10 {
      DecimalIsShort(n / 10, k - 1);
    }
  }

  /** Every word has a name, of no more than eight bytes. */
  lemma EveryWordHasAName(index: Word)
    ensures Names(Bytes(WordName(index)), index) && |Bytes(WordName(index))| <= 8
  {
    assert index < TenTo(5) by { assert TenTo(3) == 1000; }
    DecimalIsShort(index, 5);
    assert |Bytes(WordName(index))| <= 8;
    hide Resolve, Bytes, Chars, WordName;
    CharsOfBytes(WordName(index));
    ResolveWordName(index);
  }

  /** A continuous write through any name that is understood. */
  lemma WriteEffect(m: Store, length: Word, name: seq<Byte>, index: Word, data: seq<Byte>)
    requires Names(name, index) && |data| < 0x1_0000
    ensures var t := Respond(m, Request(length, WRITE, name, |data|, data));
            && Le(t.frame, 26) == 0
            && t.mem == Mc.WritePoints(m, LsW, index, Mc.WordsAtLE(data, |data| / 2)[..Taken(|data|)])
  {
    hide Resolve, Frame, Request, Mc.WritePoints, Mc.WordsAtLE, WordsFrom;
    var request := Request(length, WRITE, name, |data|, data);
    RequestFields(length, WRITE, name, |data|, data);
    SameWords(request, 32 + |name|, data, Taken(|data|));
    StatusAt26(request, 0, 1, []);
  }

  lemma StatusAt26(request: seq<Byte>, status: Word, blocks: Word, data: seq<Byte>)
    requires 30 <= |request|
    ensures var f := Frame(request, status, blocks, data);
            |f| == 30 + |data| && Le(f, 26) == status && f[30..] == data
  {
    SplitJoins(status);
    var f := Frame(request, status, blocks, data);
    assert f[26] == Low(status) && f[27] == High(status);
  }

  lemma SameWords(request: seq<Byte>, at: nat, data: seq<Byte>, n: nat)
    requires at <= |request| && request[at..] == data && 2 * n <= |data|
    ensures WordsFrom(request, at, n) == Mc.WordsAtLE(data, |data| / 2)[..n]
  {
    forall i | 0 <= i < n ensures Le(request, at + 2 * i) == Mc.WordAtLE(data, 2 * i) {
      assert data[2 * i] == request[at + 2 * i] && data[2 * i + 1] == request[at + 2 * i + 1];
    }
  }

  lemma ReadEffect(m: Store, length: Word, name: seq<Byte>, index: Word, count: Word)
    requires Names(name, index)
    ensures var t := Respond(m, Request(length, READ, name, count, []));
            && Le(t.frame, 26) == 0 && t.mem == m
            && Payload(t.frame) == LeBytes(count) + Mc.LittleEndian(Mc.ReadPoints(m, LsW, index, count / 2))
  {
    hide Resolve, Frame, Request, Mc.ReadPoints, Mc.LittleEndian;
    RequestFields(length, READ, name, count, []);
    StatusAt26(Request(length, READ, name, count, []), 0, 1, ReadContinuous(m, index, count));
  }

  /** The data without an odd last byte. */
  function Whole(data: seq<Byte>): (s: seq<Byte>)
    ensures |s| == 2 * (|data| / 2) && s == data[..|s|]
  {
    data[..2 * (|data| / 2)]
  }

  /** Continuous write, then read of as many bytes, by any names of the same word:
      the whole words of the data come back, unless it was exactly 32 bytes long,
      which the server takes for 2. */
  lemma WordRoundTrip(z: Sizes, m: Store, index: Word, k: Word, l: Word, a: seq<Byte>, b: seq<Byte>, n: Word, data: seq<Byte>)
    requires |a| < 0x1_0000 && |b| < 0x1_0000 && |data| == n && n != 0x20 && index + n / 2 <= 1024
    requires Covers(z, m) && Names(a, index) && Names(b, index)
    ensures Payload(Respond(Respond(m, Request(k, WRITE, a, n, data)).mem, Request(l, READ, b, n, [])).frame) ==
            LeBytes(n) + Whole(data)
  {
    hide Respond, Request, Names, Mc.WritePoints, Mc.ReadPoints, Mc.WordsAtLE, Mc.LittleEndian, Covers, Payload, LeBytes;
    WriteEffect(m, k, a, index, data);
    var words := Mc.WordsAtLE(data, n / 2);
    TakesAll(data);
    McProperties.PointsReadBack(z, m, LsW, index, words);
    ReadEffect(Mc.WritePoints(m, LsW, index, words), l, b, index, n);
    WholeWords(data);
    McProperties.WordsThereAndBack(Whole(data), n / 2);
  }

  lemma TakesAll(data: seq<Byte>)
    requires |data| < 0x1_0000 && |data| != 0x20
    ensures var words := Mc.WordsAtLE(data, |data| / 2); words[..Taken(|data|)] == words
  {
  }

  lemma WholeWords(data: seq<Byte>)
    ensures Mc.WordsAtLE(data, |data| / 2) == Mc.WordsAtLE(Whole(data), |data| / 2)
  {
  }

  /** With 32 bytes only the first word is written: the others keep what they
      held. */
  lemma ThirtyTwoBytesWriteOneWord(z: Sizes, m: Store, index: Word, length: Word, name: seq<Byte>, data: seq<Byte>, i: nat)
    requires Covers(z, m) && Names(name, index) && |data| == 0x20 && index + 16 <= 1024 && i < 16
    ensures var t := Respond(m, Request(length, WRITE, name, 0x20, data)).mem;
            Read(t, Cell(LsW, index + i)) ==
            if i == 0 then Mc.WordAtLE(data, 0) else Read(m, Cell(LsW, index + i))
  {
    hide Respond, Request, Names, Mc.WritePoints;
    WriteEffect(m, length, name, index, data);
    var words := Mc.WordsAtLE(data, 16)[..1];
    assert words[0] == Mc.WordAtLE(data, 0);
    assert Cell(LsW, index + i) in m;
    McProperties.WritesAreConsecutive(m, LsW, index, words);
    OneWord(m, index, words, i);
  }

  lemma OneWord(m: Store, index: Word, words: seq<Word>, i: nat)
    requires |words| == 1 && Cell(LsW, index + i) in m
    ensures Memory.WriteAll(m, LsW, index, words)[Cell(LsW, index + i)] ==
            if i == 0 then words[0] else m[Cell(LsW, index + i)]
  {
  }
}
