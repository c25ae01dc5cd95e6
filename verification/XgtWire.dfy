/** The XGT request processor byte by byte: names as they are written, blocks in
    order, and the frames that come back. */
module XgtWire {
  import opened Words
  import opened Text
  import opened Cells
  import opened Xgt
  import opened Memory
  import Mc
  import McWire
  import XgtProperties
  import XgtReader

  // Names.

  /** What a client can name, with or without the leading `%`: a word by its index
      or by that of one of its bytes, a bit by its byte and its place in it, or the
      first bit of a byte. */
  datatype Variable =
    | WordAt(percent: bool, area: char, index: Word)
    | ByteAt(percent: bool, area: char, index: Word)
    | BitAt(percent: bool, area: char, index: Word, sub: Word)
    | FirstBitAt(percent: bool, area: char, index: Word)
  {
    predicate IsBit() {
      BitAt? || FirstBitAt?
    }

    /** What follows the optional `%`. */
    function Plain(): (s: string)
      ensures |s| > 2
    {
      match this
      case WordAt(_, a, i) => [a] + ['W'] + Decimal(i)
      case ByteAt(_, a, i) => [a] + ['B'] + Decimal(i)
      case BitAt(_, a, i, s) => [a] + ['X'] + (Decimal(i) + ['.'] + Decimal(s))
      case FirstBitAt(_, a, i) => [a] + ['X'] + Decimal(i)
    }

    function Name(): string {
      if percent then ['%'] + Plain() else Plain()
    }

    /** The areas are I, Q and M, and a name has four characters or more. */
    predicate Valid() {
      area in {'I', 'Q', 'M'} && 4 <= |Name()|
    }

    /** All words are in one area, whatever the letter; bits count eight to a byte. */
    function Place(): Cell {
      var bits := if area == 'I' then LsI else if area == 'Q' then LsQ else LsM;
      match this
      case WordAt(_, _, i) => Cell(LsW, i)
      case ByteAt(_, _, i) => Cell(LsW, i / 2)
      case BitAt(_, _, i, s) => Cell(bits, (8 * i + s) % 0x1_0000)
      case FirstBitAt(_, _, i) => Cell(bits, 8 * i % 0x1_0000)
    }

    /** Where a continuous request starts that names this. */
    function First(): Word {
      if ByteAt? then index / 2 else index
    }
  }

  lemma NumbersAre(d: string)
    requires Stoi(d).Some?
    ensures Numbers([d]) == Some([Stoi(d).value])
  {
    hide Stoi;
    assert [d][..0] == [] && [d][0] == d && [] + [Stoi(d).value] == [Stoi(d).value];
  }

  lemma BitNumbers(v: Variable)
    requires v.IsBit()
    ensures Numbers(Split(v.Plain()[2..], '.')) == Some([v.index as int] + if v.BitAt? then [v.sub as int] else [])
  {
    hide Decimal, Stoi, Split;
    var d := Decimal(v.index);
    assert !IsDigit('.') && '.' !in d;
    StoiOfDecimal(v.index);
    if v.BitAt? {
      var e := Decimal(v.sub);
      assert '.' !in e;
      assert v.Plain()[2..] == d + ['.'] + e;
      SplitFirst(d, e, '.');
      NoDelimiter(e, '.');
      StoiOfDecimal(v.sub);
      XgtProperties.TwoNumbers(d, e);
      assert [v.index as int] + [v.sub as int] == [v.index as int, v.sub as int];
    } else {
      assert v.Plain()[2..] == d;
      NoDelimiter(d, '.');
      NumbersAre(d);
      assert [v.index as int] + [] == [v.index as int];
    }
  }

  lemma NumberOf(v: Variable)
    requires !v.IsBit()
    ensures Stoi(v.Plain()[2..]) == Some(v.index)
  {
    hide Decimal, Stoi;
    assert v.Plain()[2..] == Decimal(v.index);
    StoiOfDecimal(v.index);
  }

  lemma BitNameResolves(name: string, start: nat, ns: seq<int>)
    requires 4 <= |name| && start == (if name[0] == '%' then 1 else 0) && start + 2 <= |name| && name[start + 1] == 'X'
    requires name[start] in {'I', 'Q', 'M'} && Numbers(Split(name[start + 2..], '.')) == Some(ns) && ns != []
    ensures Resolve(name) ==
            Some(Resolved(BitAreaOf(name[start]), true, ToWord(if |ns| == 1 then ns[0] else ns[|ns| - 2]),
                          if |ns| == 1 then 0 else ToWord(ns[|ns| - 1])))
  {
    hide Stoi, Split, Numbers, ToWord;
  }

  lemma WordNameResolves(name: string, start: nat, n: int)
    requires 4 <= |name| && start == (if name[0] == '%' then 1 else 0) && start + 2 <= |name| && name[start + 1] in {'W', 'B'}
    requires name[start] in {'I', 'Q', 'M'} && Stoi(name[start + 2..]) == Some(n)
    ensures Resolve(name) ==
            Some(Resolved(BitAreaOf(name[start]), false, if name[start + 1] == 'B' then ToWord(n) / 2 else ToWord(n), 0))
  {
    hide Stoi, Split, Numbers, ToWord;
  }

  /** The server understands every such name, for the right cell. */
  lemma NamesResolve(v: Variable)
    requires v.Valid()
    ensures Resolve(v.Name()).Some?
    ensures var r := Resolve(v.Name()).value;
            Target(r) == v.Place() && r.isBit == v.IsBit() && r.index == v.First()
  {
    hide Decimal, Stoi, Split, Numbers, Resolve;
    var name, plain := v.Name(), v.Plain();
    var start := if v.percent then 1 else 0;
    assert name[start..] == plain && name[start + 2..] == plain[2..];
    assert name[start] == plain[0] == v.area && name[start + 1] == plain[1];
    assert v.area != '%';
    if v.IsBit() {
      BitNumbers(v);
      BitNameResolves(name, start, [v.index as int] + if v.BitAt? then [v.sub as int] else []);
    } else {
      NumberOf(v);
      WordNameResolves(name, start, v.index);
    }
  }

  /** The name as it is sent. */
  function Sent(v: Variable): (s: seq<Byte>)
    requires v.Valid()
    ensures |s| < 0x1_0000
  {
    NameIsShort(v);
    XgtProperties.Bytes(v.Name())
  }

  lemma FiveDigits(n: Word)
    ensures |Decimal(n)| <= 5 && forall c | c in Decimal(n) :: c as int < 0x100
  {
    Pow5();
    XgtProperties.DecimalIsShort(n, 5);
    assert forall c | c in Decimal(n) :: IsDigit(c);
  }

  lemma PlainIsShort(v: Variable)
    requires v.Valid()
    ensures |v.Plain()| <= 13 && forall c | c in v.Plain() :: c as int < 0x100
  {
    hide Decimal;
    FiveDigits(v.index);
    if v.BitAt? {
      FiveDigits(v.sub);
    }
  }

  lemma NameIsShort(v: Variable)
    requires v.Valid()
    ensures (forall c | c in v.Name() :: c as int < 0x100) && |v.Name()| < 0x1_0000
  {
    hide Decimal, Variable.Plain;
    PlainIsShort(v);
  }

  lemma Pow5()
    ensures XgtProperties.TenTo(5) == 100000
  {
    assert XgtProperties.TenTo(3) == 1000;
  }

  lemma SentIsName(v: Variable)
    requires v.Valid()
    ensures Chars(Sent(v)) == v.Name()
  {
    hide Decimal, Chars;
    NameIsShort(v);
    XgtProperties.CharsOfBytes(v.Name());
  }

  // Individual reads.

  function NamedBlock(name: seq<Byte>): seq<Byte>
    requires |name| < 0x1_0000
  {
    LeBytes(|name|) + name
  }

  function ReadBlocksFor(vs: seq<Variable>): seq<Byte>
    requires AllValid(vs)
  {
    if vs == [] then [] else NamedBlock(Sent(vs[0])) + ReadBlocksFor(vs[1..])
  }

  function Shown(m: Store, c: Cell): Word {
    if c in m then m[c] else 0
  }

  /** What comes back for each variable: 2 and the word, low byte first, or 1 and
      the bit. */
  function Answer(m: Store, vs: seq<Variable>): seq<Byte> {
    if vs == [] then []
    else
      var w := Shown(m, vs[0].Place());
      (if vs[0].IsBit() then [1, 0, if w == 0 then 0 else 1] else [2, 0, Low(w), High(w)]) + Answer(m, vs[1..])
  }

  predicate AllValid(vs: seq<Variable>) {
    forall i | 0 <= i < |vs| :: vs[i].Valid()
  }

  /** These bytes lie at `offset`. */
  ghost predicate Lies(request: seq<Byte>, offset: nat, bytes: seq<Byte>) {
    offset + |bytes| <= |request| && request[offset..offset + |bytes|] == bytes
  }

  lemma LiesInParts(request: seq<Byte>, offset: nat, a: seq<Byte>, b: seq<Byte>)
    requires Lies(request, offset, a + b)
    ensures Lies(request, offset, a) && Lies(request, offset + |a|, b)
  {
    var s := request[offset..offset + |a + b|];
    assert s[..|a|] == a && s[|a|..] == b;
  }

  lemma NameFound(request: seq<Byte>, offset: nat, name: seq<Byte>)
    requires |name| < 0x1_0000 && Lies(request, offset, NamedBlock(name))
    ensures NameAt(request, offset) == Some(NameBlock(Chars(name), offset + 2 + |name|))
  {
    LiesInParts(request, offset, LeBytes(|name|), name);
    SplitJoins(|name|);
    assert request[offset] == request[offset..offset + 2][0] && request[offset + 1] == request[offset..offset + 2][1];
    hide Low, High, Join, Chars;
  }

  lemma OneRead(m: Store, v: Variable)
    requires v.Valid()
    ensures Resolve(v.Name()).Some?
    ensures ReadBytes(m, Resolve(v.Name()).value) == Answer(m, [v])
  {
    hide Resolve, Target;
    NamesResolve(v);
    assert Answer(m, [v][1..]) == [];
  }

  lemma AnswerGrows(m: Store, v: Variable, vs: seq<Variable>)
    ensures Answer(m, [v] + vs) == Answer(m, [v]) + Answer(m, vs)
  {
    assert ([v] + vs)[1..] == vs && [v][1..] == [];
    hide Low, High;
  }

  lemma FirstBlockRead(m: Store, request: seq<Byte>, offset: nat, v: Variable, more: nat)
    requires v.Valid() && Lies(request, offset, NamedBlock(Sent(v)))
    ensures var (status, rest) := ReadBlocks(m, request, offset + |NamedBlock(Sent(v))|, more);
            ReadBlocks(m, request, offset, 1 + more) == (status, Answer(m, [v]) + rest)
  {
    hide Resolve, ReadBytes, NameAt, Sent, Lies, Chars, Answer, Variable.Valid, Variable.Name;
    NameFound(request, offset, Sent(v));
    SentIsName(v);
    OneRead(m, v);
    BlockLength(Sent(v));
    hide NamedBlock;
  }

  /** Blocks are read in order, and whatever follows after them. */
  lemma {:induction false} BlocksAreRead(m: Store, request: seq<Byte>, offset: nat, vs: seq<Variable>, more: nat)
    requires AllValid(vs) && Lies(request, offset, ReadBlocksFor(vs))
    ensures var (status, rest) := ReadBlocks(m, request, offset + |ReadBlocksFor(vs)|, more);
            ReadBlocks(m, request, offset, |vs| + more) == (status, Answer(m, vs) + rest)
    decreases |vs|
  {
    hide ReadBlocks, Sent, Lies, NamedBlock, Answer, Variable.Valid;
    if vs == [] {
      NoAnswer(m);
      var rest := ReadBlocks(m, request, offset, more).1;
      assert [] + rest == rest;
    } else {
      var v, block, others := vs[0], NamedBlock(Sent(vs[0])), ReadBlocksFor(vs[1..]);
      LiesInParts(request, offset, block, others);
      FirstBlockRead(m, request, offset, v, |vs| - 1 + more);
      BlocksAreRead(m, request, offset + |block|, vs[1..], more);
      AnswerGrows(m, v, vs[1..]);
      assert [v] + vs[1..] == vs;
      var rest := ReadBlocks(m, request, offset + |block| + |others|, more).1;
      assert Answer(m, [v]) + (Answer(m, vs[1..]) + rest) == Answer(m, [v]) + Answer(m, vs[1..]) + rest;
    }
  }

  lemma NoAnswer(m: Store)
    ensures Answer(m, []) == []
  {
  }

  lemma BlockLength(name: seq<Byte>)
    requires |name| < 0x1_0000
    ensures |NamedBlock(name)| == 2 + |name|
  {
  }

  // Frames.

  /** A name that is cut off: no two bytes of length, or fewer than it says. */
  predicate CutOff(tail: seq<Byte>) {
    |tail| < 2 || |tail| < 2 + tail[0] as int + 0x100 * tail[1] as int
  }

  /** What follows the good blocks is no block: its name is cut off, or not
      understood. */
  ghost predicate Stops(tail: seq<Byte>, bad: seq<Byte>) {
    CutOff(tail) || (|bad| < 0x1_0000 && Resolve(Chars(bad)).None? && Lies(tail, 0, NamedBlock(bad)))
  }

  lemma StopsThere(request: seq<Byte>, offset: nat, tail: seq<Byte>, bad: seq<Byte>)
    requires offset <= |request| && request[offset..] == tail && Stops(tail, bad)
    ensures match NameAt(request, offset)
            case None => true
            case Some(b) => Resolve(b.name).None?
  {
    hide Resolve, Chars;
    if CutOff(tail) {
      if 2 <= |tail| {
        assert tail[0] == request[offset] && tail[1] == request[offset + 1];
        HalvesOfWord(0, tail[1], tail[0]);
      }
    } else {
      var n := NamedBlock(bad);
      assert tail[..|n|] == n && request[offset..offset + |n|] == tail[..|n|];
      assert Lies(request, offset, n);
      NameFound(request, offset, bad);
    }
  }

  /** What is never understood: fewer than four characters, another area than I, Q
      or M, another kind than X, W or B, or no number where a word needs one. */
  lemma BadNames(name: string)
    ensures |name| < 4 ==> Resolve(name).None?
    ensures 4 <= |name| ==>
              var s := if name[0] == '%' then name[1..] else name;
              && (s[0] !in {'I', 'Q', 'M'} || s[1] !in {'X', 'W', 'B'} ==> Resolve(name).None?)
              && (s[1] in {'W', 'B'} && Stoi(s[2..]).None? ==> Resolve(name).None?)
  {
    hide Stoi, Numbers, Split;
    if 4 <= |name| {
      var start := if name[0] == '%' then 1 else 0;
      var s := if name[0] == '%' then name[1..] else name;
      assert name[start..] == s && name[start + 2..] == s[2..];
      assert name[start] == s[0] && name[start + 1] == s[1];
    }
  }

  /** A request: 20 bytes of header, command, data type, two reserved bytes, a
      16-bit field, and the rest. */
  function Request(head: seq<Byte>, command: Byte, kind: Word, field: Word, rest: seq<Byte>): (r: seq<Byte>)
    requires |head| == 20
    ensures |r| == 28 + |rest|
  {
    head + ([command, 0] + LeBytes(kind) + [0, 0] + LeBytes(field)) + rest
  }

  lemma Fields(head: seq<Byte>, command: Byte, kind: Word, field: Word, rest: seq<Byte>)
    requires |head| == 20
    ensures var r := Request(head, command, kind, field, rest);
            && Le(r, 20) == command && Le(r, 22) == kind && Le(r, 26) == field
            && r[..20] == head && Lies(r, 28, rest)
  {
    SplitJoins(kind);
    SplitJoins(field);
    HalvesOfWord(0, 0, command);
    var r := Request(head, command, kind, field, rest);
    var f := [command, 0] + LeBytes(kind) + [0, 0] + LeBytes(field);
    assert r[20..28] == f && r[28..] == rest;
    assert forall i | 0 <= i < 8 :: r[20 + i] == f[i];
    hide Low, High, Join;
  }

  /** The response to it: header and data type echoed, direction 0x11, the length
      of what follows the header, the command plus one, status, block count. */
  function Response(head: seq<Byte>, command: Byte, kind: Word, status: Word, blocks: Word, data: seq<Byte>): seq<Byte>
    requires |head| == 20
  {
    head[..13] + [0x11] + head[14..16] + LeBytes((12 + |data|) % 0x1_0000) + head[18..20]
    + [command, 0] + LeBytes(kind) + [0, 0] + LeBytes(status) + LeBytes(blocks) + data
  }

  lemma FrameIsResponse(head: seq<Byte>, command: Byte, kind: Word, field: Word, rest: seq<Byte>,
                        status: Word, blocks: Word, data: seq<Byte>)
    requires |head| == 20 && 2 <= |rest|
    ensures Frame(Request(head, command, kind, field, rest), status, blocks, data) ==
            Response(head, if command == 0x54 then 0x55 else 0x59, kind, status, blocks, data)
  {
    Fields(head, command, kind, field, rest);
    var r := Request(head, command, kind, field, rest);
    assert r[..13] == r[..20][..13] && r[14..16] == r[..20][14..16] && r[18..20] == r[..20][18..20];
    HalvesOfWord(0x55, 0, 0);
    HalvesOfWord(0x59, 0, 0);
    hide Low, High, Join, Request;
  }

  /** An individual read of one variable or more. */
  lemma IndividualRead(m: Store, head: seq<Byte>, kind: Word, vs: seq<Variable>)
    requires |head| == 20 && kind != 0x14 && 0 < |vs| < 0x1_0000 && AllValid(vs)
    ensures Respond(m, Request(head, 0x54, kind, |vs|, ReadBlocksFor(vs))) ==
            Reply(Response(head, 0x55, kind, 0, |vs|, Answer(m, vs)), m)
  {
    hide Frame, Response, Request, ReadBlocks, Answer, ReadBlocksFor, Low, High, Join;
    var blocks := ReadBlocksFor(vs);
    var request := Request(head, 0x54, kind, |vs|, blocks);
    Fields(head, 0x54, kind, |vs|, blocks);
    BlocksAreRead(m, request, 28, vs, 0);
    NoMoreBlocks(m, request, 28 + |blocks|);
    assert Answer(m, vs) + [] == Answer(m, vs);
    SomeBlocks(vs);
    FrameIsResponse(head, 0x54, kind, |vs|, blocks, 0, |vs|, Answer(m, vs));
  }

  lemma NoMoreBlocks(m: Store, request: seq<Byte>, offset: nat)
    ensures ReadBlocks(m, request, offset, 0) == (0, [])
  {
  }

  lemma SomeBlocks(vs: seq<Variable>)
    requires vs != [] && AllValid(vs)
    ensures 2 <= |ReadBlocksFor(vs)|
  {
  }

  // Individual writes.

  /** A variable with its data. The length field says how much there is, but that
      0x20 stands for 2. */
  datatype Item = Item(v: Variable, field: Word, data: seq<Byte>)
  {
    predicate Valid() {
      && v.Valid() && (if v.IsBit() then 1 else 2) <= |data|
      && if field == 0x20 then |data| == 2 else |data| == field
    }

    /** A word is the first two bytes, a bit whether the first byte is not 0. */
    function Value(): Word
      requires Valid()
    {
      if v.IsBit() then (if data[0] == 0 then 0 else 1) else data[0] as int + 0x100 * data[1] as int
    }
  }

  predicate AllComplete(items: seq<Item>) {
    forall i | 0 <= i < |items| :: items[i].Valid()
  }

  function DataBlock(item: Item): seq<Byte>
    requires item.Valid()
  {
    NamedBlock(Sent(item.v)) + (LeBytes(item.field) + item.data)
  }

  function WriteBlocksFor(items: seq<Item>): seq<Byte>
    requires AllComplete(items)
  {
    if items == [] then [] else DataBlock(items[0]) + WriteBlocksFor(items[1..])
  }

  /** The variables get their values one after the other. */
  function Assigned(m: Store, items: seq<Item>): Store
    requires AllComplete(items)
  {
    if items == [] then m
    else
      var c := items[0].v.Place();
      Assigned(if c in m then m[c := items[0].Value()] else m, items[1..])
  }

  lemma PlaceIsBit(v: Variable)
    ensures Cells.IsBit(v.Place().area) == v.IsBit()
  {
  }

  lemma OneWrite(m: Store, request: seq<Byte>, at: nat, item: Item)
    requires item.Valid() && Lies(request, at, item.data)
    ensures Resolve(item.v.Name()).Some?
    ensures WriteTo(m, Resolve(item.v.Name()).value, request, at) == Assigned(m, [item])
  {
    hide Resolve, Target, Variable.Valid, Variable.Name, Variable.Place;
    NamesResolve(item.v);
    PlaceIsBit(item.v);
    var d := request[at..at + |item.data|];
    assert request[at] == d[0] && (2 <= |d| ==> request[at + 1] == d[1]);
    if 2 <= |d| {
      HalvesOfWord(0, d[1], d[0]);
    }
    hide Join;
    assert [item][1..] == [];
  }

  lemma FirstBlockWritten(m: Store, request: seq<Byte>, offset: nat, item: Item, more: nat)
    requires item.Valid() && Lies(request, offset, DataBlock(item))
    ensures WriteBlocks(m, request, offset, 1 + more) ==
            WriteBlocks(Assigned(m, [item]), request, offset + |DataBlock(item)|, more)
  {
    hide Resolve, WriteTo, NameAt, Sent, Lies, Chars, Assigned, Variable.Valid, Variable.Name, Low, High, Join;
    var name, tail := NamedBlock(Sent(item.v)), LeBytes(item.field) + item.data;
    LiesInParts(request, offset, name, tail);
    LiesInParts(request, offset + |name|, LeBytes(item.field), item.data);
    NameFound(request, offset, Sent(item.v));
    SentIsName(item.v);
    BlockLength(Sent(item.v));
    LiesWord(request, offset + |name|, item.field);
    OneWrite(m, request, offset + |name| + 2, item);
    LiesWithin(request, offset + |name| + 2, item.data);
    hide NamedBlock;
  }

  lemma LiesWord(request: seq<Byte>, offset: nat, w: Word)
    requires Lies(request, offset, LeBytes(w))
    ensures offset + 2 <= |request| && Le(request, offset) == w
  {
    SplitJoins(w);
    var s := request[offset..offset + 2];
    assert request[offset] == s[0] && request[offset + 1] == s[1];
    hide Low, High, Join;
  }

  lemma LiesWithin(request: seq<Byte>, offset: nat, bytes: seq<Byte>)
    requires Lies(request, offset, bytes)
    ensures offset + |bytes| <= |request|
  {
  }

  lemma AssignedGrows(m: Store, item: Item, items: seq<Item>)
    requires item.Valid() && AllComplete(items)
    ensures AllComplete([item] + items) && Assigned(m, [item] + items) == Assigned(Assigned(m, [item]), items)
  {
    assert ([item] + items)[1..] == items && [item][1..] == [];
    hide Item.Value, Variable.Place, Item.Valid;
  }

  /** Blocks are written in order, and whatever follows after them. */
  lemma {:induction false} BlocksAreWritten(m: Store, request: seq<Byte>, offset: nat, items: seq<Item>, more: nat)
    requires AllComplete(items) && Lies(request, offset, WriteBlocksFor(items))
    ensures WriteBlocks(m, request, offset, |items| + more) ==
            WriteBlocks(Assigned(m, items), request, offset + |WriteBlocksFor(items)|, more)
    decreases |items|
  {
    hide WriteBlocks, Lies, DataBlock, Assigned, Item.Valid;
    if items == [] {
      NothingAssigned(m);
    } else {
      var item := items[0];
      LiesInParts(request, offset, DataBlock(item), WriteBlocksFor(items[1..]));
      FirstBlockWritten(m, request, offset, item, |items| - 1 + more);
      BlocksAreWritten(Assigned(m, [item]), request, offset + |DataBlock(item)|, items[1..], more);
      AssignedGrows(m, item, items[1..]);
      assert [item] + items[1..] == items;
    }
  }

  lemma NothingAssigned(m: Store)
    ensures Assigned(m, []) == m
  {
  }

  /** An individual write of one variable or more. */
  lemma IndividualWrite(m: Store, head: seq<Byte>, kind: Word, items: seq<Item>)
    requires |head| == 20 && kind != 0x14 && 0 < |items| < 0x1_0000 && AllComplete(items)
    ensures Respond(m, Request(head, 0x58, kind, |items|, WriteBlocksFor(items))) ==
            Reply(Response(head, 0x59, kind, 0, |items|, []), Assigned(m, items))
  {
    hide Frame, Response, Request, WriteBlocks, Assigned, WriteBlocksFor, Low, High, Join;
    var blocks := WriteBlocksFor(items);
    var request := Request(head, 0x58, kind, |items|, blocks);
    Fields(head, 0x58, kind, |items|, blocks);
    BlocksAreWritten(m, request, 28, items, 0);
    NothingToWrite(Assigned(m, items), request, 28 + |blocks|);
    SomeData(items);
    FrameIsResponse(head, 0x58, kind, |items|, blocks, 0, |items|, []);
  }

  lemma NothingToWrite(m: Store, request: seq<Byte>, offset: nat)
    ensures WriteBlocks(m, request, offset, 0) == (0, m)
  {
  }

  lemma SomeData(items: seq<Item>)
    requires items != [] && AllComplete(items)
    ensures 2 <= |WriteBlocksFor(items)|
  {
  }

  /** ... so that one block changes one cell, to the value sent. */
  lemma OneBlockWritesOneCell(m: Store, head: seq<Byte>, kind: Word, item: Item)
    requires |head| == 20 && kind != 0x14 && item.Valid()
    ensures var t := Respond(m, Request(head, 0x58, kind, 1, WriteBlocksFor([item]))).mem;
            t == if item.v.Place() in m then m[item.v.Place() := item.Value()] else m
  {
    hide Respond, Request, Response, WriteBlocksFor;
    IndividualWrite(m, head, kind, [item]);
    assert [item][1..] == [];
  }

  // Where it stops.

  /** At a block that is none a read ends with status 0x1102 and what it has. */
  lemma ReadStops(m: Store, head: seq<Byte>, kind: Word, vs: seq<Variable>, n: Word, tail: seq<Byte>, bad: seq<Byte>)
    requires |head| == 20 && kind != 0x14 && |vs| < n && AllValid(vs) && Stops(tail, bad)
    requires 2 <= |ReadBlocksFor(vs) + tail|
    ensures Respond(m, Request(head, 0x54, kind, n, ReadBlocksFor(vs) + tail)) ==
            Reply(Response(head, 0x55, kind, 0x1102, n, Answer(m, vs)), m)
  {
    hide Frame, Response, Request, Answer, ReadBlocksFor, Low, High, Join, Resolve, NameAt, Stops, ReadBytes;
    var blocks := ReadBlocksFor(vs);
    var request := Request(head, 0x54, kind, n, blocks + tail);
    Fields(head, 0x54, kind, n, blocks + tail);
    LiesInParts(request, 28, blocks, tail);
    BlocksAreRead(m, request, 28, vs, n - |vs|);
    assert request[28 + |blocks|..] == tail;
    StopsThere(request, 28 + |blocks|, tail, bad);
    assert ReadBlocks(m, request, 28 + |blocks|, n - |vs|) == (LENGTH_ERROR, []);
    assert Answer(m, vs) + [] == Answer(m, vs);
    FrameIsResponse(head, 0x54, kind, n, blocks + tail, 0x1102, n, Answer(m, vs));
  }

  /** A write ends with that status, and the blocks before stay written. */
  lemma WriteStops(m: Store, head: seq<Byte>, kind: Word, items: seq<Item>, n: Word, tail: seq<Byte>, bad: seq<Byte>)
    requires |head| == 20 && kind != 0x14 && |items| < n && AllComplete(items) && Stops(tail, bad)
    requires 2 <= |WriteBlocksFor(items) + tail|
    ensures Respond(m, Request(head, 0x58, kind, n, WriteBlocksFor(items) + tail)) ==
            Reply(Response(head, 0x59, kind, 0x1102, n, []), Assigned(m, items))
  {
    hide Frame, Response, Request, Assigned, WriteBlocksFor, Low, High, Join, Resolve, NameAt, Stops, WriteTo;
    var blocks := WriteBlocksFor(items);
    var request := Request(head, 0x58, kind, n, blocks + tail);
    Fields(head, 0x58, kind, n, blocks + tail);
    LiesInParts(request, 28, blocks, tail);
    BlocksAreWritten(m, request, 28, items, n - |items|);
    assert request[28 + |blocks|..] == tail;
    StopsThere(request, 28 + |blocks|, tail, bad);
    assert WriteBlocks(Assigned(m, items), request, 28 + |blocks|, n - |items|) == (LENGTH_ERROR, Assigned(m, items));
    FrameIsResponse(head, 0x58, kind, n, blocks + tail, 0x1102, n, []);
  }

  /** So does a block whose data are cut off: no two bytes of length, or fewer than
      it says. */
  predicate DataCutOff(data: seq<Byte>) {
    |data| < 2 ||
    var length := data[0] as int + 0x100 * data[1] as int;
    |data| < 2 + if length == 0x20 then 2 else length
  }

  lemma DataStopsThere(m: Store, request: seq<Byte>, offset: nat, v: Variable, data: seq<Byte>)
    requires offset <= |request| && v.Valid() && request[offset..] == NamedBlock(Sent(v)) + data && DataCutOff(data)
    ensures WriteBlock(m, request, offset) == (None, m)
  {
    hide Resolve, Chars, Sent, Variable.Valid, Variable.Name, Low, High, Join;
    var n := NamedBlock(Sent(v));
    assert request[offset..offset + |n|] == (n + data)[..|n|] == n;
    NameFound(request, offset, Sent(v));
    SentIsName(v);
    BlockLength(Sent(v));
    assert request[offset + |n|..] == (n + data)[|n|..] == data;
    if 2 <= |data| {
      assert request[offset + |n|] == data[0] && request[offset + |n| + 1] == data[1];
      HalvesOfWord(0, data[1], data[0]);
    }
    hide NamedBlock;
  }

  lemma WriteStopsAtData(m: Store, head: seq<Byte>, kind: Word, items: seq<Item>, n: Word, v: Variable, data: seq<Byte>)
    requires |head| == 20 && kind != 0x14 && |items| < n && AllComplete(items) && v.Valid() && DataCutOff(data)
    ensures Respond(m, Request(head, 0x58, kind, n, WriteBlocksFor(items) + (NamedBlock(Sent(v)) + data))) ==
            Reply(Response(head, 0x59, kind, 0x1102, n, []), Assigned(m, items))
  {
    hide Frame, Response, Request, Assigned, WriteBlocksFor, Low, High, Join, Sent, WriteBlock, DataCutOff, Variable.Valid;
    var blocks, tail := WriteBlocksFor(items), NamedBlock(Sent(v)) + data;
    var request := Request(head, 0x58, kind, n, blocks + tail);
    Fields(head, 0x58, kind, n, blocks + tail);
    LiesInParts(request, 28, blocks, tail);
    BlocksAreWritten(m, request, 28, items, n - |items|);
    assert request[28 + |blocks|..] == tail;
    BlockLength(Sent(v));
    DataStopsThere(Assigned(m, items), request, 28 + |blocks|, v, data);
    assert WriteBlocks(Assigned(m, items), request, 28 + |blocks|, n - |items|) == (LENGTH_ERROR, Assigned(m, items));
    FrameIsResponse(head, 0x58, kind, n, blocks + tail, 0x1102, n, []);
  }

  // Continuous requests, of data type 0x14.

  /** Word `i` of a run that starts at word `first`; addresses have 16 bits. */
  function WordFrom(first: Word, i: nat): Cell {
    Cell(LsW, (first + i) % 0x1_0000)
  }

  lemma PointIsWordFrom(first: Word, i: nat)
    ensures Mc.PointCell(LsW, first, i) == WordFrom(first, i)
  {
  }

  function WordsShown(m: Store, first: Word, n: nat): (s: seq<Word>)
    ensures |s| == n
  {
    seq<Word>(n, i requires 0 <= i < n => Shown(m, WordFrom(first, i)))
  }

  lemma PointsAreShown(m: Store, first: Word, n: nat)
    ensures Mc.ReadPoints(m, LsW, first, n) == WordsShown(m, first, n)
  {
    forall i | 0 <= i < n ensures Mc.ReadPoints(m, LsW, first, n)[i] == WordsShown(m, first, n)[i] {
      PointIsWordFrom(first, i);
    }
  }

  /** What a continuous request says behind its head: name, byte count, data. */
  function Rest(v: Variable, count: Word, data: seq<Byte>): (r: seq<Byte>)
    requires v.Valid()
    ensures 4 <= |r|
  {
    NamedBlock(Sent(v)) + (LeBytes(count) + data)
  }

  lemma RestFields(head: seq<Byte>, command: Byte, field: Word, v: Variable, count: Word, data: seq<Byte>)
    requires |head| == 20 && v.Valid()
    ensures var r, after := Request(head, command, 0x14, field, Rest(v, count, data)), 30 + |Sent(v)|;
            && Le(r, 20) == command && Le(r, 22) == 0x14 && Le(r, 28) == |Sent(v)| && |r| == after + 2 + |data|
            && Chars(r[30..after]) == v.Name() && Le(r, after) == count && r[after + 2..] == data
  {
    hide Low, High, Join, Sent, Chars, Variable.Valid, Variable.Name;
    var r, name, tail := Request(head, command, 0x14, field, Rest(v, count, data)), NamedBlock(Sent(v)), LeBytes(count) + data;
    Fields(head, command, 0x14, field, Rest(v, count, data));
    LiesInParts(r, 28, name, tail);
    LiesInParts(r, 28, LeBytes(|Sent(v)|), Sent(v));
    LiesWord(r, 28, |Sent(v)|);
    LiesInParts(r, 28 + |name|, LeBytes(count), data);
    LiesWord(r, 28 + |name|, count);
    SentIsName(v);
  }

  /** A continuous read: the byte count and as many whole words as it has, from the
      named one on, with 16-bit addresses. */
  lemma ContinuousRead(m: Store, head: seq<Byte>, field: Word, v: Variable, count: Word, extra: seq<Byte>)
      returns (data: seq<Byte>)
    requires |head| == 20 && v.Valid()
    ensures Respond(m, Request(head, 0x54, 0x14, field, Rest(v, count, extra))) ==
            Reply(Response(head, 0x55, 0x14, 0, 1, LeBytes(count) + data), m)
    ensures McWire.Carries(data, WordsShown(m, v.First(), count / 2))
  {
    hide Frame, Response, Request, Resolve, Rest, Low, High, Join, Chars, Sent, Mc.ReadPoints, Mc.LittleEndian, Variable.Valid,
         Variable.Name, Variable.Place, Variable.First, Target;
    RestFields(head, 0x54, field, v, count, extra);
    NamesResolve(v);
    PointsAreShown(m, v.First(), count / 2);
    var words := WordsShown(m, v.First(), count / 2);
    data := Mc.LittleEndian(words);
    McWire.WordsCarried(words);
    FrameIsResponse(head, 0x54, 0x14, field, Rest(v, count, extra), 0, 1, LeBytes(count) + data);
  }

  /** The words of the data are in the cells from the named one on, and nothing else
      has changed. */
  ghost predicate Stored(m: Store, t: Store, first: Word, data: seq<Byte>) {
    && t.Keys == m.Keys
    && (forall i | 0 <= i < |data| / 2 ::
          var c := WordFrom(first, i);
          c in m ==> t[c] == data[2 * i] as int + 0x100 * data[2 * i + 1] as int)
    && forall c | c in m && forall i | 0 <= i < |data| / 2 :: WordFrom(first, i) != c :: t[c] == m[c]
  }

  lemma PointsStored(m: Store, first: Word, words: seq<Word>, data: seq<Byte>)
    requires |words| == |data| / 2 < 0x1_0000
    requires forall i | 0 <= i < |words| :: words[i] == data[2 * i] as int + 0x100 * data[2 * i + 1] as int
    ensures Stored(m, Mc.WritePoints(m, LsW, first, words), first, data)
  {
    hide Mc.WritePoints;
    forall i: nat | i < |words| ensures Mc.PointCell(LsW, first, i) == WordFrom(first, i) {
      PointIsWordFrom(first, i);
    }
    forall i | 0 <= i < |words| && Mc.PointCell(LsW, first, i) in m
      ensures Mc.WritePoints(m, LsW, first, words)[Mc.PointCell(LsW, first, i)] == words[i]
    {
      McWire.PointsLand(m, LsW, first, words, i);
    }
    forall c | c in m && forall i | 0 <= i < |words| :: Mc.PointCell(LsW, first, i) != c
      ensures Mc.WritePoints(m, LsW, first, words)[c] == m[c]
    {
      McWire.PointsSpare(m, LsW, first, words, c);
    }
  }

  lemma SentWords(request: seq<Byte>, at: nat, data: seq<Byte>, extra: seq<Byte>)
    requires at <= |request| && request[at..] == data + extra
    ensures forall i | 0 <= i < |data| / 2 ::
              WordsFrom(request, at, |data| / 2)[i] == data[2 * i] as int + 0x100 * data[2 * i + 1] as int
  {
    forall i | 0 <= i < |data| / 2
      ensures Le(request, at + 2 * i) == data[2 * i] as int + 0x100 * data[2 * i + 1] as int
    {
      assert data[2 * i] == (data + extra)[2 * i] == request[at + 2 * i];
      assert data[2 * i + 1] == (data + extra)[2 * i + 1] == request[at + 2 * i + 1];
      HalvesOfWord(0, data[2 * i + 1], data[2 * i]);
    }
  }

  /** A continuous write; the byte count is that of the data, but that 0x20 stands
      for 2. */
  lemma ContinuousWrite(m: Store, head: seq<Byte>, field: Word, v: Variable, count: Word, data: seq<Byte>, extra: seq<Byte>)
    requires |head| == 20 && v.Valid() && |data| == if count == 0x20 then 2 else count
    ensures var r := Respond(m, Request(head, 0x58, 0x14, field, Rest(v, count, data + extra)));
            && r.frame == Response(head, 0x59, 0x14, 0, 1, [])
            && Stored(m, r.mem, v.First(), data)
  {
    hide Frame, Response, Request, Resolve, Rest, Low, High, Join, Chars, Sent, Mc.WritePoints, WordsFrom, Stored, Variable.Valid,
         Variable.Name, Variable.Place, Variable.First, Target;
    var request, after := Request(head, 0x58, 0x14, field, Rest(v, count, data + extra)), 30 + |Sent(v)|;
    RestFields(head, 0x58, field, v, count, data + extra);
    NamesResolve(v);
    SentWords(request, after + 2, data, extra);
    PointsStored(m, v.First(), WordsFrom(request, after + 2, |data| / 2), data);
    FrameIsResponse(head, 0x58, 0x14, field, Rest(v, count, data + extra), 0, 1, []);
  }

  /** A word written individually is what a continuous read of two bytes gives, by
      any name of the same word. */
  lemma WordReadBack(m: Store, head: seq<Byte>, kind: Word, item: Item, v: Variable)
    requires |head| == 20 && kind != 0x14 && item.Valid() && !item.v.IsBit() && item.v.Place() in m
    requires v.Valid() && Cell(LsW, v.First()) == item.v.Place()
    ensures var t := Respond(m, Request(head, 0x58, kind, 1, WriteBlocksFor([item]))).mem;
            Respond(t, Request(head, 0x54, 0x14, 0, Rest(v, 2, []))).frame ==
            Response(head, 0x55, 0x14, 0, 1, [2, 0] + item.data[..2])
  {
    hide Respond, Request, Response, Rest, WriteBlocksFor, Variable.Valid;
    OneBlockWritesOneCell(m, head, kind, item);
    var t := m[item.v.Place() := item.Value()];
    var data := ContinuousRead(t, head, 0, v, 2, []);
    assert WordsShown(t, v.First(), 1)[0] == item.Value();
    assert data[2 * 0] as int + 0x100 * data[2 * 0 + 1] as int == item.Value();
    assert data == item.data[..2];
    assert LeBytes(2) == [2, 0] by { HalvesOfWord(2, 0, 0); }
  }

  // What is refused.

  lemma StatusBytes()
    ensures LeBytes(0xFF) == [0xFF, 0] && LeBytes(0x1102) == [0x02, 0x11] && LeBytes(0x55) == [0x55, 0] && LeBytes(0x59) == [0x59, 0]
  {
    HalvesOfWord(0xFF, 0, 0);
    HalvesOfWord(0x1102, 0, 0);
    HalvesOfWord(0x55, 0, 0);
    HalvesOfWord(0x59, 0, 0);
  }

  lemma BareErrorBytes(command: Word, status: Word, c: seq<Byte>, s: seq<Byte>)
    requires LeBytes(command) == c && LeBytes(status) == s
    ensures BareError(command, status) ==
            [0x4C, 0x53, 0x49, 0x53, 0x2D, 0x58, 0x47, 0x54, 0, 0, 0, 0, 0, 0x11, 0, 0, 12, 0, 0, 0]
            + c + [0, 0, 0, 0] + s + [0, 0]
  {
    hide LeBytes;
  }

  /** Fewer than 30 bytes, or a continuous request whose name is cut off: nothing is
      echoed, and nothing written. */
  lemma CutOffRequests(m: Store, request: seq<Byte>)
    ensures var head := [0x4C, 0x53, 0x49, 0x53, 0x2D, 0x58, 0x47, 0x54, 0, 0, 0, 0, 0, 0x11, 0, 0, 12, 0, 0, 0];
            && (|request| < 30 ==>
                  Respond(m, request) == Reply(head + [0xFF, 0] + [0, 0, 0, 0] + [0xFF, 0] + [0, 0], m))
            && (30 <= |request| && request[22] == 0x14 && request[23] == 0
                && |request| < 30 + request[28] as int + 0x100 * request[29] as int ==>
                  Respond(m, request) ==
                  Reply(head + [if request[20] == 0x54 && request[21] == 0 then 0x55 else 0x59, 0]
                        + [0, 0, 0, 0] + [0x02, 0x11] + [0, 0], m))
  {
    StatusBytes();
    hide LeBytes, BareError, Individual, Resolve, Frame;
    BareErrorBytes(0xFF, 0xFF, [0xFF, 0], [0xFF, 0]);
    BareErrorBytes(0x55, 0x1102, [0x55, 0], [0x02, 0x11]);
    BareErrorBytes(0x59, 0x1102, [0x59, 0], [0x02, 0x11]);
    if 30 <= |request| {
      HalvesOfWord(0, request[23], request[22]);
      HalvesOfWord(0, request[21], request[20]);
      HalvesOfWord(0, request[29], request[28]);
    }
    hide Low, High, Join;
  }

  /** A command that is neither 0x54 nor 0x58 gets status 0x00FF. */
  lemma OtherCommands(m: Store, head: seq<Byte>, command: Byte, kind: Word, field: Word, rest: seq<Byte>)
    requires |head| == 20 && command != 0x54 && command != 0x58 && kind != 0x14 && 2 <= |rest|
    ensures Respond(m, Request(head, command, kind, field, rest)) ==
            Reply(Response(head, 0x59, kind, 0xFF, field, []), m)
  {
    hide Frame, Response, Request, Low, High, Join;
    Fields(head, command, kind, field, rest);
    FrameIsResponse(head, command, kind, field, rest, 0xFF, field, []);
  }

  /** A continuous request is refused with status 0x1102 where its count or its data
      are cut off or its name is not understood, and with 0x00FF for any other
      command. */
  lemma ContinuousRefused(m: Store, head: seq<Byte>, command: Byte, field: Word, name: seq<Byte>, tail: seq<Byte>)
    requires |head| == 20 && |name| < 0x1_0000
    ensures var r := Respond(m, Request(head, command, 0x14, field, NamedBlock(name) + tail));
            var bad := Resolve(Chars(name)).None?;
            && (command == 0x54 && (|tail| < 2 || bad) ==> r == Reply(Response(head, 0x55, 0x14, 0x1102, 1, []), m))
            && (command == 0x58 && (DataCutOff(tail) || bad) ==> r == Reply(Response(head, 0x59, 0x14, 0x1102, 1, []), m))
            && (command != 0x54 && command != 0x58 ==> r == Reply(Response(head, 0x59, 0x14, 0xFF, 1, []), m))
  {
    hide Frame, Response, Request, Resolve, Low, High, Join, Chars, WordsFrom, Mc.WritePoints, ReadContinuous;
    var rest := NamedBlock(name) + tail;
    var request, after := Request(head, command, 0x14, field, rest), 30 + |name|;
    Fields(head, command, 0x14, field, rest);
    LiesInParts(request, 28, NamedBlock(name), tail);
    LiesInParts(request, 28, LeBytes(|name|), name);
    LiesWord(request, 28, |name|);
    assert request[after..] == tail;
    if 2 <= |tail| {
      assert request[after] == tail[0] && request[after + 1] == tail[1];
      HalvesOfWord(0, tail[1], tail[0]);
    }
    FrameIsResponse(head, command, 0x14, field, rest, 0x1102, 1, []);
    FrameIsResponse(head, command, 0x14, field, rest, 0xFF, 1, []);
  }

  lemma NumbersOfThree(k: Word, index: Word, sub: Word)
    ensures Numbers(Split(Decimal(k) + ['.'] + (Decimal(index) + ['.'] + Decimal(sub)), '.')) ==
            Some([k as int, index as int, sub as int])
  {
    hide Decimal, Stoi, Split, Numbers;
    var a, b, c := Decimal(k), Decimal(index), Decimal(sub);
    assert !IsDigit('.') && '.' !in a && '.' !in b && '.' !in c;
    SplitFirst(a, b + ['.'] + c, '.');
    SplitFirst(b, c, '.');
    NoDelimiter(c, '.');
    StoiOfDecimal(k);
    StoiOfDecimal(index);
    StoiOfDecimal(sub);
    assert [a] + ([b] + [c]) == [a, b, c];
    ThreeNumbers(a, b, c);
  }

  /** Of more than two numbers in the name of a bit the last two count. */
  lemma LastTwoNumbersCount(k: Word, index: Word, sub: Word)
    ensures Resolve("%QX" + (Decimal(k) + ['.'] + (Decimal(index) + ['.'] + Decimal(sub)))) ==
            Some(Resolved(LsQ, true, index, sub))
  {
    hide Decimal, Stoi, Split, Numbers, Resolve;
    var rest := Decimal(k) + ['.'] + (Decimal(index) + ['.'] + Decimal(sub));
    NumbersOfThree(k, index, sub);
    assert Decimal(k) != "" && ("%QX" + rest)[3..] == rest;
    BitNameResolves("%QX" + rest, 1, [k as int, index as int, sub as int]);
  }

  lemma ThreeNumbers(a: string, b: string, c: string)
    requires Stoi(a).Some? && Stoi(b).Some? && Stoi(c).Some?
    ensures Numbers([a, b, c]) == Some([Stoi(a).value, Stoi(b).value, Stoi(c).value])
  {
    hide Stoi;
    XgtProperties.TwoNumbers(a, b);
    assert [a, b, c][..2] == [a] + [b] && [a, b, c][2] == c;
    assert [Stoi(a).value, Stoi(b).value] + [Stoi(c).value] == [Stoi(a).value, Stoi(b).value, Stoi(c).value];
  }

  // The reader in front of it.

  /** Whoever sends a header calls itself LSIS-XGT or LGIS-GLO. */
  lemma Companies(header: seq<Byte>)
    requires 8 <= |header|
    ensures XgtReader.IsCompany(header) <==> Chars(header[..8]) == "LSIS-XGT" || Chars(header[..8]) == "LGIS-GLO"
  {
    var h := header[..8];
    assert forall i | 0 <= i < 8 :: Chars(h)[i] == h[i] as char;
    if Chars(h) == "LSIS-XGT" {
      SameBytes(h, COMPANY, "LSIS-XGT");
    }
    if Chars(h) == "LGIS-GLO" {
      SameBytes(h, [0x4C, 0x47, 0x49, 0x53, 0x2D, 0x47, 0x4C, 0x4F], "LGIS-GLO");
    }
  }

  lemma SameBytes(a: seq<Byte>, b: seq<Byte>, text: string)
    requires Chars(a) == text && |b| == |text| && forall i | 0 <= i < |b| :: b[i] as int == text[i] as int
    ensures a == b
  {
    forall i | 0 <= i < |a| ensures a[i] == b[i] {
      assert Chars(a)[i] == a[i] as char;
    }
  }

  lemma NameWalked(t: seq<Byte>, len: nat, offset: nat, name: seq<Byte>)
    requires |name| < 0x1_0000 && Lies(t, offset, NamedBlock(name))
    ensures XgtReader.NameEnd(t, offset) == offset + |NamedBlock(name)|
    ensures XgtReader.WalkName(t, len, offset) ==
            XgtReader.Drained(if len < offset + |NamedBlock(name)| then offset + |NamedBlock(name)| else len, true)
  {
    LiesInParts(t, offset, LeBytes(|name|), name);
    LiesWord(t, offset, |name|);
    hide Le, Low, High;
  }

  lemma {:induction false} ReadsWalked(t: seq<Byte>, len: nat, offset: nat, vs: seq<Variable>)
    requires AllValid(vs) && Lies(t, offset, ReadBlocksFor(vs)) && len <= offset + |ReadBlocksFor(vs)|
    ensures XgtReader.WalkBlocks(t, len, offset, |vs|, false) ==
            XgtReader.Drained(if vs == [] then len else offset + |ReadBlocksFor(vs)|, true)
    decreases |vs|
  {
    hide Lies, Sent, NamedBlock, XgtReader.WalkName, XgtReader.NameEnd, Variable.Valid;
    if vs != [] {
      var block, others := NamedBlock(Sent(vs[0])), ReadBlocksFor(vs[1..]);
      LiesInParts(t, offset, block, others);
      NameWalked(t, len, offset, Sent(vs[0]));
      ReadsWalked(t, if len < offset + |block| then offset + |block| else len, offset + |block|, vs[1..]);
    }
  }

  lemma DataWalked(t: seq<Byte>, len: nat, offset: nat, item: Item)
    requires item.Valid() && Lies(t, offset, DataBlock(item))
    ensures XgtReader.WalkBlock(t, len, offset, true) ==
            XgtReader.Drained(if len < offset + |DataBlock(item)| then offset + |DataBlock(item)| else len, true)
    ensures XgtReader.BlockEnd(t, offset, true) == offset + |DataBlock(item)|
  {
    hide Le, Low, High, Sent, XgtReader.WalkName, XgtReader.NameEnd, Variable.Valid;
    var name, tail := NamedBlock(Sent(item.v)), LeBytes(item.field) + item.data;
    LiesInParts(t, offset, name, tail);
    LiesInParts(t, offset + |name|, LeBytes(item.field), item.data);
    LiesWord(t, offset + |name|, item.field);
    NameWalked(t, len, offset, Sent(item.v));
    LiesWithin(t, offset + |name| + 2, item.data);
    hide Lies, NamedBlock;
  }

  lemma {:induction false} WritesWalked(t: seq<Byte>, len: nat, offset: nat, items: seq<Item>)
    requires AllComplete(items) && Lies(t, offset, WriteBlocksFor(items)) && len <= offset + |WriteBlocksFor(items)|
    ensures XgtReader.WalkBlocks(t, len, offset, |items|, true) ==
            XgtReader.Drained(if items == [] then len else offset + |WriteBlocksFor(items)|, true)
    decreases |items|
  {
    hide Lies, DataBlock, XgtReader.WalkBlock, XgtReader.BlockEnd, Item.Valid;
    if items != [] {
      var block, others := DataBlock(items[0]), WriteBlocksFor(items[1..]);
      LiesInParts(t, offset, block, others);
      DataWalked(t, len, offset, items[0]);
      WritesWalked(t, if len < offset + |block| then offset + |block| else len, offset + |block|, items[1..]);
    }
  }

  lemma BodyFields(head: seq<Byte>, command: Byte, kind: Word, field: Word, blocks: seq<Byte>, rest: seq<Byte>)
    requires |head| == 20
    ensures var t := (Request(head, command, kind, field, blocks) + rest)[18..];
            && Le(t, 2) == command && Le(t, 4) == kind && Le(t, 8) == field && Lies(t, 10, blocks)
            && |t| == 10 + |blocks| + |rest|
  {
    var r := Request(head, command, kind, field, blocks);
    Fields(head, command, kind, field, blocks);
    var t := (r + rest)[18..];
    assert forall i | 0 <= i < |r| - 18 :: t[i] == r[18 + i];
    assert t[10..10 + |blocks|] == r[28..28 + |blocks|];
    hide Low, High, Join, Request;
  }

  /** Of an individual request the reader takes exactly its bytes, whatever follows
      and however much too small its length field is. */
  lemma IndividualReadFetched(head: seq<Byte>, kind: Word, vs: seq<Variable>, len: nat, rest: seq<Byte>)
    requires |head| == 20 && kind != 0x14 && 0 < |vs| < 0x1_0000 && AllValid(vs) && len <= 10 + |ReadBlocksFor(vs)|
    ensures XgtReader.Drain((Request(head, 0x54, kind, |vs|, ReadBlocksFor(vs)) + rest)[18..], len) ==
            XgtReader.Drained(10 + |ReadBlocksFor(vs)|, true)
  {
    hide Le, Request, Lies, ReadBlocksFor, XgtReader.WalkBlocks, Variable.Valid;
    var t := (Request(head, 0x54, kind, |vs|, ReadBlocksFor(vs)) + rest)[18..];
    BodyFields(head, 0x54, kind, |vs|, ReadBlocksFor(vs), rest);
    SomeBlocks(vs);
    ReadsWalked(t, if len < 12 then 12 else len, 10, vs);
  }

  lemma IndividualWriteFetched(head: seq<Byte>, kind: Word, items: seq<Item>, len: nat, rest: seq<Byte>)
    requires |head| == 20 && kind != 0x14 && 0 < |items| < 0x1_0000 && AllComplete(items) && len <= 10 + |WriteBlocksFor(items)|
    ensures XgtReader.Drain((Request(head, 0x58, kind, |items|, WriteBlocksFor(items)) + rest)[18..], len) ==
            XgtReader.Drained(10 + |WriteBlocksFor(items)|, true)
  {
    hide Le, Request, Lies, WriteBlocksFor, XgtReader.WalkBlocks, Item.Valid;
    var t := (Request(head, 0x58, kind, |items|, WriteBlocksFor(items)) + rest)[18..];
    BodyFields(head, 0x58, kind, |items|, WriteBlocksFor(items), rest);
    SomeData(items);
    WritesWalked(t, if len < 12 then 12 else len, 10, items);
  }
}
