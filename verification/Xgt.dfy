/** The LS XGT request processor. */
module Xgt {
  import opened Words
  import opened Text
  import opened Cells
  import opened Memory
  import Mc

  /** `readUint16LE`; bytes behind the end read as 0. */
  function Le(s: seq<Byte>, i: nat): Word {
    Join(At(s, i + 1), At(s, i))
  }

  function Chars(s: seq<Byte>): (t: string)
    ensures |t| == |s|
  {
    seq(|s|, i requires 0 <= i < |s| => s[i] as char)
  }

  // Variable names.

  datatype Resolved = Resolved(area: Area, isBit: bool, index: Word, sub: Word)

  /** All tokens as numbers, if all are. */
  function Numbers(tokens: seq<string>): Option<seq<int>> {
    if tokens == [] then Some([])
    else
      var k := |tokens| - 1;
      match (Numbers(tokens[..k]), Stoi(tokens[k]))
      case (Some(ns), Some(n)) => Some(ns + [n])
      case _ => None
  }

  function BitAreaOf(c: char): Area {
    if c == 'I' then LsI else if c == 'Q' then LsQ else if c == 'M' then LsM else Nowhere
  }

  function Resolve(name: string): Option<Resolved> {
    if |name| < 4 then None
    else
      var start := if name[0] == '%' then 1 else 0;
      var area, kind, rest := BitAreaOf(name[start]), name[start + 1], name[start + 2..];
      if area.Nowhere? then None
      else if kind == 'X' then
        match Numbers(Split(rest, '.'))
        case None => None
        case Some(ns) =>
          if ns == [] then None
          else if |ns| == 1 then Some(Resolved(area, true, ToWord(ns[0]), 0))
          else Some(Resolved(area, true, ToWord(ns[|ns| - 2]), ToWord(ns[|ns| - 1])))
      else if kind == 'W' || kind == 'B' then
        match Stoi(rest)
        case None => None
        case Some(n) => Some(Resolved(area, false, if kind == 'B' then ToWord(n) / 2 else ToWord(n), 0))
      else None
  }

  /** The cell a name stands for; all words live in one area. */
  function Target(r: Resolved): Cell {
    if r.isBit then Cell(r.area, ToWord(r.index * 8 + r.sub)) else Cell(LsW, r.index)
  }

  // Responses.

  const READ: Word := 0x54
  const WRITE: Word := 0x58
  const LENGTH_ERROR: Word := 0x1102
  const GENERAL_ERROR: Word := 0x00FF
  const CONTINUOUS: Word := 0x14

  const COMPANY: seq<Byte> := [0x4C, 0x53, 0x49, 0x53, 0x2D, 0x58, 0x47, 0x54]

  function LeBytes(w: Word): seq<Byte> {
    [Low(w), High(w)]
  }

  /** Where nothing of the request can be echoed. */
  function BareError(command: Word, status: Word): seq<Byte> {
    COMPANY + [0, 0, 0, 0, 0, 0x11, 0, 0, 12, 0, 0, 0] + LeBytes(command) + [0, 0, 0, 0] + LeBytes(status) + [0, 0]
  }

  function ResponseCommand(command: Word): Word {
    if command == READ then 0x55 else 0x59
  }

  function Frame(request: seq<Byte>, status: Word, blocks: Word, data: seq<Byte>): seq<Byte>
    requires 30 <= |request|
  {
    request[..13] + [0x11] + request[14..16] + LeBytes(ToWord(12 + |data|)) + request[18..20]
    + LeBytes(ResponseCommand(Le(request, 20))) + LeBytes(Le(request, 22)) + [0, 0]
    + LeBytes(status) + LeBytes(blocks) + data
  }

  datatype Reply = Reply(frame: seq<Byte>, mem: Store)

  // Blocks.

  datatype NameBlock = NameBlock(name: string, next: nat)

  /** A length-prefixed variable name at `offset`. */
  function NameAt(request: seq<Byte>, offset: nat): Option<NameBlock> {
    if |request| < offset + 2 then None
    else
      var next := offset + 2 + Le(request, offset);
      if |request| < next then None else Some(NameBlock(Chars(request[offset + 2..next]), next))
  }

  /** The length of write data; 0x20 is taken for 2. */
  function WriteLength(w: Word): Word {
    if w == 0x20 then 2 else w
  }

  function ReadBytes(m: Store, r: Resolved): seq<Byte> {
    var v := Read(m, Target(r));
    if r.isBit then [1, 0, if v != 0 then 1 else 0] else [2, 0] + LeBytes(v)
  }

  /** Status and data of reading `n` blocks from `offset` on. */
  function ReadBlocks(m: Store, request: seq<Byte>, offset: nat, n: nat): (Word, seq<Byte>)
    decreases n
  {
    if n == 0 then (0, [])
    else
      match NameAt(request, offset)
      case None => (LENGTH_ERROR, [])
      case Some(b) =>
        match Resolve(b.name)
        case None => (LENGTH_ERROR, [])
        case Some(r) =>
          var (status, rest) := ReadBlocks(m, request, b.next, n - 1);
          (status, ReadBytes(m, r) + rest)
  }

  function WriteTo(m: Store, r: Resolved, request: seq<Byte>, at: nat): (t: Store)
    ensures t.Keys == m.Keys && (WellFormed(m) ==> WellFormed(t))
  {
    Write(m, Target(r), if r.isBit then (if At(request, at) != 0 then 1 else 0) else Le(request, at))
  }

  /** Writes the block at `offset`; where the next one starts. */
  function WriteBlock(m: Store, request: seq<Byte>, offset: nat): (r: (Option<nat>, Store))
    ensures r.1.Keys == m.Keys && (WellFormed(m) ==> WellFormed(r.1))
    ensures r.0.None? ==> r.1 == m
  {
    match NameAt(request, offset)
    case None => (None, m)
    case Some(b) =>
      match Resolve(b.name)
      case None => (None, m)
      case Some(r) =>
        if |request| < b.next + 2 then (None, m)
        else
          var at := b.next + 2;
          var length := WriteLength(Le(request, b.next));
          if |request| < at + length then (None, m)
          else (Some(at + length), WriteTo(m, r, request, at))
  }

  /** Blocks are written as they are met: an error leaves the earlier ones. */
  function WriteBlocks(m: Store, request: seq<Byte>, offset: nat, n: nat): (r: (Word, Store))
    ensures r.1.Keys == m.Keys && (WellFormed(m) ==> WellFormed(r.1))
    decreases n
  {
    if n == 0 then (0, m)
    else
      match WriteBlock(m, request, offset)
      case (None, t) => (LENGTH_ERROR, t)
      case (Some(next), t) => WriteBlocks(t, request, next, n - 1)
  }

  /** Consecutive words; addresses wrap at 16 bits. */
  function ReadContinuous(m: Store, index: Word, byteCount: Word): seq<Byte> {
    LeBytes(byteCount) + Mc.LittleEndian(Mc.ReadPoints(m, LsW, index, byteCount / 2))
  }

  function WordsFrom(request: seq<Byte>, at: nat, n: nat): (s: seq<Word>)
    ensures |s| == n
  {
    seq<Word>(n, i requires 0 <= i < n => Le(request, at + 2 * i))
  }

  function Continuous(m: Store, request: seq<Byte>): Reply
    requires 30 <= |request|
  {
    var command, after := Le(request, 20), 30 + Le(request, 28);
    if |request| < after then Reply(BareError(ResponseCommand(command), LENGTH_ERROR), m)
    else
      var resolved := Resolve(Chars(request[30..after]));
      if command == READ then
        if |request| < after + 2 || resolved.None? then Reply(Frame(request, LENGTH_ERROR, 1, []), m)
        else Reply(Frame(request, 0, 1, ReadContinuous(m, resolved.value.index, Le(request, after))), m)
      else if command == WRITE then
        if |request| < after + 2 then Reply(Frame(request, LENGTH_ERROR, 1, []), m)
        else
          var length := WriteLength(Le(request, after));
          if |request| < after + 2 + length || resolved.None? then Reply(Frame(request, LENGTH_ERROR, 1, []), m)
          else Reply(Frame(request, 0, 1, []),
                     Mc.WritePoints(m, LsW, resolved.value.index, WordsFrom(request, after + 2, length / 2)))
      else Reply(Frame(request, GENERAL_ERROR, 1, []), m)
  }

  function Individual(m: Store, request: seq<Byte>): Reply
    requires 30 <= |request|
  {
    var command, n := Le(request, 20), Le(request, 26);
    if command == READ then
      var (status, data) := ReadBlocks(m, request, 28, n);
      Reply(Frame(request, status, n, data), m)
    else if command == WRITE then
      var (status, t) := WriteBlocks(m, request, 28, n);
      Reply(Frame(request, status, n, []), t)
    else Reply(Frame(request, GENERAL_ERROR, n, []), m)
  }

  function Respond(m: Store, request: seq<Byte>): Reply {
    if |request| < 30 then Reply(BareError(GENERAL_ERROR, GENERAL_ERROR), m)
    else if Le(request, 22) == CONTINUOUS then Continuous(m, request)
    else Individual(m, request)
  }

  class XgtServer {
    const memory: PlcMemory

    constructor (memory: PlcMemory)
      ensures this.memory == memory
    {
      this.memory := memory;
    }

    method ParseNumbers(tokens: seq<string>) returns (result: Option<seq<int>>)
      ensures result == Numbers(tokens)
    {
      hide Stoi;
      var nums: seq<int> := [];
      for i := 0 to |tokens|
        invariant Numbers(tokens[..i]) == Some(nums)
      {
        assert tokens[..i + 1][..i] == tokens[..i];
        match Stoi(tokens[i]) {
          case None =>
            NumbersFail(tokens, i + 1);
            return None;
          case Some(n) => nums := nums + [n];
        }
      }
      assert tokens[..|tokens|] == tokens;
      return Some(nums);
    }

    method ResolveAddress(name: string) returns (result: Option<Resolved>)
      ensures result == Resolve(name)
    {
      hide Numbers, Stoi, Split;
      if |name| < 4 {
        return None;
      }
      var start := if name[0] == '%' then 1 else 0;
      var area, kind := BitAreaOf(name[start]), name[start + 1];
      if area.Nowhere? {
        return None;
      }
      var numberPart := name[start + 2..];
      if kind == 'X' {
        var parsed := ParseNumbers(Split(numberPart, '.'));
        if parsed.None? {
          return None;
        }
        var nums := parsed.value;
        if nums == [] {
          return None;
        } else if |nums| == 1 {
          return Some(Resolved(area, true, ToWord(nums[0]), 0));
        } else {
          return Some(Resolved(area, true, ToWord(nums[|nums| - 2]), ToWord(nums[|nums| - 1])));
        }
      } else if kind == 'W' || kind == 'B' {
        match Stoi(numberPart) {
          case None => return None;
          case Some(n) =>
            var index := ToWord(n);
            if kind == 'B' {
              index := index / 2;
            }
            return Some(Resolved(area, false, index, 0));
        }
      }
      return None;
    }

    /** One block of a read response. */
    method EncodeValue(r: Resolved) returns (bytes: seq<Byte>)
      ensures bytes == ReadBytes(memory.cells, r)
    {
      var val := memory.ReadValue(Target(r));
      if r.isBit {
        bytes := [1, 0] + [if val != 0 then 1 else 0];
      } else {
        bytes := [2, 0] + LeBytes(val);
      }
    }

    method ProcessReadBlocks(request: seq<Byte>, blockCount: Word) returns (status: Word, respData: seq<Byte>)
      ensures (status, respData) == ReadBlocks(memory.cells, request, 28, blockCount)
    {
      hide Resolve, Chars, ReadBytes, Target, Read;
      status, respData := 0, [];
      var offset: nat := 28;
      ghost var all := ReadBlocks(memory.cells, request, 28, blockCount);
      for b := 0 to blockCount
        invariant status == 0 && all.0 == ReadBlocks(memory.cells, request, offset, blockCount - b).0
        invariant all.1 == respData + ReadBlocks(memory.cells, request, offset, blockCount - b).1
      {
        assert respData + [] == respData;
        if |request| < offset + 2 {
          status := LENGTH_ERROR;
          break;
        }
        var varLen := Le(request, offset);
        offset := offset + 2;
        if |request| < offset + varLen {
          status := LENGTH_ERROR;
          break;
        }
        var resolved := ResolveAddress(Chars(request[offset..offset + varLen]));
        offset := offset + varLen;
        if resolved.None? {
          status := LENGTH_ERROR;
          break;
        }
        var bytes := EncodeValue(resolved.value);
        ghost var rest := ReadBlocks(memory.cells, request, offset, blockCount - b - 1).1;
        assert respData + (bytes + rest) == (respData + bytes) + rest;
        respData := respData + bytes;
      }
      assert respData + [] == respData;
    }

    method DecodeValue(r: Resolved, request: seq<Byte>, at: nat)
      requires memory.Valid()
      modifies memory`cells
      ensures memory.Valid() && memory.cells == WriteTo(old(memory.cells), r, request, at)
    {
      if r.isBit {
        memory.WriteValue(Target(r), if At(request, at) != 0 then 1 else 0);
      } else {
        memory.WriteValue(Target(r), Le(request, at));
      }
    }

    /** One block at `offset`: where the next one starts, or nothing if it is bad. */
    method ProcessWriteBlock(request: seq<Byte>, offset: nat) returns (next: Option<nat>)
      requires memory.Valid()
      modifies memory`cells
      ensures memory.Valid()
      ensures (next, memory.cells) == WriteBlock(old(memory.cells), request, offset)
    {
      hide Resolve, Chars, WriteTo, Covers, WellFormed, Le, WriteLength;
      if |request| < offset + 2 {
        return None;
      }
      var varLen := Le(request, offset);
      var at := offset + 2;
      if |request| < at + varLen {
        return None;
      }
      var resolved := ResolveAddress(Chars(request[at..at + varLen]));
      at := at + varLen;
      if resolved.None? || |request| < at + 2 {
        return None;
      }
      var writeDataLen := WriteLength(Le(request, at));
      at := at + 2;
      if |request| < at + writeDataLen {
        return None;
      }
      DecodeValue(resolved.value, request, at);
      return Some(at + writeDataLen);
    }

    method ProcessWriteBlocks(request: seq<Byte>, blockCount: Word) returns (status: Word)
      requires memory.Valid()
      modifies memory`cells
      ensures memory.Valid()
      ensures (status, memory.cells) == WriteBlocks(old(memory.cells), request, 28, blockCount)
    {
      hide WriteBlock, Covers, WellFormed;
      var offset: nat := 28;
      ghost var all := WriteBlocks(memory.cells, request, 28, blockCount);
      for b := 0 to blockCount
        invariant memory.Valid()
        invariant all == WriteBlocks(memory.cells, request, offset, blockCount - b)
      {
        var next := ProcessWriteBlock(request, offset);
        if next.None? {
          return LENGTH_ERROR;
        }
        offset := next.value;
      }
      return 0;
    }

    method CollectContinuous(index: Word, byteCount: Word) returns (respData: seq<Byte>)
      ensures respData == ReadContinuous(memory.cells, index, byteCount)
    {
      respData := LeBytes(byteCount);
      ghost var words := Mc.ReadPoints(memory.cells, LsW, index, byteCount / 2);
      for i := 0 to byteCount / 2
        invariant respData == LeBytes(byteCount) + Mc.LittleEndian(words[..i])
      {
        assert words[..i + 1][..i] == words[..i];
        var val := memory.ReadValue(Mc.PointCell(LsW, index, i));
        respData := respData + LeBytes(val);
      }
      assert words[..byteCount / 2] == words;
    }

    method ProcessContinuous(request: seq<Byte>) returns (response: seq<Byte>)
      requires memory.Valid() && 30 <= |request|
      modifies memory`cells
      ensures memory.Valid() && Reply(response, memory.cells) == Continuous(old(memory.cells), request)
    {
      hide Resolve, Chars, Frame, BareError, ReadContinuous, WordsFrom, Mc.WritePoints;
      var command, varLen := Le(request, 20), Le(request, 28);
      var after := 30 + varLen as int;
      if |request| < after {
        return BareError(ResponseCommand(command), LENGTH_ERROR);
      }
      var resolved := ResolveAddress(Chars(request[30..after]));
      if command == READ {
        if |request| < after + 2 || resolved.None? {
          return Frame(request, LENGTH_ERROR, 1, []);
        }
        var respData := CollectContinuous(resolved.value.index, Le(request, after));
        return Frame(request, 0, 1, respData);
      } else if command == WRITE {
        if |request| < after + 2 {
          return Frame(request, LENGTH_ERROR, 1, []);
        }
        var length := WriteLength(Le(request, after));
        if |request| - after - 2 < length || resolved.None? {
          return Frame(request, LENGTH_ERROR, 1, []);
        }
        WriteContinuous(request, after + 2, length / 2, resolved.value.index);
        return Frame(request, 0, 1, []);
      }
      return Frame(request, GENERAL_ERROR, 1, []);
    }

    method WriteContinuous(request: seq<Byte>, at: nat, n: Word, index: Word)
      requires memory.Valid()
      modifies memory`cells
      ensures memory.Valid()
      ensures memory.cells == Mc.WritePoints(old(memory.cells), LsW, index, WordsFrom(request, at, n))
    {
      hide Mc.WritePoints, Write, Covers, WellFormed;
      ghost var words := WordsFrom(request, at, n);
      assert words[..0] == [];
      Mc.NoPoints(memory.cells, LsW, index);
      for i := 0 to n
        invariant memory.Valid() && memory.cells == Mc.WritePoints(old(memory.cells), LsW, index, words[..i])
      {
        Mc.WritePointsStep(old(memory.cells), LsW, index, words, i);
        memory.WriteValue(Mc.PointCell(LsW, index, i), Le(request, at + i * 2));
      }
      assert words[..n] == words;
    }

    method ProcessRequest(request: seq<Byte>) returns (response: seq<Byte>)
      requires memory.Valid()
      modifies memory`cells
      ensures memory.Valid() && Reply(response, memory.cells) == Respond(old(memory.cells), request)
    {
      if |request| < 30 {
        return BareError(GENERAL_ERROR, GENERAL_ERROR);
      }
      var command, dataType := Le(request, 20), Le(request, 22);
      if dataType == CONTINUOUS {
        response := ProcessContinuous(request);
        return;
      }
      var blockCount := Le(request, 26);
      if command == READ {
        var status, respData := ProcessReadBlocks(request, blockCount);
        return Frame(request, status, blockCount, respData);
      } else if command == WRITE {
        var status := ProcessWriteBlocks(request, blockCount);
        return Frame(request, status, blockCount, []);
      }
      return Frame(request, GENERAL_ERROR, blockCount, []);
    }
  }

  lemma {:induction false} NumbersFail(tokens: seq<string>, k: nat)
    requires k <= |tokens| && Numbers(tokens[..k]).None?
    ensures Numbers(tokens).None?
    decreases |tokens|
  {
    if k < |tokens| {
      var t := tokens[..|tokens| - 1];
      assert t[..k] == tokens[..k];
      NumbersFail(t, k);
    } else {
      assert tokens[..k] == tokens;
    }
  }
}
