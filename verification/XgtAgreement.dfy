/** The XGT reader and the request processor parse the same bytes twice. They
    agree: a request the reader has completed passes every size check of the
    processor. */
module XgtAgreement {
  import opened Words
  import opened Text
  import opened Cells
  import opened Xgt
  import opened XgtReader
  import Mc

  /** The request built from the header and the drained body. */
  function RequestOf(header: seq<Byte>, t: seq<Byte>, len: nat): (r: seq<Byte>)
    requires |header| == 18 && len <= |t|
    ensures |r| == 18 + len
  {
    header + t[..len]
  }

  function NameText(t: seq<Byte>, offset: nat): string {
    if NameEnd(t, offset) <= |t| then Chars(t[offset + 2..NameEnd(t, offset)]) else ""
  }

  /** The names at the offsets that the reader walks over are all understood. */
  predicate AllResolve(t: seq<Byte>, offset: nat, n: nat, write: bool)
    decreases n
  {
    n == 0 ||
    (Resolve(NameText(t, offset)).Some? && AllResolve(t, BlockEnd(t, offset, write), n - 1, write))
  }

  lemma LeShifts(header: seq<Byte>, t: seq<Byte>, len: nat, i: nat)
    requires |header| == 18 && i + 2 <= len <= |t|
    ensures Le(RequestOf(header, t, len), 18 + i) == Le(t, i)
  {
  }

  /** Where the reader has fetched a name the processor finds it, 18 bytes on. */
  lemma NameAgrees(header: seq<Byte>, t: seq<Byte>, len: nat, offset: nat, total: nat)
    requires |header| == 18 && len <= |t| && WalkName(t, len, offset).complete
    requires WalkName(t, len, offset).len <= total <= |t|
    ensures NameAt(RequestOf(header, t, total), 18 + offset) ==
            Some(NameBlock(NameText(t, offset), 18 + NameEnd(t, offset)))
  {
    var request := RequestOf(header, t, total);
    LeShifts(header, t, total, offset);
    hide Le, Chars;
    SliceShifts(header, t, total, offset + 2, NameEnd(t, offset));
  }

  lemma SliceShifts(header: seq<Byte>, t: seq<Byte>, len: nat, i: nat, j: nat)
    requires |header| == 18 && i <= j <= len <= |t|
    ensures RequestOf(header, t, len)[18 + i..18 + j] == t[i..j]
  {
  }

  lemma {:induction false} ReadBlocksAgree(m: Store, header: seq<Byte>, t: seq<Byte>, len: nat, offset: nat, n: nat, total: nat)
    requires |header| == 18 && len <= |t| && WalkBlocks(t, len, offset, n, false).complete
    requires WalkBlocks(t, len, offset, n, false).len <= total <= |t|
    ensures ReadBlocks(m, RequestOf(header, t, total), 18 + offset, n).0 ==
            if AllResolve(t, offset, n, false) then 0 else LENGTH_ERROR
    decreases n
  {
    hide NameAt, Resolve, NameText, ReadBytes, RequestOf, Need;
    if n > 0 {
      var d := WalkName(t, len, offset);
      WalkNameBounds(t, len, offset);
      WalkBounds(t, d.len, NameEnd(t, offset), n - 1, false);
      NameAgrees(header, t, len, offset, total);
      if Resolve(NameText(t, offset)).Some? {
        ReadBlocksAgree(m, header, t, d.len, NameEnd(t, offset), n - 1, total);
      }
    }
  }

  lemma WalkNameBounds(t: seq<Byte>, len: nat, offset: nat)
    requires len <= |t|
    ensures len <= WalkName(t, len, offset).len <= |t|
  {
  }

  lemma DataAgrees(header: seq<Byte>, t: seq<Byte>, len: nat, end: nat, total: nat)
    requires |header| == 18 && len <= |t| && WalkData(t, len, end).complete
    requires WalkData(t, len, end).len <= total <= |t|
    ensures len <= WalkData(t, len, end).len
    ensures var request := RequestOf(header, t, total);
            && 18 + end + 2 <= |request|
            && 18 + end + 2 + WriteLength(Le(request, 18 + end)) == 18 + DataEnd(t, end) <= |request|
  {
    LeShifts(header, t, total, end);
  }

  lemma {:induction false} WriteBlocksAgree(m: Store, header: seq<Byte>, t: seq<Byte>, len: nat, offset: nat, n: nat, total: nat)
    requires |header| == 18 && len <= |t| && WalkBlocks(t, len, offset, n, true).complete
    requires WalkBlocks(t, len, offset, n, true).len <= total <= |t|
    ensures WriteBlocks(m, RequestOf(header, t, total), 18 + offset, n).0 ==
            if AllResolve(t, offset, n, true) then 0 else LENGTH_ERROR
    decreases n
  {
    hide NameAt, Resolve, NameText, WriteTo, RequestOf, Need, WalkName, WalkData, DataEnd, WriteLength;
    if n > 0 {
      var d := WalkName(t, len, offset);
      var end := NameEnd(t, offset);
      var e := WalkData(t, d.len, end);
      WalkNameBounds(t, len, offset);
      WalkDataBounds(t, d.len, end);
      WalkBounds(t, e.len, DataEnd(t, end), n - 1, true);
      NameAgrees(header, t, len, offset, total);
      DataAgrees(header, t, d.len, end, total);
      if Resolve(NameText(t, offset)).Some? {
        var request := RequestOf(header, t, total);
        var r := Resolve(NameText(t, offset)).value;
        WriteBlocksAgree(WriteTo(m, r, request, 18 + end + 2), header, t, e.len, DataEnd(t, end), n - 1, total);
      }
    }
  }

  lemma WalkDataBounds(t: seq<Byte>, len: nat, end: nat)
    requires len <= |t|
    ensures len <= WalkData(t, len, end).len <= |t|
  {
  }

  function StatusOf(frame: seq<Byte>): Word {
    Le(frame, 26)
  }

  lemma FrameStatus(request: seq<Byte>, status: Word, blocks: Word, data: seq<Byte>)
    requires 30 <= |request|
    ensures StatusOf(Frame(request, status, blocks, data)) == status
  {
    SplitJoins(status);
    var f := Frame(request, status, blocks, data);
    assert f[26] == Low(status) && f[27] == High(status);
  }

  /** The names a request of this kind mentions are all understood. */
  predicate Understood(t: seq<Byte>) {
    if Le(t, 4) == CONTINUOUS then Resolve(NameText(t, 10)).Some?
    else AllResolve(t, 10, Le(t, 8), Le(t, 2) == WRITE)
  }

  lemma HeadShifts(header: seq<Byte>, t: seq<Byte>, len: nat)
    requires |header| == 18 && 12 <= len <= |t|
    ensures var r := RequestOf(header, t, len);
            Le(r, 20) == Le(t, 2) && Le(r, 22) == Le(t, 4) && Le(r, 26) == Le(t, 8) && Le(r, 28) == Le(t, 10)
  {
    LeShifts(header, t, len, 2);
    LeShifts(header, t, len, 4);
    LeShifts(header, t, len, 8);
    LeShifts(header, t, len, 10);
  }

  lemma ContinuousAgrees(m: Store, header: seq<Byte>, t: seq<Byte>, len: nat)
    requires |header| == 18 && len <= |t| && Drain(t, len).complete
    requires Le(t, 4) == CONTINUOUS && (Le(t, 2) == READ || Le(t, 2) == WRITE)
    ensures var request := RequestOf(header, t, (DrainBounds(t, len); Drain(t, len).len));
            StatusOf(Respond(m, request).frame) == if Understood(t) then 0 else LENGTH_ERROR
  {
    hide Resolve, Frame, RequestOf, ReadContinuous, StatusOf, WordsFrom, Mc.WritePoints, WriteLength;
    DrainBounds(t, len);
    var total := Drain(t, len).len;
    var request := RequestOf(header, t, total);
    HeadShifts(header, t, total);
    NameAgrees(header, t, Need(t, len, 12).len, 10, total) by { ContinuousName(t, len); }
    if Le(t, 2) == WRITE {
      DataAgrees(header, t, Need(t, len, 12).len, NameEnd(t, 10), total);
    }
    ContinuousStatus(m, request, NameText(t, 10));
  }

  /** Fetching up to behind the name fetches the name. */
  lemma ContinuousName(t: seq<Byte>, len: nat)
    requires len <= |t| && Drain(t, len).complete
    requires Le(t, 4) == CONTINUOUS && (Le(t, 2) == READ || Le(t, 2) == WRITE)
    ensures WalkName(t, Need(t, len, 12).len, 10).complete
    ensures WalkName(t, Need(t, len, 12).len, 10).len <= Drain(t, len).len
  {
  }

  lemma ContinuousStatus(m: Store, request: seq<Byte>, name: string)
    requires 30 <= |request| && Le(request, 22) == CONTINUOUS
    requires Le(request, 20) == READ || Le(request, 20) == WRITE
    requires var after := 30 + Le(request, 28) as int;
             && after + 2 <= |request| && Chars(request[30..after]) == name
             && (Le(request, 20) == WRITE ==> after + 2 + WriteLength(Le(request, after)) <= |request|)
    ensures StatusOf(Respond(m, request).frame) == if Resolve(name).Some? then 0 else LENGTH_ERROR
  {
    hide Resolve, Frame, StatusOf, ReadContinuous, WordsFrom, Mc.WritePoints;
    var after, resolved := 30 + Le(request, 28), Resolve(name);
    FrameStatus(request, LENGTH_ERROR, 1, []);
    FrameStatus(request, 0, 1, []);
    if Le(request, 20) == READ && resolved.Some? {
      FrameStatus(request, 0, 1, ReadContinuous(m, resolved.value.index, Le(request, after)));
    }
  }

  lemma IndividualAgrees(m: Store, header: seq<Byte>, t: seq<Byte>, len: nat)
    requires |header| == 18 && len <= |t| && Drain(t, len).complete
    requires Le(t, 4) != CONTINUOUS && (Le(t, 2) == READ || Le(t, 2) == WRITE)
    ensures var request := RequestOf(header, t, (DrainBounds(t, len); Drain(t, len).len));
            StatusOf(Respond(m, request).frame) == if Understood(t) then 0 else LENGTH_ERROR
  {
    hide Resolve, Frame, RequestOf, ReadBlocks, WriteBlocks, AllResolve, WalkBlocks, StatusOf;
    DrainBounds(t, len);
    var total, start := Drain(t, len).len, Need(t, len, 12).len;
    var request := RequestOf(header, t, total);
    WalkBounds(t, start, 10, Le(t, 8), Le(t, 2) == WRITE);
    HeadShifts(header, t, total);
    if Le(t, 2) == READ {
      ReadBlocksAgree(m, header, t, start, 10, Le(t, 8), total);
      FrameStatus(request, ReadBlocks(m, request, 28, Le(t, 8)).0, Le(t, 8), ReadBlocks(m, request, 28, Le(t, 8)).1);
    } else {
      WriteBlocksAgree(m, header, t, start, 10, Le(t, 8), total);
      FrameStatus(request, WriteBlocks(m, request, 28, Le(t, 8)).0, Le(t, 8), []);
    }
  }

  /** Whenever the reader's walk ends without disconnect, a read or write request
      is answered with status 0 if all its variable names are understood and with
      0x1102 if one is not: no size check of the processor fails. */
  lemma DrainedRequestsPassSizeChecks(m: Store, header: seq<Byte>, t: seq<Byte>, len: nat)
    requires |header| == 18 && len <= |t| && Drain(t, len).complete
    requires Le(t, 2) == READ || Le(t, 2) == WRITE
    ensures var request := RequestOf(header, t, (DrainBounds(t, len); Drain(t, len).len));
            StatusOf(Respond(m, request).frame) == if Understood(t) then 0 else LENGTH_ERROR
  {
    hide Respond, RequestOf, Understood, Drain, StatusOf;
    if Le(t, 4) == CONTINUOUS {
      ContinuousAgrees(m, header, t, len);
    } else {
      IndividualAgrees(m, header, t, len);
    }
  }

  // A length field that says too little makes no difference.

  lemma {:induction false} WalkFromMore(t: seq<Byte>, len: nat, more: nat, offset: nat, n: nat, write: bool)
    requires len <= more <= |t|
    requires WalkBlocks(t, len, offset, n, write).complete
    ensures WalkBlocks(t, more, offset, n, write) ==
            Drained(Max(more, WalkBlocks(t, len, offset, n, write).len), true)
    decreases n
  {
    if n > 0 {
      hide WalkBlock, BlockEnd;
      var d, e := WalkBlock(t, len, offset, write), WalkBlock(t, more, offset, write);
      BlockFromMore(t, len, more, offset, write);
      WalkFromMore(t, d.len, e.len, BlockEnd(t, offset, write), n - 1, write);
      WalkBounds(t, d.len, BlockEnd(t, offset, write), n - 1, write);
    }
  }

  function Max(x: nat, y: nat): nat {
    if x < y then y else x
  }

  lemma BlockFromMore(t: seq<Byte>, len: nat, more: nat, offset: nat, write: bool)
    requires len <= more <= |t| && WalkBlock(t, len, offset, write).complete
    ensures WalkBlock(t, more, offset, write) == Drained(Max(more, WalkBlock(t, len, offset, write).len), true)
    ensures len <= WalkBlock(t, len, offset, write).len <= |t|
  {
    hide NameEnd, DataEnd;
  }

  /** If the walk completes from a body of `len` bytes, it ends at the same byte
      from any body between that and its end: the request does not depend on a
      length field that is too small. */
  lemma ShortLengthFieldsAreHarmless(t: seq<Byte>, len: nat, more: nat)
    requires len <= more <= Drain(t, len).len <= |t| && Drain(t, len).complete
    ensures Drain(t, more) == Drain(t, len)
  {
    hide WalkBlocks, NameEnd, DataEnd;
    var d, e := Need(t, len, 12), Need(t, more, 12);
    if Le(t, 4) != CONTINUOUS && (Le(t, 2) == READ || Le(t, 2) == WRITE) {
      WalkFromMore(t, d.len, e.len, 10, Le(t, 8), Le(t, 2) == WRITE);
      WalkBounds(t, d.len, 10, Le(t, 8), Le(t, 2) == WRITE);
    }
  }
}
