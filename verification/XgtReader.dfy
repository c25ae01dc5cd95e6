/** The XGT server's reader: because some clients put too small a length into
    the header, it walks the body it has and fetches what the body's own length
    fields say is missing. */
module XgtReader {
  import opened Words
  import opened Cells
  import opened Connection
  import opened Xgt
  import opened Framing

  /** How much of the bytes behind the header belongs to the body, and whether the
      stream was long enough for all of it. */
  datatype Drained = Drained(len: nat, complete: bool)

  /** At least `n` bytes are needed; `t` is all that will ever come. */
  function Need(t: seq<Byte>, len: nat, n: nat): Drained {
    if n <= len then Drained(len, true)
    else if n <= |t| then Drained(n, true)
    else Drained(len, false)
  }

  /** Where a name block at `offset` ends. */
  function NameEnd(t: seq<Byte>, offset: nat): nat {
    offset + 2 + Le(t, offset)
  }

  /** Where the data behind a name that ends at `end` ends. */
  function DataEnd(t: seq<Byte>, end: nat): nat {
    end + 2 + WriteLength(Le(t, end))
  }

  function WalkName(t: seq<Byte>, len: nat, offset: nat): Drained {
    var d := Need(t, len, offset + 2);
    if d.complete then Need(t, d.len, NameEnd(t, offset)) else d
  }

  function WalkData(t: seq<Byte>, len: nat, end: nat): Drained {
    var d := Need(t, len, end + 2);
    if d.complete then Need(t, d.len, DataEnd(t, end)) else d
  }

  function BlockEnd(t: seq<Byte>, offset: nat, write: bool): nat {
    if write then DataEnd(t, NameEnd(t, offset)) else NameEnd(t, offset)
  }

  function WalkBlock(t: seq<Byte>, len: nat, offset: nat, write: bool): Drained {
    var d := WalkName(t, len, offset);
    if d.complete && write then WalkData(t, d.len, NameEnd(t, offset)) else d
  }

  function WalkBlocks(t: seq<Byte>, len: nat, offset: nat, n: nat, write: bool): Drained
    decreases n
  {
    if n == 0 then Drained(len, true)
    else
      var d := WalkBlock(t, len, offset, write);
      if d.complete then WalkBlocks(t, d.len, BlockEnd(t, offset, write), n - 1, write) else d
  }

  /** The whole walk, from a body of `len` bytes. */
  function Drain(t: seq<Byte>, len: nat): Drained {
    var d := Need(t, len, 12);
    if !d.complete then d
    else
      var command := Le(t, 2);
      if Le(t, 4) == CONTINUOUS then
        if command == READ then Need(t, d.len, NameEnd(t, 10) + 2)
        else if command == WRITE then WalkData(t, d.len, NameEnd(t, 10))
        else d
      else if command == READ || command == WRITE then WalkBlocks(t, d.len, 10, Le(t, 8), command == WRITE)
      else d
  }

  predicate IsCompany(header: seq<Byte>)
    requires 8 <= |header|
  {
    header[..8] == COMPANY || header[..8] == [0x4C, 0x47, 0x49, 0x53, 0x2D, 0x47, 0x4C, 0x4F]
  }

  /** The packet length of an acceptable header whose bytes have all come, or 0. */
  function XgtLength(stream: seq<Byte>): (n: nat)
    ensures n > 0 ==> 18 + n <= |stream|
  {
    if |stream| < 18 || !IsCompany(stream) then 0
    else
      var length := Le(stream, 16);
      if length > 2048 || |stream| - 18 < length then 0 else length
  }

  function XgtSession(m: Store, stream: seq<Byte>): Outcome
    decreases |stream|
  {
    var n := XgtLength(stream);
    if n == 0 then Outcome([], m)
    else
      var t := stream[18..];
      var d := Drain(t, n);
      DrainBounds(t, n);
      var r := Respond(m, stream[..18] + t[..d.len]);
      After([r.frame], XgtSession(r.mem, if d.complete then t[d.len..] else []))
  }

  lemma {:induction false} WalkBounds(t: seq<Byte>, len: nat, offset: nat, n: nat, write: bool)
    requires len <= |t|
    ensures len <= WalkBlocks(t, len, offset, n, write).len <= |t|
    decreases n
  {
    if n > 0 {
      var d := WalkBlock(t, len, offset, write);
      if d.complete {
        WalkBounds(t, d.len, BlockEnd(t, offset, write), n - 1, write);
      }
    }
  }

  lemma DrainBounds(t: seq<Byte>, len: nat)
    requires len <= |t|
    ensures len <= Drain(t, len).len <= |t|
  {
    var d := Need(t, len, 12);
    if d.complete {
      WalkBounds(t, d.len, 10, Le(t, 8), Le(t, 2) == WRITE);
    }
  }

  /** The body read so far, and the rest of the stream. */
  class Reader {
    const socket: Socket
    var body: seq<Byte>
    var disconnected: bool
    /** All bytes behind the header. */
    ghost const t: seq<Byte>

    ghost predicate Valid()
      reads this, socket
    {
      && socket.Valid()
      && |body| <= |t| && body == t[..|body|]
      && socket.Rest() == if disconnected then [] else t[|body|..]
    }

    ghost function Progress(): Drained
      reads this
    {
      Drained(|body|, !disconnected)
    }

    constructor (socket: Socket, body: seq<Byte>)
      requires socket.Valid()
      ensures Valid() && this.socket == socket && this.body == body && !disconnected
      ensures t == body + socket.Rest()
    {
      this.socket, this.body, disconnected := socket, body, false;
      t := body + socket.Rest();
    }

    /** Makes the body at least `n` bytes long, waiting for what is missing. */
    method Fetch(n: nat)
      requires Valid() && !disconnected
      modifies this`body, this`disconnected, socket
      ensures Valid() && Progress() == Need(t, |old(body)|, n) && old(body) <= body
    {
      if |body| < n {
        var ok, extra := socket.ReadFully(n - |body|);
        if ok {
          body := body + extra;
        } else {
          disconnected := true;
        }
      }
    }

    method FetchName(offset: nat)
      requires Valid() && !disconnected
      modifies this`body, this`disconnected, socket
      ensures Valid() && Progress() == WalkName(t, |old(body)|, offset)
      ensures !disconnected ==> NameEnd(body, offset) == NameEnd(t, offset)
    {
      Fetch(offset + 2);
      if !disconnected {
        assert Le(body, offset) == Le(t, offset);
        var varLen := Le(body, offset);
        Fetch(offset + 2 + varLen);
      }
    }

    method FetchData(end: nat)
      requires Valid() && !disconnected
      modifies this`body, this`disconnected, socket
      ensures Valid() && Progress() == WalkData(t, |old(body)|, end)
      ensures !disconnected ==> DataEnd(body, end) == DataEnd(t, end)
    {
      Fetch(end + 2);
      if !disconnected {
        assert Le(body, end) == Le(t, end);
        var writeDataLen := Le(body, end);
        if writeDataLen == 0x20 {
          writeDataLen := 2;
        }
        Fetch(end + 2 + writeDataLen);
      }
    }

    /** One round of the block loop. */
    method FetchBlock(offset: nat, write: bool) returns (next: nat)
      requires Valid() && !disconnected
      modifies this`body, this`disconnected, socket
      ensures Valid() && Progress() == WalkBlock(t, |old(body)|, offset, write)
      ensures !disconnected ==> next == BlockEnd(t, offset, write)
    {
      hide WalkName, WalkData, NameEnd, DataEnd, Need;
      next := offset;
      FetchName(offset);
      if !disconnected {
        next := NameEnd(body, offset);
        if write {
          FetchData(next);
          if !disconnected {
            next := DataEnd(body, next);
          }
        }
      }
    }

    method FetchBlocks(blockCount: Word, write: bool)
      requires Valid() && !disconnected
      modifies this`body, this`disconnected, socket
      ensures Valid() && Progress() == WalkBlocks(t, |old(body)|, 10, blockCount, write)
    {
      hide WalkBlock, BlockEnd;
      var offset: nat := 10;
      for i := 0 to blockCount
        invariant Valid() && !disconnected
        invariant WalkBlocks(t, |old(body)|, 10, blockCount, write) == WalkBlocks(t, |body|, offset, blockCount - i, write)
      {
        offset := FetchBlock(offset, write);
        if disconnected {
          break;
        }
      }
    }

    method DrainBody()
      requires Valid() && !disconnected
      modifies this`body, this`disconnected, socket
      ensures Valid() && Progress() == Drain(t, |old(body)|)
    {
      hide WalkBlocks, WalkData;
      Fetch(12);
      if !disconnected {
        assert Le(body, 2) == Le(t, 2) && Le(body, 4) == Le(t, 4) && Le(body, 8) == Le(t, 8) && Le(body, 10) == Le(t, 10);
        var command, dataType, blockCount := Le(body, 2), Le(body, 4), Le(body, 8);
        if dataType == CONTINUOUS {
          var varLen := Le(body, 10);
          if command == READ {
            Fetch(12 + varLen as int + 2);
          } else if command == WRITE {
            FetchData(12 + varLen as int);
          }
        } else if command == READ || command == WRITE {
          FetchBlocks(blockCount, command == WRITE);
        }
      }
    }
  }

  /** Header, body and drain. A connection that ends during the drain still gets
      its request, as far as it came. */
  method ReceiveXgt(socket: Socket) returns (ok: bool, request: seq<Byte>)
    requires socket.Valid()
    modifies socket
    ensures socket.Valid()
    ensures var s := old(socket.Rest());
            && ok == (XgtLength(s) > 0)
            && (ok ==>
                  var t, d := s[18..], Drain(s[18..], XgtLength(s));
                  && d.len <= |t| && request == s[..18] + t[..d.len]
                  && socket.Rest() == if d.complete then t[d.len..] else [])
  {
    hide Drain;
    ghost var s := socket.Rest();
    request := [];
    var header;
    ok, header := socket.ReadFully(18);
    if !ok {
      return;
    }
    assert header[..8] == s[..8] && Le(header, 16) == Le(s, 16);
    var packetLen := Le(header, 16);
    if !IsCompany(header) || packetLen == 0 || packetLen > 2048 {
      return false, request;
    }
    var body;
    ok, body := socket.ReadFully(packetLen);
    if !ok {
      return;
    }
    var reader := new Reader(socket, body);
    assert reader.t == s[18..];
    DrainBounds(reader.t, packetLen);
    reader.DrainBody();
    request := header + reader.body;
  }

  method HandleXgtClient(server: XgtServer, socket: Socket) returns (responses: seq<seq<Byte>>)
    requires server.memory.Valid() && socket.Valid()
    modifies server.memory`cells, socket
    ensures server.memory.Valid() && socket.Valid()
    ensures Outcome(responses, server.memory.cells) == XgtSession(old(server.memory.cells), old(socket.Rest()))
  {
    hide Respond, Drain, XgtLength, After, Covers, WellFormed;
    responses := [];
    ghost var all := XgtSession(server.memory.cells, socket.Rest());
    AfterNone(all);
    while true
      invariant server.memory.Valid() && socket.Valid()
      invariant all == After(responses, XgtSession(server.memory.cells, socket.Rest()))
      decreases |socket.Rest()|
    {
      ghost var stream := socket.Rest();
      var ok, request := ReceiveXgt(socket);
      if !ok {
        AfterEnd(responses, server.memory.cells);
        return;
      }
      var response := server.ProcessRequest(request);
      AfterOne(responses, response, XgtSession(server.memory.cells, socket.Rest()));
      responses := responses + [response];
    }
  }
}
