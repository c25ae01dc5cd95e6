/** A client connection: a byte stream that `recv` hands out in pieces of any
    size, until it ends. */
module Connection {
  import opened Words

  class Socket {
    const stream: seq<Byte>
    /** How the network happens to cut the stream; nothing may depend on it. */
    const cuts: seq<nat>
    var pos: nat
    var calls: nat

    ghost predicate Valid()
      reads this
    {
      pos <= |stream|
    }

    ghost function Rest(): seq<Byte>
      requires Valid()
      reads this
    {
      stream[pos..]
    }

    constructor (stream: seq<Byte>, cuts: seq<nat>)
      ensures Valid() && Rest() == stream
    {
      this.stream, this.cuts, pos, calls := stream, cuts, 0, 0;
    }

    /** 1 to `max` bytes, or none when the stream has ended. */
    method Recv(max: nat) returns (chunk: seq<Byte>)
      requires Valid() && 0 < max
      modifies this
      ensures Valid() && |chunk| <= max && chunk + Rest() == old(Rest())
      ensures old(Rest()) != [] ==> chunk != []
    {
      var available := |stream| - pos;
      var most := if available < max then available else max;
      var wanted := if calls < |cuts| then cuts[calls] else max;
      calls := calls + 1;
      var n := if most == 0 then 0 else if wanted == 0 then 1 else if wanted < most then wanted else most;
      chunk := stream[pos..pos + n];
      pos := pos + n;
    }

    /** The receive loops of the servers: `n` bytes, or failure at the end. */
    method ReadFully(n: nat) returns (ok: bool, bytes: seq<Byte>)
      requires Valid()
      modifies this
      ensures Valid() && ok == (n <= |old(Rest())|)
      ensures ok ==> bytes == old(Rest())[..n] && Rest() == old(Rest())[n..]
      ensures !ok ==> Rest() == []
    {
      ghost var all := Rest();
      bytes := [];
      while |bytes| < n
        invariant Valid() && |bytes| <= n && bytes + Rest() == all
        decreases n - |bytes|
      {
        var chunk := Recv(n - |bytes|);
        if chunk == [] {
          return false, bytes;
        }
        ghost var rest := Rest();
        assert (bytes + chunk) + rest == bytes + (chunk + rest);
        bytes := bytes + chunk;
      }
      ok := true;
    }
  }
}
