/** The client loops of the servers: cutting requests out of the stream. What a
    client gets is a function of the bytes it sent and of the memory, however the
    network delivered the bytes. */
module Framing {
  import opened Words
  import opened Cells
  import opened Connection
  import Modbus
  import Mc

  datatype Outcome = Outcome(responses: seq<seq<Byte>>, mem: Store)

  function After(responses: seq<seq<Byte>>, rest: Outcome): Outcome {
    Outcome(responses + rest.responses, rest.mem)
  }

  lemma AfterNone(rest: Outcome)
    ensures After([], rest) == rest
  {
  }

  lemma AfterEnd(responses: seq<seq<Byte>>, m: Store)
    ensures After(responses, Outcome([], m)) == Outcome(responses, m)
  {
  }

  lemma AfterOne(responses: seq<seq<Byte>>, response: seq<Byte>, rest: Outcome)
    ensures After(responses, After([response], rest)) == After(responses + [response], rest)
  {
    assert responses + ([response] + rest.responses) == (responses + [response]) + rest.responses;
  }

  // Modbus: a seven-byte header, its length field counting the unit id.

  /** The length of the frame the stream begins with; 0 if the connection ends
      here, for want of bytes or on a header that is not accepted. */
  function ModbusLength(stream: seq<Byte>): (n: nat)
    ensures n <= |stream| && (n > 0 ==> 8 <= n)
  {
    if |stream| < 7 then 0
    else
      var protocol, length := Join(stream[2], stream[3]), Join(stream[4], stream[5]);
      if protocol != 0 || length < 2 || length > 250 || |stream| - 6 < length then 0 else 6 + length
  }

  function ModbusFrame(header: seq<Byte>, pdu: seq<Byte>): seq<Byte>
    requires |header| == 7
  {
    header[..4] + [High(ToWord(|pdu| + 1)), Low(ToWord(|pdu| + 1))] + [header[6]] + pdu
  }

  /** The answer's header is the request's, but for the length. */
  lemma HeaderIsEchoed(header: seq<Byte>, pdu: seq<Byte>)
    requires |header| == 7 && |pdu| < 0xFFFF
    ensures var f := ModbusFrame(header, pdu);
            && |f| == 7 + |pdu| && f[..4] == header[..4] && f[6] == header[6] && f[7..] == pdu
            && 0x100 * f[4] as int + f[5] as int == 1 + |pdu|
  {
    HalvesOfWord(ToWord(|pdu| + 1), 0, 0);
    hide High, Low;
    var f := ModbusFrame(header, pdu);
    assert f[4] == High(ToWord(|pdu| + 1)) && f[5] == Low(ToWord(|pdu| + 1)) && f[6] == header[6];
  }

  /** Frames are told by their headers: protocol 0 and 2 to 250 bytes behind the
      length field for Modbus, ... */
  lemma ModbusFrames(stream: seq<Byte>)
    ensures var length := if |stream| < 7 then 0 else 0x100 * stream[4] as int + stream[5] as int;
            ModbusLength(stream) ==
            if |stream| >= 7 && stream[2] == stream[3] == 0 && 2 <= length <= 250 && 6 + length <= |stream|
            then 6 + length else 0
  {
    if |stream| >= 7 {
      HalvesOfWord(0, stream[2], stream[3]);
      HalvesOfWord(0, stream[4], stream[5]);
    }
    hide Join;
  }

  /** ... subheader 0x50 0x00 and 1 to 2048 bytes for MC. */
  lemma McFrames(stream: seq<Byte>)
    ensures var length := if |stream| < 9 then 0 else stream[7] as int + 0x100 * stream[8] as int;
            McLength(stream) ==
            if |stream| >= 9 && stream[0] == 0x50 && stream[1] == 0 && 1 <= length <= 2048 && 9 + length <= |stream|
            then 9 + length else 0
  {
    if |stream| >= 9 {
      HalvesOfWord(0, stream[8], stream[7]);
    }
    hide Join;
  }

  function ModbusSession(z: Sizes, m: Store, stream: seq<Byte>): Outcome
    decreases |stream|
  {
    var n := ModbusLength(stream);
    if n == 0 then Outcome([], m)
    else
      var r := Modbus.Respond(z, m, stream[7..n]);
      After([ModbusFrame(stream[..7], r.pdu)], ModbusSession(z, r.mem, stream[n..]))
  }

  /** The two receive loops; `ok` is false when the connection ends. */
  method ReceiveModbus(socket: Socket) returns (ok: bool, header: seq<Byte>, pdu: seq<Byte>)
    requires socket.Valid()
    modifies socket
    ensures socket.Valid()
    ensures var s := old(socket.Rest());
            && ok == (ModbusLength(s) > 0)
            && (ok ==> header == s[..7] && pdu == s[7..ModbusLength(s)] && socket.Rest() == s[ModbusLength(s)..])
  {
    ghost var s := socket.Rest();
    pdu := [];
    ok, header := socket.ReadFully(7);
    if ok {
      var protocolId, length := Join(header[2], header[3]), Join(header[4], header[5]);
      if protocolId != 0 || length < 2 || length > 250 {
        return false, header, pdu;
      }
      ok, pdu := socket.ReadFully(length - 1);
    }
  }

  method HandleModbusClient(server: Modbus.ModbusServer, socket: Socket) returns (responses: seq<seq<Byte>>)
    requires server.memory.Valid() && socket.Valid()
    modifies server.memory`cells, socket
    ensures server.memory.Valid() && socket.Valid()
    ensures Outcome(responses, server.memory.cells) ==
            ModbusSession(server.memory.sizes, old(server.memory.cells), old(socket.Rest()))
  {
    hide Modbus.Respond, ModbusFrame, ModbusLength, After, Covers, WellFormed;
    responses := [];
    ghost var z := server.memory.sizes;
    ghost var all := ModbusSession(z, server.memory.cells, socket.Rest());
    AfterNone(all);
    while true
      invariant server.memory.Valid() && socket.Valid()
      invariant all == After(responses, ModbusSession(z, server.memory.cells, socket.Rest()))
      decreases |socket.Rest()|
    {
      var ok, header, pdu := ReceiveModbus(socket);
      if !ok {
        AfterEnd(responses, server.memory.cells);
        return;
      }
      var responsePdu := server.ProcessRequest(pdu);
      var response := ModbusFrame(header, responsePdu);
      AfterOne(responses, response, ModbusSession(z, server.memory.cells, socket.Rest()));
      responses := responses + [response];
    }
  }

  // MC: a nine-byte header with the length of the rest.

  function McLength(stream: seq<Byte>): (n: nat)
    ensures n <= |stream| && (n > 0 ==> 10 <= n)
  {
    if |stream| < 9 || stream[0] != 0x50 || stream[1] != 0 then 0
    else
      var length := Join(stream[8], stream[7]);
      if length == 0 || length > 2048 || |stream| - 9 < length then 0 else 9 + length
  }

  function McSession(m: Store, stream: seq<Byte>): Outcome
    decreases |stream|
  {
    var n := McLength(stream);
    if n == 0 then Outcome([], m)
    else
      var r := Mc.Respond(m, stream[..n]);
      After([r.frame], McSession(r.mem, stream[n..]))
  }

  method ReceiveMc(socket: Socket) returns (ok: bool, request: seq<Byte>)
    requires socket.Valid()
    modifies socket
    ensures socket.Valid()
    ensures var s := old(socket.Rest());
            && ok == (McLength(s) > 0)
            && (ok ==> request == s[..McLength(s)] && socket.Rest() == s[McLength(s)..])
  {
    ghost var s := socket.Rest();
    request := [];
    var header;
    ok, header := socket.ReadFully(9);
    if ok {
      if header[0] != 0x50 || header[1] != 0x00 {
        return false, request;
      }
      var length := Join(header[8], header[7]);
      if length == 0 || length > 2048 {
        return false, request;
      }
      var body;
      ok, body := socket.ReadFully(length);
      request := header + body;
    }
  }

  method HandleMcClient(server: Mc.McServer, socket: Socket) returns (responses: seq<seq<Byte>>)
    requires server.memory.Valid() && socket.Valid()
    modifies server.memory`cells, socket
    ensures server.memory.Valid() && socket.Valid()
    ensures Outcome(responses, server.memory.cells) == McSession(old(server.memory.cells), old(socket.Rest()))
  {
    hide Mc.Respond, McLength, After, Covers, WellFormed;
    responses := [];
    ghost var all := McSession(server.memory.cells, socket.Rest());
    AfterNone(all);
    while true
      invariant server.memory.Valid() && socket.Valid()
      invariant all == After(responses, McSession(server.memory.cells, socket.Rest()))
      decreases |socket.Rest()|
    {
      var ok, request := ReceiveMc(socket);
      if !ok {
        AfterEnd(responses, server.memory.cells);
        return;
      }
      var response := server.ProcessRequest(request);
      AfterOne(responses, response, McSession(server.memory.cells, socket.Rest()));
      responses := responses + [response];
    }
  }
}
