/** Which requests come through the connection loops, and what a session with one
    request amounts to. */
module Delivery {
  import opened Words
  import opened Cells
  import opened Framing
  import Modbus
  import ModbusProperties
  import Mc
  import McProperties
  import Xgt
  import XgtProperties
  import XgtReader

  // Modbus.

  function MbapHeader(transaction: Word, unit: Byte, length: Word): (h: seq<Byte>)
    ensures |h| == 7
  {
    [High(transaction), Low(transaction), 0, 0, High(length), Low(length), unit]
  }

  /** A request as a client sends it. */
  function ModbusRequest(transaction: Word, unit: Byte, pdu: seq<Byte>): (s: seq<Byte>)
    requires |pdu| < 0xFFFF
    ensures |s| == 7 + |pdu|
  {
    MbapHeader(transaction, unit, |pdu| + 1) + pdu
  }

  /** The loop hangs up on PDUs of 250 bytes and more, though 253 are allowed by
      section 4.1 of the Modbus Application Protocol Specification V1.1b3. */
  lemma ModbusDeliveredExactly(transaction: Word, unit: Byte, pdu: seq<Byte>, rest: seq<Byte>)
    requires |pdu| < 0xFFFF
    ensures var s := ModbusRequest(transaction, unit, pdu) + rest;
            && (ModbusLength(s) > 0 <==> 1 <= |pdu| <= 249)
            && (ModbusLength(s) > 0 ==> ModbusLength(s) == 7 + |pdu|)
            && s[..7] == MbapHeader(transaction, unit, |pdu| + 1) && s[7..7 + |pdu|] == pdu && s[7 + |pdu|..] == rest
  {
    var s := ModbusRequest(transaction, unit, pdu) + rest;
    SplitJoins(|pdu| + 1);
    hide High, Low;
    assert Join(s[4], s[5]) == |pdu| + 1 && Join(s[2], s[3]) == 0;
    hide Join;
    assert s[7..7 + |pdu|] == pdu && s[7 + |pdu|..] == rest;
  }

  /** So function code 16 comes through for up to 121 registers of the 123 that the
      processor accepts, ... */
  lemma RegistersDeliveredExactly(transaction: Word, unit: Byte, start: Word, n: Word, data: seq<Byte>, rest: seq<Byte>)
    requires |data| == 2 * n && n <= 123
    ensures ModbusLength(ModbusRequest(transaction, unit, ModbusProperties.WriteRegistersRequest(start, n, data)) + rest) > 0
            <==> n <= 121
  {
    hide ModbusLength, ModbusRequest;
    ModbusDeliveredExactly(transaction, unit, ModbusProperties.WriteRegistersRequest(start, n, data), rest);
  }

  /** ... and function code 15 for up to 1944 coils of the 2000. */
  lemma CoilsDeliveredExactly(transaction: Word, unit: Byte, start: Word, n: Word, data: seq<Byte>, rest: seq<Byte>)
    requires |data| == (n + 7) / 8 && n <= 2000
    ensures ModbusLength(ModbusRequest(transaction, unit, ModbusProperties.WriteCoilsRequest(start, n, data)) + rest) > 0
            <==> n <= 1944
  {
    hide ModbusLength, ModbusRequest;
    ModbusDeliveredExactly(transaction, unit, ModbusProperties.WriteCoilsRequest(start, n, data), rest);
  }

  /** A session with one request. */
  lemma ModbusServed(z: Sizes, m: Store, transaction: Word, unit: Byte, pdu: seq<Byte>)
    requires |pdu| < 0xFFFF
    ensures ModbusSession(z, m, ModbusRequest(transaction, unit, pdu)) ==
            if 1 <= |pdu| <= 249
            then var r := Modbus.Respond(z, m, pdu);
                 Outcome([ModbusFrame(MbapHeader(transaction, unit, |pdu| + 1), r.pdu)], r.mem)
            else Outcome([], m)
  {
    hide Modbus.Respond, ModbusFrame, MbapHeader, ModbusLength;
    var s := ModbusRequest(transaction, unit, pdu);
    assert s + [] == s;
    ModbusDeliveredExactly(transaction, unit, pdu, []);
    NoMoreModbus(z, Modbus.Respond(z, m, pdu).mem);
  }

  lemma NoMoreModbus(z: Sizes, m: Store)
    ensures ModbusSession(z, m, []) == Outcome([], m)
  {
  }

  // MC.

  lemma McDeliveredExactly(routing: seq<Byte>, command: Word, sub: Word, start: nat, device: Byte, points: Word,
                           data: seq<Byte>, rest: seq<Byte>)
    requires |routing| == 5 && start < 0x100_0000 && 12 + |data| < 0x1_0000
    ensures var r := McProperties.Request(routing, command, sub, start, device, points, data);
            && (McLength(r + rest) > 0 <==> |data| <= 2036)
            && (McLength(r + rest) > 0 ==> McLength(r + rest) == |r|)
  {
    hide McProperties.Request, Join;
    McProperties.RequestHeader(routing, command, sub, start, device, points, data);
    SameHeader(McProperties.Request(routing, command, sub, start, device, points, data), rest);
  }

  lemma SameHeader(r: seq<Byte>, rest: seq<Byte>)
    requires 9 <= |r|
    ensures (r + rest)[0] == r[0] && (r + rest)[1] == r[1] && Join((r + rest)[8], (r + rest)[7]) == Mc.WordAtLE(r, 7)
  {
  }

  lemma McServed(m: Store, routing: seq<Byte>, command: Word, sub: Word, start: nat, device: Byte, points: Word,
                 data: seq<Byte>)
    requires |routing| == 5 && start < 0x100_0000 && |data| <= 2036
    ensures var r := McProperties.Request(routing, command, sub, start, device, points, data);
            McSession(m, r) == Outcome([Mc.Respond(m, r).frame], Mc.Respond(m, r).mem)
  {
    hide Mc.Respond, McLength, McProperties.Request;
    var r := McProperties.Request(routing, command, sub, start, device, points, data);
    assert r + [] == r;
    McDeliveredExactly(routing, command, sub, start, device, points, data, []);
    NoMoreMc(Mc.Respond(m, r).mem);
  }

  lemma NoMoreMc(m: Store)
    ensures McSession(m, []) == Outcome([], m)
  {
  }

  // XGT.

  /** Requests the server understands, with as much data as they announce. */
  predicate IsWhole(command: Word, count: Word, data: seq<Byte>) {
    (command == Xgt.READ && data == []) || (command == Xgt.WRITE && |data| == count)
  }

  /** A length field that does not overstate the body: the request comes through if
      and only if the field is from 1 to 2048, however long the body is, and the
      walk then fetches all of the body, unless it is the one of 32 bytes. */
  lemma XgtDeliveredExactly(length: Word, command: Word, name: seq<Byte>, count: Word, data: seq<Byte>, rest: seq<Byte>)
    requires |name| < 0x1_0000 && IsWhole(command, count, data) && length <= XgtProperties.BodyLength(name, data)
    ensures var s := XgtProperties.Request(length, command, name, count, data) + rest;
            && (XgtReader.XgtLength(s) > 0 <==> 1 <= length <= 2048)
            && (XgtReader.XgtLength(s) > 0 ==> XgtReader.XgtLength(s) == length)
            && (|data| != 0x20 ==>
                  XgtReader.Drain(s[18..], length) == XgtReader.Drained(XgtProperties.BodyLength(name, data), true))
  {
    var r := XgtProperties.Request(length, command, name, count, data);
    XgtStarts(length, command, name, count, data);
    XgtFields(length, command, name, count, data, rest);
    hide XgtProperties.Request, Join, XgtProperties.BodyLength;
    assert (r + rest)[..8] == r[..8] && Xgt.Le(r + rest, 16) == Xgt.Le(r, 16);
    XgtDrained((r + rest)[18..], length, command, |name|, count, |data|);
    BodyIs(name, data);
  }

  lemma BodyIs(name: seq<Byte>, data: seq<Byte>)
    ensures XgtProperties.BodyLength(name, data) == 14 + |name| + |data|
  {
  }

  lemma XgtStarts(length: Word, command: Word, name: seq<Byte>, count: Word, data: seq<Byte>)
    requires |name| < 0x1_0000
    ensures var r := XgtProperties.Request(length, command, name, count, data);
            r[..8] == Xgt.COMPANY && Xgt.Le(r, 16) == length
  {
    hide XgtProperties.Head, Join, Xgt.LeBytes;
    XgtProperties.HeadFrames(command, |name|, length);
    StartsAlike(XgtProperties.Head(command, |name|, length), name + (Xgt.LeBytes(count) + data));
  }

  lemma StartsAlike(h: seq<Byte>, body: seq<Byte>)
    requires 18 <= |h|
    ensures (h + body)[..8] == h[..8] && Xgt.Le(h + body, 16) == Xgt.Le(h, 16)
  {
  }

  /** What the walk goes by, 18 bytes into the request. */
  lemma XgtFields(length: Word, command: Word, name: seq<Byte>, count: Word, data: seq<Byte>, rest: seq<Byte>)
    requires |name| < 0x1_0000
    ensures var t := (XgtProperties.Request(length, command, name, count, data) + rest)[18..];
            && 14 + |name| + |data| <= |t|
            && Xgt.Le(t, 2) == command && Xgt.Le(t, 4) == Xgt.CONTINUOUS && Xgt.Le(t, 10) == |name|
            && Xgt.Le(t, 12 + |name|) == count
  {
    hide XgtProperties.Request, Join;
    var r := XgtProperties.Request(length, command, name, count, data);
    var t := (r + rest)[18..];
    XgtProperties.RequestFields(length, command, name, count, data);
    assert Xgt.Le(t, 2) == Xgt.Le(r, 20) && Xgt.Le(t, 4) == Xgt.Le(r, 22) && Xgt.Le(t, 10) == Xgt.Le(r, 28);
    assert Xgt.Le(t, 12 + |name|) == Xgt.Le(r, 30 + |name|);
  }

  lemma XgtDrained(t: seq<Byte>, length: nat, command: Word, nameLength: Word, count: Word, size: nat)
    requires 14 + nameLength + size <= |t| && length <= 14 + nameLength + size
    requires Xgt.Le(t, 2) == command && Xgt.Le(t, 4) == Xgt.CONTINUOUS && Xgt.Le(t, 10) == nameLength
    requires Xgt.Le(t, 12 + nameLength) == count
    requires (command == Xgt.READ && size == 0) || (command == Xgt.WRITE && size == count)
    ensures size != 0x20 ==> XgtReader.Drain(t, length) == XgtReader.Drained(14 + nameLength + size, true)
  {
    hide Xgt.Le;
  }

  lemma XgtServed(m: Store, length: Word, command: Word, name: seq<Byte>, count: Word, data: seq<Byte>, rest: seq<Byte>)
    requires |name| < 0x1_0000 && IsWhole(command, count, data) && |data| != 0x20
    requires 1 <= length <= 2048 && length <= XgtProperties.BodyLength(name, data)
    ensures var r := XgtProperties.Request(length, command, name, count, data);
            var reply := Xgt.Respond(m, r);
            XgtReader.XgtSession(m, r + rest) == After([reply.frame], XgtReader.XgtSession(reply.mem, rest))
  {
    hide Xgt.Respond, XgtReader.XgtLength, XgtReader.Drain, XgtProperties.Request, After;
    var r := XgtProperties.Request(length, command, name, count, data);
    XgtDeliveredExactly(length, command, name, count, data, rest);
    var s, n := r + rest, |r| - 18;
    assert s[..18] + s[18..][..n] == r && s[18..][n..] == rest;
  }

  lemma NoMoreXgt(m: Store)
    ensures XgtReader.XgtSession(m, []) == Outcome([], m)
  {
  }

  /** A session with one request. */
  lemma XgtServedOnce(m: Store, length: Word, command: Word, name: seq<Byte>, count: Word, data: seq<Byte>)
    requires |name| < 0x1_0000 && IsWhole(command, count, data) && |data| != 0x20
    requires 1 <= length <= 2048 && length <= XgtProperties.BodyLength(name, data)
    ensures var r := XgtProperties.Request(length, command, name, count, data);
            XgtReader.XgtSession(m, r) == Outcome([Xgt.Respond(m, r).frame], Xgt.Respond(m, r).mem)
  {
    hide Xgt.Respond, XgtReader.XgtSession, XgtProperties.Request;
    var r := XgtProperties.Request(length, command, name, count, data);
    assert r + [] == r;
    XgtServed(m, length, command, name, count, data, []);
    NoMoreXgt(Xgt.Respond(m, r).mem);
  }
}
