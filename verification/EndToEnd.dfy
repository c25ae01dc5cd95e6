/** A word block written over a connection of one protocol and read over
    connections of all of them, one scan later. */
module EndToEnd {
  import opened Words
  import opened Cells
  import opened Mapping
  import opened Memory
  import opened Scan
  import opened ScanCoherence
  import opened StarWrites
  import opened Framing
  import opened Delivery
  import opened XgtReader
  import Address
  import McWire
  import Text
  import Modbus
  import ModbusProperties
  import Mc
  import McProperties
  import Xgt
  import XgtProperties
  import S7

  /** Where a block of words lives in each protocol, XGT words by index and name. */
  datatype Layout = Layout(register: Word, device: Byte, point: Word, word: Word, name: seq<Byte>, db: Word)

  function Hub(l: Layout, i: nat): Cell {
    Cell(HoldingRegister, l.register + i)
  }

  ghost predicate Maps(edges: seq<Edge>, src: Cell, dst: Cell) {
    exists k :: 0 <= k < |edges| && edges[k] == Edge(src, dst)
  }

  /** Every register of the block is mapped to its word in the other protocols. */
  ghost predicate Mapped(edges: seq<Edge>, z: Sizes, l: Layout, n: nat) {
    && !Mc.WordArea(l.device).Nowhere?
    && l.register + n <= z.holdingRegisters && l.point + n <= 1024 && l.word + n <= 1024 && l.db + n <= 1024
    && forall i | 0 <= i < n ::
         && Maps(edges, Hub(l, i), Cell(Mc.WordArea(l.device), l.point + i))
         && Maps(edges, Hub(l, i), Cell(LsW, l.word + i))
         && Maps(edges, Hub(l, i), Cell(S7DB1, l.db + i))
  }

  /** The cell whose address is written like this, with that number. */
  function At(text: string, n: nat): Cell {
    Address.Named(text + Text.Decimal(n))
  }

  /** The same as a mapping file says it: `MODBUS.HR.n` to `MC.D.n` (or another word
      device), `LS.W.n` and `S7.DB1.n`. Such addresses have 16 bits. */
  ghost predicate MappedByAddress(edges: seq<Edge>, z: Sizes, l: Layout, n: nat) {
    && McWire.WordDevice(l.device) != ""
    && l.register + n <= 0x1_0000
    && l.register + n <= z.holdingRegisters && l.point + n <= 1024 && l.word + n <= 1024 && l.db + n <= 1024
    && forall i | 0 <= i < n :: WordMapped(edges, l, i)
  }

  ghost predicate WordMapped(edges: seq<Edge>, l: Layout, i: nat) {
    && Maps(edges, At("MODBUS.HR.", l.register + i), At(McWire.WordDevice(l.device), l.point + i))
    && Maps(edges, At("MODBUS.HR.", l.register + i), At("LS.W.", l.word + i))
    && Maps(edges, At("MODBUS.HR.", l.register + i), At("S7.DB1.", l.db + i))
  }

  lemma AddressesMap(edges: seq<Edge>, z: Sizes, l: Layout, n: nat)
    requires MappedByAddress(edges, z, l, n)
    ensures Mapped(edges, z, l, n)
  {
    hide Maps, Address.Parse, McWire.WordDevice, Mc.WordArea, Text.Decimal, Address.Named;
    McWire.WordPoints(l.device, 0);
    forall i | 0 <= i < n
      ensures Maps(edges, Hub(l, i), Cell(Mc.WordArea(l.device), l.point + i))
      ensures Maps(edges, Hub(l, i), Cell(LsW, l.word + i)) && Maps(edges, Hub(l, i), Cell(S7DB1, l.db + i))
    {
      assert WordMapped(edges, l, i);
      Address.HoldingRegisterAddresses(l.register + i);
      McWire.WordPoints(l.device, l.point + i);
      Address.LsAddresses(l.word + i);
      Address.S7Addresses(l.db + i);
    }
  }

  /** The name of the first XGT word is one that the server understands. */
  ghost predicate Named(l: Layout) {
    XgtProperties.Names(l.name, l.word)
  }

  predicate InSpan(c: Cell, area: Area, start: nat, n: nat) {
    c.area == area && start <= c.index < start + n
  }

  /** `t` is `m` with the words written from `start` on. */
  ghost predicate Wrote(m: Store, t: Store, area: Area, start: nat, words: seq<Word>) {
    && t.Keys == m.Keys && WellFormed(t)
    && (forall c | InSpan(c, area, start, |words|) :: c in t && t[c] == words[c.index - start])
    && (forall c | c in m && !InSpan(c, area, start, |words|) :: t[c] == m[c])
  }

  /** The block may be written at its registers, or where it is mapped. */
  ghost predicate Entry(edges: seq<Edge>, l: Layout, n: nat, area: Area, start: nat) {
    || (area == HoldingRegister && start == l.register)
    || (!IsModbus(Cell(area, 0)) && forall j | 0 <= j < n :: Maps(edges, Hub(l, j), Cell(area, start + j)))
  }

  lemma MappedInGroup(edges: seq<Edge>, hub: Cell, d: Cell)
    ensures d in Group(edges, hub) <==> d == hub || Maps(edges, hub, d)
  {
    if d in Group(edges, hub) && d != hub {
      var i :| 0 <= i < |edges| && edges[i].src == hub && edges[i].dst == d;
      assert edges[i] == Edge(hub, d);
    }
  }

  lemma OneHub(edges: seq<Edge>, h: Cell, k: Cell, d: Cell)
    requires Star(edges) && Maps(edges, h, d) && Maps(edges, k, d)
    ensures h == k && IsModbus(h) && !IsModbus(d)
  {
  }

  /** The span meets the i-th star in its i-th cell only. */
  lemma SpanMeetsStarOnce(edges: seq<Edge>, l: Layout, n: nat, area: Area, start: nat, i: nat, d: Cell)
    requires Star(edges) && Entry(edges, l, n, area, start) && i < n
    requires d in Group(edges, Hub(l, i)) && InSpan(d, area, start, n)
    ensures d == Cell(area, start + i)
  {
    MappedInGroup(edges, Hub(l, i), d);
    if d != Hub(l, i) {
      OneHub(edges, Hub(l, i), Hub(l, i), d);
      var j := d.index - start;
      assert d == Cell(area, start + j);
      OneHub(edges, Hub(l, i), Hub(l, j), d);
    }
  }

  lemma BlockIsOneWritePerStar(edges: seq<Edge>, e: Engine, z: Sizes, m: Store, l: Layout, area: Area, start: nat,
                               words: seq<Word>, i: nat)
    requires Star(edges) && Sound(edges, e) && Covers(z, e.mem) && Mapped(edges, z, l, |words|) && i < |words|
    requires Entry(edges, l, |words|, area, start) && Wrote(e.mem, m, area, start, words)
    ensures OneWrite(edges, e, m, Hub(l, i), Cell(area, start + i))
    ensures Hub(l, i) in e.mem && m[Cell(area, start + i)] == words[i]
  {
    var hub, c := Hub(l, i), Cell(area, start + i);
    MappedInGroup(edges, hub, c);
    assert InSpan(c, area, start, |words|);
    forall d | d in Group(edges, hub) && d != c ensures d in m && m[d] == e.mem[d] {
      MappedInGroup(edges, hub, d);
      assert d in e.mem;
      if InSpan(d, area, start, |words|) {
        SpanMeetsStarOnce(edges, l, |words|, area, start, i, d);
      }
    }
  }

  /** Word `i` of the block is `w` in all protocols. */
  ghost predicate WordHolds(t: Store, l: Layout, i: nat, w: Word) {
    && Read(t, Hub(l, i)) == w
    && Read(t, Cell(Mc.WordArea(l.device), l.point + i)) == w
    && Read(t, Cell(LsW, l.word + i)) == w
    && Read(t, Cell(S7DB1, l.db + i)) == w
  }

  ghost predicate BlockHolds(t: Store, l: Layout, words: seq<Word>) {
    forall i | 0 <= i < |words| :: WordHolds(t, l, i, words[i])
  }

  lemma WordSpreads(edges: seq<Edge>, e: Engine, z: Sizes, m: Store, l: Layout, area: Area, start: nat,
                    words: seq<Word>, i: nat)
    requires Star(edges) && Sound(edges, e) && Settled(e) && Covers(z, e.mem) && Mapped(edges, z, l, |words|)
    requires Entry(edges, l, |words|, area, start) && Wrote(e.mem, m, area, start, words) && i < |words|
    ensures WordHolds(Pass(Pass(e.(mem := m))).mem, l, i, words[i])
  {
    hide Pass, Settled, Sound, Star, Covers, Entry, Wrote, Group, Mc.WordArea, OneWrite;
    BlockIsOneWritePerStar(edges, e, z, m, l, area, start, words, i);
    WriteReachesStar(edges, e, m, Hub(l, i), Cell(area, start + i));
    MappedInGroup(edges, Hub(l, i), Hub(l, i));
    MappedInGroup(edges, Hub(l, i), Cell(Mc.WordArea(l.device), l.point + i));
    MappedInGroup(edges, Hub(l, i), Cell(LsW, l.word + i));
    MappedInGroup(edges, Hub(l, i), Cell(S7DB1, l.db + i));
  }

  /** One scan in pass-through mode takes a written block everywhere. */
  lemma ScanSpreadsBlock<S(!new)>(logic: Logic<S>, p: Plant<S>, tick: nat, edges: seq<Edge>, z: Sizes, m: Store,
                                  l: Layout, area: Area, start: nat, words: seq<Word>)
    requires p.symbols == [] && KeepsSymbols(logic)
    requires Star(edges) && Sound(edges, p.engine) && Settled(p.engine) && Covers(z, p.engine.mem)
    requires Mapped(edges, z, l, |words|) && Entry(edges, l, |words|, area, start)
    requires Wrote(p.engine.mem, m, area, start, words)
    ensures BlockHolds(Scanned(logic, [], p.(engine := p.engine.(mem := m)), tick).engine.mem, l, words)
  {
    hide Pass, Settled, Sound, Scanned, Star, Covers, Mapped, Entry, Wrote, WordHolds;
    PassThroughScan(logic, p.(engine := p.engine.(mem := m)), tick);
    forall i | 0 <= i < |words|
      ensures WordHolds(Pass(Pass(p.engine.(mem := m))).mem, l, i, words[i])
    {
      WordSpreads(edges, p.engine, z, m, l, area, start, words, i);
    }
  }

  // The three ways to write the block.

  lemma WriteAllWrote(z: Sizes, m: Store, area: Area, start: nat, words: seq<Word>)
    requires Covers(z, m) && WellFormed(m) && !IsBit(area) && start + |words| <= SizeOf(z, area)
    ensures Wrote(m, WriteAll(m, area, start, words), area, start, words)
  {
    hide WriteAll;
  }

  lemma BigEndianBack(request: seq<Byte>, words: seq<Word>)
    requires |request| == 6 + 2 * |words| && request[6..] == Modbus.BigEndian(words)
    ensures Modbus.WordsAt(request, 6, |words|) == words
  {
    hide Modbus.WordAt, High, Low, Join;
    forall i: nat | i < |words| ensures Modbus.WordAt(request, 6 + 2 * i) == words[i] {
      BigEndianWord(request, words, i);
    }
    SameElements(request, words);
  }

  lemma SameElements(request: seq<Byte>, words: seq<Word>)
    requires |request| == 6 + 2 * |words|
    requires forall i: nat | i < |words| :: Modbus.WordAt(request, 6 + 2 * i) == words[i]
    ensures Modbus.WordsAt(request, 6, |words|) == words
  {
    hide Modbus.WordAt;
  }

  lemma BigEndianWord(request: seq<Byte>, words: seq<Word>, i: nat)
    requires 6 <= |request| && request[6..] == Modbus.BigEndian(words) && i < |words|
    ensures Modbus.WordAt(request, 6 + 2 * i) == words[i]
  {
    hide Modbus.BigEndian, High, Low, Join;
    SplitJoins(words[i]);
    var data := request[6..];
    assert data[2 * i] == High(words[i]) && data[2 * i + 1] == Low(words[i]);
    assert request[6 + 2 * i] == data[2 * i] && request[6 + 2 * i + 1] == data[2 * i + 1];
  }

  lemma LittleEndianBack(words: seq<Word>)
    ensures Mc.WordsAtLE(Mc.LittleEndian(words), |words|) == words
  {
    hide Mc.LittleEndian, Mc.WordAtLE;
    forall i | 0 <= i < |words| ensures Mc.WordAtLE(Mc.LittleEndian(words), 2 * i) == words[i] {
      LittleEndianWord(words, i);
    }
  }

  lemma LittleEndianWord(words: seq<Word>, i: nat)
    requires i < |words|
    ensures Mc.WordAtLE(Mc.LittleEndian(words), 2 * i) == words[i]
  {
    hide Mc.LittleEndian, High, Low, Join;
    SplitJoins(words[i]);
    var data := Mc.LittleEndian(words);
    assert data[2 * i] == Low(words[i]) && data[2 * i + 1] == High(words[i]);
  }

  datatype Writer = ModbusSingle | ModbusMultiple | McBatch | XgtContinuous | S7Client

  /** What a client puts into its headers. */
  datatype Client = Client(transaction: Word, unit: Byte, routing: seq<Byte>, writeLength: Word, readLength: Word)
  {
    /** For `n` words. The XGT length fields may be too small, as some clients have
        them. */
    ghost predicate Valid(l: Layout, n: nat) {
      && |routing| == 5 && |l.name| < 0x1_0000
      && 1 <= writeLength <= 2048 && writeLength <= 14 + |l.name| + 2 * n
      && 1 <= readLength <= 2048 && readLength <= 14 + |l.name|
    }
  }

  /** What one request can carry to its server. */
  predicate Fits(w: Writer, l: Layout, n: nat) {
    match w
    case ModbusSingle => n == 1
    case ModbusMultiple => 1 <= n <= 121
    case McBatch => n <= 1018
    case XgtContinuous => n < 0x8000 && n != 16
    case S7Client => n <= S7.DB_WORDS
  }

  /** Nothing is on its way between an S7 client and the memory. */
  ghost predicate InSync(b: S7.Buffers, m: Store) {
    && b.Valid() && b.db1 == b.shadow1 == S7.Published(m, S7DB1) && b.db2 == b.shadow2
  }

  /** An S7 client puts words into the data block. */
  function Put(db: seq<Byte>, start: nat, words: seq<Word>): (s: seq<Byte>)
    requires 2 * (start + |words|) <= |db|
    ensures |s| == |db|
  {
    db[..2 * start] + Modbus.BigEndian(words) + db[2 * (start + |words|)..]
  }

  /** The memory after a session in which `words` are written through `w`, or after
      the sync that finds them in the S7 buffers `b`. */
  function WrittenThrough(w: Writer, q: Client, b: S7.Buffers, z: Sizes, m: Store, l: Layout, words: seq<Word>): Store
    requires Fits(w, l, |words|) && q.Valid(l, |words|) && b.Valid() && l.db + |words| <= S7.DB_WORDS
  {
    match w
    case ModbusSingle =>
      ModbusSession(z, m, ModbusRequest(q.transaction, q.unit, ModbusProperties.Request(0x06, l.register, words[0]))).mem
    case ModbusMultiple =>
      ModbusSession(z, m, ModbusRequest(q.transaction, q.unit,
        ModbusProperties.WriteRegistersRequest(l.register, |words|, Modbus.BigEndian(words)))).mem
    case McBatch =>
      McSession(m, McProperties.Request(q.routing, Mc.WRITE, 0, l.point, l.device, |words|, Mc.LittleEndian(words))).mem
    case XgtContinuous =>
      XgtSession(m, XgtProperties.Request(q.writeLength, Xgt.WRITE, l.name, 2 * |words|, Mc.LittleEndian(words))).mem
    case S7Client => S7.SyncBefore(S7.State(m, b.(db1 := Put(b.db1, l.db, words)))).mem
  }

  function AreaOf(w: Writer, l: Layout): Area {
    match w
    case McBatch => Mc.WordArea(l.device)
    case XgtContinuous => LsW
    case S7Client => S7DB1
    case _ => HoldingRegister
  }

  function StartOf(w: Writer, l: Layout): nat {
    match w
    case McBatch => l.point
    case XgtContinuous => l.word
    case S7Client => l.db
    case _ => l.register
  }

  lemma SingleWrites(q: Client, b: S7.Buffers, z: Sizes, m: Store, l: Layout, words: seq<Word>)
    requires q.Valid(l, |words|) && |words| == 1 && l.register < z.holdingRegisters
    requires b.Valid() && l.db + |words| <= S7.DB_WORDS
    ensures WrittenThrough(ModbusSingle, q, b, z, m, l, words) == WriteAll(m, HoldingRegister, l.register, words)
  {
    hide Modbus.Respond, ModbusSession, WriteAll, ModbusProperties.Request;
    ModbusServed(z, m, q.transaction, q.unit, ModbusProperties.Request(0x06, l.register, words[0]));
    ModbusProperties.WriteRegisterRequest(z, m, l.register, words[0]);
    assert [words[0]] == words;
  }

  lemma MultipleWrites(q: Client, b: S7.Buffers, z: Sizes, m: Store, l: Layout, words: seq<Word>)
    requires q.Valid(l, |words|) && 1 <= |words| <= 121 && l.register + |words| <= z.holdingRegisters
    requires b.Valid() && l.db + |words| <= S7.DB_WORDS
    ensures WrittenThrough(ModbusMultiple, q, b, z, m, l, words) == WriteAll(m, HoldingRegister, l.register, words)
  {
    hide Modbus.Respond, ModbusSession, WriteAll, ModbusProperties.WriteRegistersRequest, ModbusProperties.Request,
      Modbus.BigEndian, Modbus.WordsAt, High, Low;
    var data := Modbus.BigEndian(words);
    var pdu := ModbusProperties.WriteRegistersRequest(l.register, |words|, data);
    ModbusServed(z, m, q.transaction, q.unit, pdu);
    ModbusProperties.AcceptsRegisters(z, m, l.register, |words|, data);
    BigEndianBack(pdu, words);
  }

  lemma McWrites(q: Client, b: S7.Buffers, z: Sizes, m: Store, l: Layout, words: seq<Word>)
    requires q.Valid(l, |words|) && |words| <= 1018 && !Mc.WordArea(l.device).Nowhere? && l.point + |words| <= 1024
    requires b.Valid() && l.db + |words| <= S7.DB_WORDS
    ensures WrittenThrough(McBatch, q, b, z, m, l, words) == WriteAll(m, Mc.WordArea(l.device), l.point, words)
  {
    hide Mc.Respond, McSession, WriteAll, Mc.WritePoints, Mc.LittleEndian, Mc.WordsAtLE, McProperties.Request, Mc.WordArea;
    var data := Mc.LittleEndian(words);
    McServed(m, q.routing, Mc.WRITE, 0, l.point, l.device, |words|, data);
    McProperties.WordWriteEffect(m, q.routing, l.point, l.device, |words|, data);
    LittleEndianBack(words);
    McProperties.WritesAreConsecutive(m, Mc.WordArea(l.device), l.point, words);
  }

  lemma XgtWrites(q: Client, b: S7.Buffers, z: Sizes, m: Store, l: Layout, words: seq<Word>)
    requires q.Valid(l, |words|) && Fits(XgtContinuous, l, |words|) && l.word + |words| <= 1024
    requires Named(l)
    requires b.Valid() && l.db + |words| <= S7.DB_WORDS
    ensures WrittenThrough(XgtContinuous, q, b, z, m, l, words) == WriteAll(m, LsW, l.word, words)
  {
    hide Xgt.Respond, XgtSession, WriteAll, Mc.WritePoints, Mc.LittleEndian, Mc.WordsAtLE, XgtProperties.Request,
      XgtProperties.Names;
    var data := Mc.LittleEndian(words);
    XgtServedOnce(m, q.writeLength, Xgt.WRITE, l.name, |data|, data);
    XgtProperties.WriteEffect(m, q.writeLength, l.name, l.word, data);
    LittleEndianBack(words);
    McProperties.WritesAreConsecutive(m, LsW, l.word, words);
    assert words[..XgtProperties.Taken(2 * |words|)] == words;
  }

  /** The sync takes what was put there, and what had not changed is there already. */
  lemma S7Writes(q: Client, b: S7.Buffers, z: Sizes, m: Store, l: Layout, words: seq<Word>)
    requires q.Valid(l, |words|) && InSync(b, m) && WellFormed(m) && l.db + |words| <= S7.DB_WORDS
    ensures WrittenThrough(S7Client, q, b, z, m, l, words) == WriteAll(m, S7DB1, l.db, words)
  {
    hide S7.Merged, S7.Published, WriteAll, S7.WordOf, S7.Changed, Put;
    var db := Put(b.db1, l.db, words);
    var t := S7.Merged(m, S7DB1, db, b.shadow1, S7.DB_WORDS);
    S7.NothingToMerge(t, S7DB2, b.db2, S7.DB_WORDS);
    forall c | c in m ensures t[c] == WriteAll(m, S7DB1, l.db, words)[c] {
      PutCell(b, m, l.db, words, c);
    }
  }

  lemma PutCell(b: S7.Buffers, m: Store, start: nat, words: seq<Word>, c: Cell)
    requires InSync(b, m) && start + |words| <= S7.DB_WORDS && c in m
    ensures S7.Merged(m, S7DB1, Put(b.db1, start, words), b.shadow1, S7.DB_WORDS)[c] ==
            WriteAll(m, S7DB1, start, words)[c]
  {
    hide S7.Merged, S7.Published, WriteAll, S7.WordOf, S7.Changed, Put;
    S7.MergedWords(m, S7DB1, Put(b.db1, start, words), b.shadow1, S7.DB_WORDS);
    if c.area == S7DB1 && c.index < S7.DB_WORDS {
      assert c == Cell(S7DB1, c.index);
      PutWord(b, m, start, words, c.index);
    }
  }

  lemma PutWord(b: S7.Buffers, m: Store, start: nat, words: seq<Word>, i: nat)
    requires InSync(b, m) && start + |words| <= S7.DB_WORDS && i < S7.DB_WORDS
    ensures var db := Put(b.db1, start, words);
            && (start <= i < start + |words| ==> S7.WordOf(db, i) == words[i - start])
            && (S7.Changed(db, b.shadow1, i) ==> start <= i < start + |words|)
            && (!S7.Changed(db, b.shadow1, i) ==> S7.WordOf(db, i) == Read(m, Cell(S7DB1, i)))
  {
    hide Modbus.BigEndian, High, Low, Join, S7.Published;
    var db, data := Put(b.db1, start, words), Modbus.BigEndian(words);
    S7.PublishedWord(m, S7DB1, i);
    if start <= i < start + |words| {
      var k := i - start;
      SplitJoins(words[k]);
      assert db[2 * i] == data[2 * k] && db[2 * i + 1] == data[2 * k + 1];
    } else {
      assert db[2 * i] == b.db1[2 * i] && db[2 * i + 1] == b.db1[2 * i + 1];
    }
  }

  lemma WriterWrites(w: Writer, q: Client, b: S7.Buffers, z: Sizes, m: Store, l: Layout, words: seq<Word>)
    requires q.Valid(l, |words|) && Fits(w, l, |words|) && !Mc.WordArea(l.device).Nowhere? && Named(l)
    requires l.register + |words| <= z.holdingRegisters && l.point + |words| <= 1024 && l.word + |words| <= 1024
    requires b.Valid() && l.db + |words| <= S7.DB_WORDS && WellFormed(m) && (w.S7Client? ==> InSync(b, m))
    ensures WrittenThrough(w, q, b, z, m, l, words) == WriteAll(m, AreaOf(w, l), StartOf(w, l), words)
  {
    hide WrittenThrough, WriteAll, Mc.WordArea, XgtProperties.Names, InSync;
    match w
    case ModbusSingle => SingleWrites(q, b, z, m, l, words);
    case ModbusMultiple => MultipleWrites(q, b, z, m, l, words);
    case McBatch => McWrites(q, b, z, m, l, words);
    case XgtContinuous => XgtWrites(q, b, z, m, l, words);
    case S7Client => S7Writes(q, b, z, m, l, words);
  }

  // The four ways to read it.

  /** The block as each protocol's client gets it: Modbus function code 3 and the
      S7 buffer big-endian, MC batch read and XGT continuous read little-endian. */
  ghost predicate ReadableEverywhere(q: Client, z: Sizes, t: Store, l: Layout, words: seq<Word>, buffers: S7.Buffers)
    requires q.Valid(l, |words|) && 1 <= |words| <= 125 && |l.name| < 0x1_0000
    requires buffers.Valid() && l.db + |words| <= 1024
  {
    && ModbusReads(q, z, t, l, words) && McReads(q, t, l, words) && XgtReads(q, t, l, words)
    && S7Reads(t, l, words, buffers)
  }

  ghost predicate ModbusReads(q: Client, z: Sizes, t: Store, l: Layout, words: seq<Word>)
    requires |words| <= 125
  {
    var n := |words|;
    ModbusSession(z, t, ModbusRequest(q.transaction, q.unit, ModbusProperties.Request(0x03, l.register, n))).responses ==
    [MbapHeader(q.transaction, q.unit, 3 + 2 * n) + ([0x03, 2 * n] + Modbus.BigEndian(words))]
  }

  ghost predicate McReads(q: Client, t: Store, l: Layout, words: seq<Word>)
    requires q.Valid(l, |words|) && |words| <= 125
  {
    var n := |words|;
    McSession(t, McProperties.Request(q.routing, Mc.READ, 0, l.point, l.device, n, [])).responses ==
    [[0xD0, 0x00] + q.routing + [Low(2 + 2 * n), High(2 + 2 * n), 0, 0] + Mc.LittleEndian(words)]
  }

  ghost predicate XgtReads(q: Client, t: Store, l: Layout, words: seq<Word>)
    requires |words| <= 125 && |l.name| < 0x1_0000
  {
    var responses := XgtSession(t, XgtProperties.Request(q.readLength, Xgt.READ, l.name, 2 * |words|, [])).responses;
    |responses| == 1 && XgtProperties.Payload(responses[0]) == Xgt.LeBytes(2 * |words|) + Mc.LittleEndian(words)
  }

  ghost predicate S7Reads(t: Store, l: Layout, words: seq<Word>, buffers: S7.Buffers)
    requires buffers.Valid() && l.db + |words| <= 1024
  {
    var db1 := S7.Sync(S7.State(t, buffers)).buffers.db1;
    forall i | 0 <= i < |words| :: S7.WordOf(db1, l.db + i) == words[i]
  }

  lemma BlockBytes(z: Sizes, t: Store, l: Layout, words: seq<Word>)
    requires BlockHolds(t, l, words) && l.point + |words| <= 1024 && l.word + |words| <= 1024
    ensures Block(t, HoldingRegister, l.register, |words|) == words
    ensures Mc.ReadPoints(t, Mc.WordArea(l.device), l.point, |words|) == words
    ensures Mc.ReadPoints(t, LsW, l.word, |words|) == words
  {
    forall i | 0 <= i < |words|
      ensures Read(t, Cell(HoldingRegister, l.register + i)) == words[i]
      ensures Read(t, Mc.PointCell(Mc.WordArea(l.device), l.point, i)) == words[i]
      ensures Read(t, Mc.PointCell(LsW, l.word, i)) == words[i]
    {
      assert WordHolds(t, l, i, words[i]);
    }
  }

  lemma McReadsBlock(q: Client, t: Store, l: Layout, words: seq<Word>)
    requires q.Valid(l, |words|) && 1 <= |words| <= 125 && !Mc.WordArea(l.device).Nowhere?
    requires Mc.ReadPoints(t, Mc.WordArea(l.device), l.point, |words|) == words
    ensures McReads(q, t, l, words)
  {
    hide Mc.Respond, McSession, Mc.ReadPoints, McProperties.Request, Mc.Frame, Mc.LittleEndian, Low, High, Mc.WordArea;
    var n, data := |words|, Mc.LittleEndian(words);
    McServed(t, q.routing, Mc.READ, 0, l.point, l.device, n, []);
    McProperties.WordReadEffect(t, q.routing, l.point, l.device, n);
    McProperties.FrameFields(McProperties.Request(q.routing, Mc.READ, 0, l.point, l.device, n, []), q.routing, [0, 0] + data);
    McProperties.Splice([0xD0, 0x00] + q.routing, Low(2 + 2 * n), High(2 + 2 * n), data);
  }

  lemma S7ReadsBlock(t: Store, l: Layout, words: seq<Word>, buffers: S7.Buffers)
    requires buffers.Valid() && buffers.db1 == buffers.shadow1 && buffers.db2 == buffers.shadow2
    requires BlockHolds(t, l, words) && l.db + |words| <= 1024
    ensures S7Reads(t, l, words, buffers)
  {
    hide S7.Merged, S7.Published, S7.Image, S7.WordOf;
    S7.NothingToMerge(t, S7DB1, buffers.db1, S7.DB_WORDS);
    S7.NothingToMerge(t, S7DB2, buffers.db2, S7.DB_WORDS);
    forall i | 0 <= i < |words|
      ensures S7.WordOf(S7.Published(t, S7DB1), l.db + i) == words[i]
    {
      S7.PublishedWord(t, S7DB1, l.db + i);
      assert WordHolds(t, l, i, words[i]);
    }
  }

  lemma XgtReadsBlock(q: Client, t: Store, l: Layout, words: seq<Word>)
    requires q.Valid(l, |words|) && 1 <= |words| <= 125 && Mc.ReadPoints(t, LsW, l.word, |words|) == words
    requires Named(l)
    ensures XgtReads(q, t, l, words)
  {
    hide Xgt.Respond, XgtSession, XgtProperties.Request, XgtProperties.Names, XgtProperties.Payload, Mc.ReadPoints,
      Mc.LittleEndian, Xgt.LeBytes, Xgt.Le;
    var count: Word := 2 * |words|;
    assert count / 2 == |words|;
    XgtServedOnce(t, q.readLength, Xgt.READ, l.name, count, []);
    XgtProperties.ReadEffect(t, q.readLength, l.name, l.word, count);
  }

  lemma FrameOf(transaction: Word, unit: Byte, length: Word, pdu: seq<Byte>)
    requires |pdu| < 0xFFFF
    ensures ModbusFrame(MbapHeader(transaction, unit, length), pdu) == MbapHeader(transaction, unit, |pdu| + 1) + pdu
  {
    hide High, Low;
  }

  lemma ModbusReadsBlock(q: Client, z: Sizes, t: Store, l: Layout, words: seq<Word>)
    requires 1 <= |words| <= 125 && l.register + |words| <= z.holdingRegisters
    requires Block(t, HoldingRegister, l.register, |words|) == words
    ensures ModbusReads(q, z, t, l, words)
  {
    hide Modbus.Respond, ModbusSession, ModbusProperties.Request, Block, Modbus.BigEndian, ModbusFrame, MbapHeader;
    var n := |words|;
    ModbusServed(z, t, q.transaction, q.unit, ModbusProperties.Request(0x03, l.register, n));
    ModbusProperties.ReadRequest(z, t, l.register, n);
    FrameOf(q.transaction, q.unit, 6, [0x03, 2 * n] + Modbus.BigEndian(words));
  }

  lemma BlockIsReadable(q: Client, z: Sizes, t: Store, l: Layout, words: seq<Word>, buffers: S7.Buffers)
    requires q.Valid(l, |words|) && 1 <= |words| <= 125 && BlockHolds(t, l, words) && !Mc.WordArea(l.device).Nowhere?
    requires Named(l) && l.register + |words| <= z.holdingRegisters
    requires l.point + |words| <= 1024 && l.word + |words| <= 1024 && l.db + |words| <= 1024
    requires buffers.Valid() && buffers.db1 == buffers.shadow1 && buffers.db2 == buffers.shadow2
    ensures ReadableEverywhere(q, z, t, l, words, buffers)
  {
    hide ModbusReads, McReads, XgtReads, S7Reads, Block, Mc.ReadPoints, BlockHolds, XgtProperties.Names;
    BlockBytes(z, t, l, words);
    ModbusReadsBlock(q, z, t, l, words);
    McReadsBlock(q, t, l, words);
    XgtReadsBlock(q, t, l, words);
    S7ReadsBlock(t, l, words, buffers);
  }

  /** A settled star mapping without loaded logic: a block of words written by one
      request over a connection of any protocol is, after one scan, what clients
      of every protocol read over theirs, each in its own byte order. */
  lemma WriteAnywhereReadEverywhere<S(!new)>(logic: Logic<S>, p: Plant<S>, tick: nat, edges: seq<Edge>, z: Sizes,
                                             w: Writer, q: Client, b: S7.Buffers, l: Layout, words: seq<Word>, buffers: S7.Buffers)
    requires p.symbols == [] && KeepsSymbols(logic) && q.Valid(l, |words|)
    requires Star(edges) && Sound(edges, p.engine) && Settled(p.engine) && Covers(z, p.engine.mem)
    requires b.Valid() && (w.S7Client? ==> InSync(b, p.engine.mem))
    requires Named(l) && 1 <= |words| <= 125 && Fits(w, l, |words|) && MappedByAddress(edges, z, l, |words|)
    requires buffers.Valid() && buffers.db1 == buffers.shadow1 && buffers.db2 == buffers.shadow2
    ensures var m := WrittenThrough(w, q, b, z, p.engine.mem, l, words);
            var t := Scanned(logic, [], p.(engine := p.engine.(mem := m)), tick).engine.mem;
            ReadableEverywhere(q, z, t, l, words, buffers)
  {
    AddressesMap(edges, z, l, |words|);
    MappedIsEntry(w, edges, z, l, |words|);
    assert WellFormed(p.engine.mem);
    hide Scanned, Sound, Settled, Star, WrittenThrough, WriteAll, ReadableEverywhere, BlockHolds, XgtProperties.Names,
         Mapped, MappedByAddress, Fits, Entry, InSync, WellFormed, KeepsSymbols, AreaOf, StartOf;
    var m := WrittenThrough(w, q, b, z, p.engine.mem, l, words);
    WriterWrites(w, q, b, z, p.engine.mem, l, words);
    WriteAllWrote(z, p.engine.mem, AreaOf(w, l), StartOf(w, l), words);
    ScanSpreadsBlock(logic, p, tick, edges, z, m, l, AreaOf(w, l), StartOf(w, l), words);
    BlockIsReadable(q, z, Scanned(logic, [], p.(engine := p.engine.(mem := m)), tick).engine.mem, l, words, buffers);
  }

  lemma MappedIsEntry(w: Writer, edges: seq<Edge>, z: Sizes, l: Layout, n: nat)
    requires Mapped(edges, z, l, n) && Fits(w, l, n)
    ensures Entry(edges, l, n, AreaOf(w, l), StartOf(w, l))
    ensures !IsBit(AreaOf(w, l)) && StartOf(w, l) + n <= SizeOf(z, AreaOf(w, l)) && !Mc.WordArea(l.device).Nowhere?
    ensures l.register + n <= z.holdingRegisters && l.point + n <= 1024 && l.word + n <= 1024 && l.db + n <= 1024
  {
    WordAreaIsWide(z, l.device);
  }

  lemma WordAreaIsWide(z: Sizes, device: Byte)
    requires !Mc.WordArea(device).Nowhere?
    ensures SizeOf(z, Mc.WordArea(device)) == 1024 && !IsBit(Mc.WordArea(device)) && !IsModbus(Cell(Mc.WordArea(device), 0))
  {
  }
}
