/** The S7 server's shared buffers: client writes are found by comparing a buffer
    with its shadow, memory is published back big-endian. */
module S7 {
  import opened Words
  import opened Bits
  import opened Cells
  import opened Memory
  import Modbus

  const DB_WORDS := 1024
  const IMAGE_BITS := 2048

  function WordOf(buffer: seq<Byte>, i: nat): Word
    requires 2 * i + 1 < |buffer|
  {
    Join(buffer[2 * i], buffer[2 * i + 1])
  }

  /** The client has changed word `i` since the last sync. */
  predicate Changed(buffer: seq<Byte>, shadow: seq<Byte>, i: nat)
    requires 2 * i + 1 < |buffer| == |shadow|
  {
    buffer[2 * i] != shadow[2 * i] || buffer[2 * i + 1] != shadow[2 * i + 1]
  }

  /** The memory when the first `n` words have been compared. */
  function Merged(m: Store, area: Area, buffer: seq<Byte>, shadow: seq<Byte>, n: nat): (t: Store)
    requires 2 * n <= |buffer| == |shadow|
    ensures t.Keys == m.Keys && (WellFormed(m) ==> WellFormed(t))
  {
    if n == 0 then m
    else
      var t := Merged(m, area, buffer, shadow, n - 1);
      if Changed(buffer, shadow, n - 1) then Write(t, Cell(area, n - 1), WordOf(buffer, n - 1)) else t
  }

  /** The published form of a data block and of a bit image. */
  function Published(m: Store, area: Area): (s: seq<Byte>)
    ensures |s| == 2 * DB_WORDS
  {
    Modbus.BigEndian(Block(m, area, 0, DB_WORDS))
  }

  function Image(m: Store, area: Area): (s: seq<Byte>)
    ensures |s| == 256
  {
    PackAll(Bools(Block(m, area, 0, IMAGE_BITS)), 256)
  }

  datatype Buffers = Buffers(pe: seq<Byte>, pa: seq<Byte>,
                             db1: seq<Byte>, shadow1: seq<Byte>, db2: seq<Byte>, shadow2: seq<Byte>)
  {
    ghost predicate Valid() {
      |pe| == |pa| == 256 && |db1| == |shadow1| == |db2| == |shadow2| == 2 * DB_WORDS
    }
  }

  datatype State = State(mem: Store, buffers: Buffers)

  function SyncBefore(s: State): (t: State)
    requires s.buffers.Valid()
    ensures t.buffers.Valid()
  {
    var b := s.buffers;
    State(Merged(Merged(s.mem, S7DB1, b.db1, b.shadow1, DB_WORDS), S7DB2, b.db2, b.shadow2, DB_WORDS),
          b.(shadow1 := b.db1, shadow2 := b.db2))
  }

  function SyncAfter(s: State): (t: State)
    ensures t.buffers.Valid()
  {
    var d1, d2 := Published(s.mem, S7DB1), Published(s.mem, S7DB2);
    State(s.mem, Buffers(Image(s.mem, S7PE), Image(s.mem, S7PA), d1, d1, d2, d2))
  }

  /** One round of the sync thread. */
  function Sync(s: State): (t: State)
    requires s.buffers.Valid()
    ensures t.buffers.Valid()
  {
    SyncAfter(SyncBefore(s))
  }

  class S7Server {
    const memory: PlcMemory
    const pe: array<Byte>
    const pa: array<Byte>
    const db1: array<Byte>
    const shadow1: array<Byte>
    const db2: array<Byte>
    const shadow2: array<Byte>

    ghost predicate Valid()
      reads this, memory
    {
      && memory.Valid()
      && pe.Length == pa.Length == 256
      && db1.Length == shadow1.Length == db2.Length == shadow2.Length == 2 * DB_WORDS
      && pe != pa && db1 != shadow1 && db1 != db2 && db1 != shadow2
      && shadow1 != db2 && shadow1 != shadow2 && db2 != shadow2
    }

    ghost function Contents(): State
      reads this, memory, pe, pa, db1, shadow1, db2, shadow2
    {
      State(memory.cells, Buffers(pe[..], pa[..], db1[..], shadow1[..], db2[..], shadow2[..]))
    }

    constructor (memory: PlcMemory)
      requires memory.Valid()
      ensures Valid() && this.memory == memory
      ensures fresh(pe) && fresh(pa) && fresh(db1) && fresh(shadow1) && fresh(db2) && fresh(shadow2)
    {
      this.memory := memory;
      pe, pa := new Byte[256](i => 0), new Byte[256](i => 0);
      db1, shadow1 := new Byte[2 * DB_WORDS](i => 0), new Byte[2 * DB_WORDS](i => 0);
      db2, shadow2 := new Byte[2 * DB_WORDS](i => 0), new Byte[2 * DB_WORDS](i => 0);
    }

    /** The loop body: word `i` of the buffer against its shadow. */
    method DetectWrite(area: Area, buffer: array<Byte>, shadow: array<Byte>, i: nat)
      requires memory.Valid() && buffer != shadow && buffer.Length == shadow.Length == 2 * DB_WORDS && i < DB_WORDS
      modifies memory`cells, shadow
      ensures memory.Valid()
      ensures memory.cells == if Changed(buffer[..], old(shadow[..]), i)
                              then Write(old(memory.cells), Cell(area, i), WordOf(buffer[..], i)) else old(memory.cells)
      ensures shadow[..] == old(shadow[..])[2 * i := buffer[2 * i]][2 * i + 1 := buffer[2 * i + 1]]
    {
      var currH, currL := buffer[2 * i], buffer[2 * i + 1];
      var shadH, shadL := shadow[2 * i], shadow[2 * i + 1];
      if currH != shadH || currL != shadL {
        memory.WriteValue(Cell(area, i), Join(currH, currL));
        shadow[2 * i] := currH;
        shadow[2 * i + 1] := currL;
      }
    }

    method DetectWrites(area: Area, buffer: array<Byte>, shadow: array<Byte>)
      requires memory.Valid() && buffer != shadow && buffer.Length == shadow.Length == 2 * DB_WORDS
      modifies memory`cells, shadow
      ensures memory.Valid()
      ensures memory.cells == Merged(old(memory.cells), area, buffer[..], old(shadow[..]), DB_WORDS)
      ensures shadow[..] == buffer[..]
    {
      hide Merged, Write, WordOf, Covers, WellFormed;
      ghost var b, s := buffer[..], shadow[..];
      MergedStart(memory.cells, area, b, s);
      for i := 0 to DB_WORDS
        invariant memory.Valid() && memory.cells == Merged(old(memory.cells), area, b, s, i)
        invariant buffer[..] == b && shadow[..] == b[..2 * i] + s[2 * i..]
      {
        SpliceStep(b, s, 2 * i);
        MergedStep(old(memory.cells), area, b, s, i, shadow[..]);
        DetectWrite(area, buffer, shadow, i);
      }
    }

    method SyncBeforeCycle()
      requires Valid()
      modifies memory`cells, shadow1, shadow2
      ensures Valid() && Contents() == SyncBefore(old(Contents()))
    {
      DetectWrites(S7DB1, db1, shadow1);
      DetectWrites(S7DB2, db2, shadow2);
    }

    method PublishImage(area: Area, buffer: array<Byte>)
      requires memory.Valid() && buffer.Length == 256
      modifies buffer
      ensures buffer[..] == Image(memory.cells, area)
    {
      hide BitOf, SetBit, ClearBit, Packed, Covers, WellFormed, Read;
      ghost var bits := Bools(Block(memory.cells, area, 0, IMAGE_BITS));
      for i := 0 to IMAGE_BITS
        invariant forall b, j | 0 <= b < 256 && 0 <= j < 8 && 8 * b + j < i :: BitOf(buffer[b], j) == bits[8 * b + j]
      {
        var val := memory.ReadValue(Cell(area, i));
        var byteIdx, bitIdx := i / 8, i % 8;
        ImageStep(buffer[byteIdx], bitIdx);
        if val != 0 {
          buffer[byteIdx] := SetBit(buffer[byteIdx], bitIdx);
        } else {
          buffer[byteIdx] := ClearBit(buffer[byteIdx], bitIdx);
        }
      }
      forall b | 0 <= b < 256 ensures buffer[b] == Packed(bits, 8 * b, 8) {
        ByteFromBits(buffer[b], bits, b);
      }
    }

    method PublishBlock(area: Area, buffer: array<Byte>, shadow: array<Byte>)
      requires memory.Valid() && buffer != shadow && buffer.Length == shadow.Length == 2 * DB_WORDS
      modifies buffer, shadow
      ensures buffer[..] == shadow[..] == Published(memory.cells, area)
    {
      ghost var p := Published(memory.cells, area);
      for i := 0 to DB_WORDS
        invariant buffer[..2 * i] == shadow[..2 * i] == p[..2 * i]
      {
        var val := memory.ReadValue(Cell(area, i));
        assert Block(memory.cells, area, 0, DB_WORDS)[i] == val;
        assert p[2 * i] == High(val) && p[2 * i + 1] == Low(val);
        buffer[2 * i] := High(val);
        buffer[2 * i + 1] := Low(val);
        shadow[2 * i] := High(val);
        shadow[2 * i + 1] := Low(val);
        assert p[..2 * i + 2] == p[..2 * i] + [High(val), Low(val)];
      }
    }

    method SyncAfterCycle()
      requires Valid()
      modifies pe, pa, db1, shadow1, db2, shadow2
      ensures Valid() && Contents() == SyncAfter(old(Contents()))
    {
      PublishImage(S7PE, pe);
      PublishImage(S7PA, pa);
      PublishBlock(S7DB1, db1, shadow1);
      PublishBlock(S7DB2, db2, shadow2);
    }

    /** One round of the sync thread. */
    method SyncOnce()
      requires Valid()
      modifies memory`cells, pe, pa, db1, shadow1, db2, shadow2
      ensures Valid() && Contents() == Sync(old(Contents()))
    {
      SyncBeforeCycle();
      SyncAfterCycle();
    }
  }

  lemma MergedStart(m: Store, area: Area, b: seq<Byte>, s: seq<Byte>)
    requires |b| == |s|
    ensures Merged(m, area, b, s, 0) == m
  {
  }

  lemma MergedStep(m: Store, area: Area, b: seq<Byte>, s: seq<Byte>, i: nat, now: seq<Byte>)
    requires 2 * i + 1 < |b| == |s| && now == b[..2 * i] + s[2 * i..]
    ensures Merged(m, area, b, s, i + 1) ==
            var t := Merged(m, area, b, s, i);
            if Changed(b, now, i) then Write(t, Cell(area, i), WordOf(b, i)) else t
  {
  }

  lemma SpliceStep(b: seq<Byte>, s: seq<Byte>, k: nat)
    requires k + 1 < |b| == |s|
    ensures (b[..k] + s[k..])[k := b[k]][k + 1 := b[k + 1]] == b[..k + 2] + s[k + 2..]
  {
  }

  lemma ImageStep(b: Byte, k: nat)
    requires k < 8
    ensures SetBit(b, k) < 0x100 && ClearBit(b, k) < 0x100
    ensures forall j | 0 <= j < 8 :: BitOf(SetBit(b, k), j) == (j == k || BitOf(b, j))
    ensures forall j | 0 <= j < 8 :: BitOf(ClearBit(b, k), j) == (j != k && BitOf(b, j))
  {
    assert Pow2(8) == 256 by { assert Pow2(5) == 32; }
    BitsKeepRange(b, k, 8);
    forall j | 0 <= j < 8 ensures BitOf(SetBit(b, k), j) == (j == k || BitOf(b, j)) {
      SetBitSets(b, k, j);
    }
    forall j | 0 <= j < 8 ensures BitOf(ClearBit(b, k), j) == (j != k && BitOf(b, j)) {
      ClearBitClears(b, k, j);
    }
  }

  lemma ByteFromBits(b: Byte, bits: seq<bool>, k: nat)
    requires 8 * k + 8 <= |bits|
    requires forall j | 0 <= j < 8 :: BitOf(b, j) == bits[8 * k + j]
    ensures b == Packed(bits, 8 * k, 8)
  {
    assert Pow2(8) == 256 by { assert Pow2(5) == 32; }
    SameBitsSameNumber(b, Packed(bits, 8 * k, 8), 8);
  }

  // What a round amounts to.

  /** After a comparison word `i` is the client's if the client changed it, and
      what it was otherwise; nothing else moves. */
  lemma {:induction false} MergedWords(m: Store, area: Area, buffer: seq<Byte>, shadow: seq<Byte>, n: nat)
    requires 2 * n <= |buffer| == |shadow| && !IsBit(area)
    ensures var t := Merged(m, area, buffer, shadow, n);
            forall c | c in m :: t[c] ==
              if c.area == area && c.index < n && Changed(buffer, shadow, c.index) then WordOf(buffer, c.index) else m[c]
  {
    if n > 0 {
      MergedWords(m, area, buffer, shadow, n - 1);
    }
  }

  lemma {:induction false} NothingToMerge(m: Store, area: Area, buffer: seq<Byte>, n: nat)
    requires 2 * n <= |buffer|
    ensures Merged(m, area, buffer, buffer, n) == m
  {
    if n > 0 {
      NothingToMerge(m, area, buffer, n - 1);
    }
  }

  /** One round: every data word is the client's where its buffer differed from
      the shadow and the memory's elsewhere, all other cells stay; then buffer,
      shadow and memory agree word by word, and every bit of the images is its
      cell. */
  lemma SyncMerges(z: Sizes, s: State)
    requires s.buffers.Valid() && Covers(z, s.mem)
    ensures var b, t := s.buffers, Sync(s);
            && t.mem.Keys == s.mem.Keys
            && (forall c | c in s.mem && c.area != S7DB1 && c.area != S7DB2 :: t.mem[c] == s.mem[c])
            && (forall i | 0 <= i < DB_WORDS ::
                  t.mem[Cell(S7DB1, i)] == if Changed(b.db1, b.shadow1, i) then WordOf(b.db1, i) else s.mem[Cell(S7DB1, i)])
            && (forall i | 0 <= i < DB_WORDS ::
                  t.mem[Cell(S7DB2, i)] == if Changed(b.db2, b.shadow2, i) then WordOf(b.db2, i) else s.mem[Cell(S7DB2, i)])
            && t.buffers.db1 == t.buffers.shadow1 == Published(t.mem, S7DB1)
            && t.buffers.db2 == t.buffers.shadow2 == Published(t.mem, S7DB2)
            && t.buffers.pe == Image(t.mem, S7PE) && t.buffers.pa == Image(t.mem, S7PA)
  {
    hide Merged, Published, Image, WordOf, Changed;
    var b := s.buffers;
    var m1 := Merged(s.mem, S7DB1, b.db1, b.shadow1, DB_WORDS);
    MergedWords(s.mem, S7DB1, b.db1, b.shadow1, DB_WORDS);
    MergedWords(m1, S7DB2, b.db2, b.shadow2, DB_WORDS);
    forall i | 0 <= i < DB_WORDS ensures Cell(S7DB1, i) in s.mem && Cell(S7DB2, i) in s.mem {
    }
  }

  /** The blocks and images are as long as the areas: every word and every bit of
      them is there. */
  lemma WholeAreasAreThere(z: Sizes, m: Store, c: Cell)
    requires Covers(z, m) && c in m
    ensures c.area in {S7DB1, S7DB2} ==> 2 * c.index + 1 < |Published(m, c.area)|
    ensures c.area in {S7PE, S7PA} ==> c.index / 8 < |Image(m, c.area)|
  {
  }

  /** A word was changed by the client if either of its bytes was, and is then what
      the two bytes say, the first the higher. */
  lemma ChangeIsSeen(buffer: seq<Byte>, shadow: seq<Byte>, i: nat)
    requires 2 * i + 1 < |buffer| == |shadow|
    ensures !Changed(buffer, shadow, i) <==> buffer[2 * i..2 * i + 2] == shadow[2 * i..2 * i + 2]
    ensures WordOf(buffer, i) == 0x100 * buffer[2 * i] as int + buffer[2 * i + 1] as int
  {
    HalvesOfWord(0, buffer[2 * i], buffer[2 * i + 1]);
    var b, s := buffer[2 * i..2 * i + 2], shadow[2 * i..2 * i + 2];
    assert b == [buffer[2 * i], buffer[2 * i + 1]] && s == [shadow[2 * i], shadow[2 * i + 1]];
    hide Join;
  }

  /** What an S7 client reads after a round. */
  lemma PublishedWord(m: Store, area: Area, i: nat)
    requires i < DB_WORDS
    ensures WordOf(Published(m, area), i) == Read(m, Cell(area, i))
    ensures Published(m, area)[2 * i] == High(Read(m, Cell(area, i)))
    ensures Published(m, area)[2 * i + 1] == Low(Read(m, Cell(area, i)))
  {
    SplitJoins(Read(m, Cell(area, i)));
    assert Block(m, area, 0, DB_WORDS)[i] == Read(m, Cell(area, i));
  }

  lemma ImageBit(m: Store, area: Area, b: nat, j: nat)
    requires b < 256 && j < 8
    ensures BitOf(Image(m, area)[b], j) == (Read(m, Cell(area, 8 * b + j)) != 0)
  {
    var bits := Bools(Block(m, area, 0, IMAGE_BITS));
    assert Image(m, area)[b] == Packed(bits, 8 * b, 8);
    assert bits[8 * b + j] == (Block(m, area, 0, IMAGE_BITS)[8 * b + j] != 0);
  }

  /** Whatever the memory side does between two rounds is published and never
      taken for a client's write; with nothing done a round is the identity. */
  lemma MemoryWritesAreNotEchoed(s: State, m: Store)
    requires s.buffers.Valid()
    ensures var t := Sync(s);
            && Sync(t.(mem := m)).mem == m
            && Sync(t) == t
  {
    hide Merged, Published, Image;
    var t := Sync(s);
    NothingToMerge(m, S7DB1, t.buffers.db1, DB_WORDS);
    NothingToMerge(m, S7DB2, t.buffers.db2, DB_WORDS);
    NothingToMerge(t.mem, S7DB1, t.buffers.db1, DB_WORDS);
    NothingToMerge(t.mem, S7DB2, t.buffers.db2, DB_WORDS);
  }
}
