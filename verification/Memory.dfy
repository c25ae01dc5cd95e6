/** `PlcMemory`: the cells of all protocols, updated in place, and the rule list
    that the mapping engine walks. */
module Memory {
  import opened Words
  import opened Cells
  import opened Mapping

  /** The values of `count` consecutive cells. */
  function Block(m: Store, area: Area, start: nat, count: nat): (s: seq<Word>)
    ensures |s| == count
  {
    seq<Word>(count, i requires 0 <= i < count => Read(m, Cell(area, start + i)))
  }

  lemma BlockStep(m: Store, area: Area, start: nat, k: nat)
    ensures Block(m, area, start, k + 1) == Block(m, area, start, k) + [Read(m, Cell(area, start + k))]
  {
  }

  /** The cells from `start` on take the given values. */
  function WriteAll(m: Store, area: Area, start: nat, values: seq<Word>): (t: Store)
    ensures t.Keys == m.Keys
    ensures WellFormed(m) ==> WellFormed(t)
    ensures forall c | c in m ::
              t[c] == if c.area == area && start <= c.index < start + |values|
                      then Kept(area, values[c.index - start]) else m[c]
  {
    if values == [] then m
    else
      var k := |values| - 1;
      Write(WriteAll(m, area, start, values[..k]), Cell(area, start + k), values[k])
  }

  lemma WriteAllStep(m: Store, area: Area, start: nat, values: seq<Word>, k: nat)
    requires k < |values|
    ensures WriteAll(m, area, start, values[..k + 1]) ==
            Write(WriteAll(m, area, start, values[..k]), Cell(area, start + k), values[k])
  {
    assert values[..k + 1][..k] == values[..k];
  }

  class PlcMemory {
    const sizes: Sizes
    var cells: Store
    var mappings: array<MappingRule>

    ghost predicate Valid()
      reads this
    {
      Covers(sizes, cells) && WellFormed(cells)
    }

    ghost function Contents(): Engine
      reads this, mappings
    {
      Engine(cells, mappings[..])
    }

    /** All cells 0, all rules still to see their first pass. */
    constructor (sizes: Sizes, edges: seq<Edge>)
      ensures Valid() && this.sizes == sizes && fresh(mappings)
      ensures forall c | c in cells :: cells[c] == 0
      ensures Follows(mappings[..], edges)
      ensures forall i | 0 <= i < |edges| :: !mappings[i].initialized
    {
      this.sizes := sizes;
      cells := map a: Area, i: nat | i < SizeOf(sizes, a) :: Cell(a, i) := 0;
      mappings := new MappingRule[|edges|](i requires 0 <= i < |edges| =>
          MappingRule(edges[i].src, edges[i].dst, 0, 0, false));
    }

    method ReadValue(ref: Cell) returns (v: Word)
      ensures v == Read(cells, ref)
      ensures v == if ref in cells then cells[ref] else 0
    {
      v := if ref in cells then cells[ref] else 0;
    }

    method WriteValue(ref: Cell, value: Word)
      requires Valid()
      modifies this`cells
      ensures Valid() && cells == Write(old(cells), ref, value)
      ensures cells.Keys == old(cells).Keys
      ensures ref in cells ==> cells[ref] == if IsBit(ref.area) then (if value == 0 then 0 else 1) else value
      ensures forall c | c in cells && c != ref :: cells[c] == old(cells)[c]
    {
      if ref in cells {
        cells := cells[ref := Kept(ref.area, value)];
      }
    }

    /** `readCoils`, `readDiscreteInputs`, `readInputRegisters`,
        `readHoldingRegisters`: nothing at all unless the range fits. */
    method ReadBlock(area: Area, start: Word, count: Word) returns (values: seq<Word>)
      requires Valid()
      ensures values == if start + count <= SizeOf(sizes, area) then Block(cells, area, start, count) else []
    {
      values := [];
      if start + count > SizeOf(sizes, area) || count == 0 {
        return;
      }
      for i := 0 to count
        invariant values == Block(cells, area, start, i)
      {
        BlockStep(cells, area, start, i);
        values := values + [cells[Cell(area, start + i)]];
      }
    }

    /** `writeCoils`, ..., `writeHoldingRegisters`: all of the range or nothing. */
    method WriteBlock(area: Area, start: Word, values: seq<Word>)
      requires Valid()
      modifies this`cells
      ensures Valid()
      ensures cells == if start + |values| <= SizeOf(sizes, area)
                       then WriteAll(old(cells), area, start, values) else old(cells)
    {
      if start + |values| <= SizeOf(sizes, area) {
        for i := 0 to |values|
          invariant Valid() && cells == WriteAll(old(cells), area, start, values[..i])
        {
          WriteAllStep(old(cells), area, start, values, i);
          WriteValue(Cell(area, start + i), values[i]);
        }
        assert values[..|values|] == values;
      }
    }

    /** Walks the rules in order; each compares what it sees with what it
        remembers, copies one way or the other, and remembers the result. */
    method SyncMappings()
      requires Valid()
      modifies this`cells, mappings
      ensures Valid() && Contents() == Pass(old(Contents()))
    {
      hide Read, Write, Covers, WellFormed, SameShape;
      ghost var e := Contents();
      for k := 0 to mappings.Length
        invariant Valid() && Contents() == Prefix(e, k)
      {
        var rule := mappings[k];
        var currSrc := ReadValue(rule.src);
        var currDst := ReadValue(rule.dst);
        if !rule.initialized {
          rule := rule.(lastSrc := currSrc, lastDst := currDst);
          if currSrc != currDst {
            WriteValue(rule.dst, currSrc);
            rule := rule.(lastDst := currSrc);
          }
          rule := rule.(initialized := true);
        } else if currSrc != rule.lastSrc {
          WriteValue(rule.dst, currSrc);
          rule := rule.(lastSrc := currSrc, lastDst := currSrc);
        } else if currDst != rule.lastDst {
          WriteValue(rule.src, currDst);
          rule := rule.(lastSrc := currDst, lastDst := currDst);
        } else if currSrc != currDst {
          WriteValue(rule.dst, currSrc);
          rule := rule.(lastSrc := currSrc, lastDst := currSrc);
        }
        mappings[k] := rule;
      }
    }
  }
}
