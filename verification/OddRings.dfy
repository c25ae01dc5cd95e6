/** Any list without parallel rules that closes a ring of odd length can be kept
    from settling, whatever other rules it has. */
module OddRings {
  import opened Cells
  import opened Mapping
  import opened MappingGraph
  import opened Flipping
  import Settling

  // Marks for some rules can be continued to all rules connected with them.

  /** The rules `on` are restless on account of each other. */
  ghost predicate Supported(edges: seq<Edge>, on: set<nat>, c: seq<bool>) {
    && |c| == |edges|
    && forall k | k in on :: k < |edges| && exists x :: SupportedAt(edges, on, c, k, x)
  }

  ghost predicate SupportedAt(edges: seq<Edge>, on: set<nat>, c: seq<bool>, k: nat, x: Cell)
    requires |c| == |edges| && k < |edges|
  {
    Touches(edges[k], x) && Contrary(edges, c, k, x) && Latest(edges, x, k) in on
  }

  /** Going back over the rules at `x` from one that is off to one that is on, one
      comes to a rule whose predecessor is on. */
  lemma {:induction false} FirstOff(edges: seq<Edge>, on: set<nat>, x: Cell, i: nat, j: nat) returns (k: nat)
    requires i < |edges| && Touches(edges[i], x) && i in on
    requires j < |edges| && Touches(edges[j], x) && j !in on
    ensures k < |edges| && Touches(edges[k], x) && k !in on && Latest(edges, x, k) in on
    decreases if j > i then j - i else j + |edges| - i
  {
    var p := Latest(edges, x, j);
    if p in on {
      k := j;
    } else {
      k := FirstOff(edges, on, x, i, p);
    }
  }

  lemma StillSupported(edges: seq<Edge>, on: set<nat>, c: seq<bool>, d: seq<bool>, k: nat, i: nat, y: Cell)
    requires |c| == |d| == |edges| && i < |edges| && SupportedAt(edges, on, c, i, y)
    requires i in on && k !in on && forall j | 0 <= j < |edges| && j != k :: d[j] == c[j]
    ensures SupportedAt(edges, on + {k}, d, i, y)
  {
    hide Latest;
  }

  /** The mark that makes rule `k` contrary at `x`. */
  function Continued(edges: seq<Edge>, c: seq<bool>, x: Cell, k: nat): (d: seq<bool>)
    requires |c| == |edges| && k < |edges| && Touches(edges[k], x)
    ensures |d| == |edges| && forall j | 0 <= j < |edges| && j != k :: d[j] == c[j]
    ensures Latest(edges, x, k) != k ==> Contrary(edges, d, k, x)
  {
    var p := Latest(edges, x, k);
    c[k := if p < k then c[p] else !c[p]]
  }

  lemma NowSupported(edges: seq<Edge>, on: set<nat>, c: seq<bool>, x: Cell, k: nat)
    requires |c| == |edges| && k < |edges| && Touches(edges[k], x) && k !in on && Latest(edges, x, k) in on
    ensures SupportedAt(edges, on + {k}, Continued(edges, c, x, k), k, x)
  {
    hide Latest, Contrary, Continued;
  }

  /** One more rule gets its mark. */
  lemma AddMark(edges: seq<Edge>, on: set<nat>, c: seq<bool>, x: Cell, k: nat) returns (d: seq<bool>)
    requires Supported(edges, on, c) && k < |edges| && Touches(edges[k], x) && k !in on && Latest(edges, x, k) in on
    ensures Supported(edges, on + {k}, d)
  {
    hide SupportedAt, Contrary, Continued, Latest, Touches;
    d := Continued(edges, c, x, k);
    NowSupported(edges, on, c, x, k);
    forall i | i in on ensures i < |edges| && exists y :: SupportedAt(edges, on + {k}, d, i, y) {
      var y :| SupportedAt(edges, on, c, i, y);
      StillSupported(edges, on, c, d, k, i, y);
    }
  }

  /** A rule that is off shares a cell with one that is on. */
  ghost predicate Borders(edges: seq<Edge>, on: set<nat>, i: nat, j: nat) {
    && i in on && i < |edges| && j < |edges| && j !in on
    && (Touches(edges[j], edges[i].src) || Touches(edges[j], edges[i].dst))
  }

  lemma {:induction false} Complete(edges: seq<Edge>, on: set<nat>, c: seq<bool>) returns (all: set<nat>, d: seq<bool>)
    requires Supported(edges, on, c)
    ensures on <= all && AllRestless(edges, all, d)
    decreases |edges| - |on|
  {
    hide Supported, AllRestless;
    if i: nat, j: nat :| Borders(edges, on, i, j) {
      var x := if Touches(edges[j], edges[i].src) then edges[i].src else edges[i].dst;
      var k := FirstOff(edges, on, x, i, j);
      var c' := AddMark(edges, on, c, x, k);
      SupportedAreFew(edges, on + {k}, c');
      all, d := Complete(edges, on + {k}, c');
    } else {
      all, d := on, c;
      SupportedIsRestless(edges, on, c);
    }
  }

  lemma SupportedIsRestless(edges: seq<Edge>, on: set<nat>, c: seq<bool>)
    requires Supported(edges, on, c) && forall i: nat, j: nat :: !Borders(edges, on, i, j)
    ensures AllRestless(edges, on, c)
  {
    assert Closed(edges, on) by {
      forall i, j | i in on && 0 <= i < |edges| && 0 <= j < |edges| &&
                    (Touches(edges[j], edges[i].src) || Touches(edges[j], edges[i].dst)) ensures j in on {
        assert !Borders(edges, on, i, j);
      }
    }
    hide Closed, Contrary;
    forall k | k in on ensures k < |edges| && Restless(edges, c, k) {
      var x :| SupportedAt(edges, on, c, k, x);
    }
  }

  lemma SupportedAreFew(edges: seq<Edge>, on: set<nat>, c: seq<bool>)
    requires Supported(edges, on, c)
    ensures |on| <= |edges|
  {
    hide SupportedAt;
    Few(on, |edges|);
  }

  lemma {:induction false} Few(s: set<nat>, n: nat)
    requires forall k | k in s :: k < n
    ensures |s| <= n
  {
    if n > 0 {
      Few(s - {n - 1}, n - 1);
    } else {
      assert s == {};
    }
  }

  // Marks around a ring.

  /** Whether rule `j` fires later than rule `i` (`up`), or earlier. */
  predicate Turn(i: nat, j: nat, up: bool) {
    if up then i < j else j < i
  }

  function Xor(a: bool, b: bool): bool {
    a != b
  }

  /** The parity of the turns among the first `i` steps round the ring. */
  function Parity(ord: seq<nat>, up: bool, i: nat): bool
    requires i <= |ord|
  {
    if i == 0 then false else Xor(Parity(ord, up, i - 1), Turn(ord[i - 1], ord[Next(i - 1, |ord|)], up))
  }

  /** Each step is a turn one way or the other. */
  lemma {:induction false} ParitiesDiffer(ord: seq<nat>, i: nat)
    requires i <= |ord| && Distinct(ord) && 2 <= |ord|
    ensures Xor(Parity(ord, true, i), Parity(ord, false, i)) == IsOdd(i)
  {
    if i > 0 {
      ParitiesDiffer(ord, i - 1);
      assert ord[i - 1] != ord[Next(i - 1, |ord|)];
    }
  }

  function Prev(j: nat, n: nat): nat
    requires j < n
  {
    if j == 0 then n - 1 else j - 1
  }

  /** Of the two rules of the ring at its j-th cell, the one that the marks of all
      rules at the cell go by. */
  function Base(ord: seq<nat>, up: bool, j: nat): nat
    requires j < |ord|
  {
    if up then ord[j] else ord[Prev(j, |ord|)]
  }

  /** The mark of a rule at a cell whose base has mark `b`. */
  function By(base: nat, b: bool, k: nat): bool {
    Xor(b, k < base)
  }

  /** All marks at `x` go by those of rule `base`. */
  ghost predicate GoBy(edges: seq<Edge>, c: seq<bool>, x: Cell, base: nat)
    requires |c| == |edges| && base < |edges|
  {
    forall k | 0 <= k < |edges| && Touches(edges[k], x) :: c[k] == By(base, c[base], k)
  }

  lemma GoneByIsContrary(edges: seq<Edge>, c: seq<bool>, x: Cell, base: nat, k: nat)
    requires |c| == |edges| && base < |edges| && Touches(edges[base], x) && GoBy(edges, c, x, base)
    requires k < |edges| && Touches(edges[k], x) && k != base
    ensures Contrary(edges, c, k, x)
  {
    var p := Latest(edges, x, k);
  }

  lemma ParityStep(ord: seq<nat>, up: bool, j: nat)
    requires j < |ord| && !Parity(ord, up, |ord|)
    ensures Parity(ord, up, j) == Xor(Parity(ord, up, Prev(j, |ord|)), Turn(ord[Prev(j, |ord|)], ord[j], up))
  {
    if j == 0 {
      assert Parity(ord, up, |ord|) == Xor(Parity(ord, up, |ord| - 1), Turn(ord[|ord| - 1], ord[0], up));
    }
  }

  /** No rule off the ring joins two of its cells. */
  ghost predicate Chordless(edges: seq<Edge>, cyc: seq<Cell>, ord: seq<nat>) {
    forall m | 0 <= m < |edges| && m !in ord && !IsLoop(edges[m]) :: edges[m].src !in cyc || edges[m].dst !in cyc
  }

  ghost predicate AtRing(edges: seq<Edge>, cyc: seq<Cell>, k: nat)
    requires k < |edges|
  {
    exists j :: 0 <= j < |cyc| && Touches(edges[k], cyc[j])
  }

  ghost function RulesAt(edges: seq<Edge>, cyc: seq<Cell>): set<nat> {
    set k: nat | k < |edges| && AtRing(edges, cyc, k)
  }

  /** The mark of a rule on the ring, or at one of its cells. */
  ghost function RingMark(edges: seq<Edge>, cyc: seq<Cell>, ord: seq<nat>, up: bool, k: nat): bool
    requires |cyc| == |ord| && k < |edges|
  {
    if i :| 0 <= i < |ord| && ord[i] == k then Parity(ord, up, i)
    else if j :| 0 <= j < |cyc| && Touches(edges[k], cyc[j]) then By(Base(ord, up, j), BaseMark(ord, up, j), k)
    else false
  }

  function BaseMark(ord: seq<nat>, up: bool, j: nat): bool
    requires j < |ord|
  {
    Parity(ord, up, if up then j else Prev(j, |ord|))
  }

  ghost function RingMarks(edges: seq<Edge>, cyc: seq<Cell>, ord: seq<nat>, up: bool): (c: seq<bool>)
    requires |cyc| == |ord|
    ensures |c| == |edges| && forall k | 0 <= k < |edges| :: c[k] == RingMark(edges, cyc, ord, up, k)
  {
    seq(|edges|, k requires 0 <= k < |edges| => RingMark(edges, cyc, ord, up, k))
  }

  lemma MarkOnRing(edges: seq<Edge>, cyc: seq<Cell>, ord: seq<nat>, up: bool, i: nat)
    requires IsCycle(edges, cyc, ord) && i < |ord|
    ensures ord[i] < |edges| && RingMark(edges, cyc, ord, up, ord[i]) == Parity(ord, up, i)
  {
    hide Parity;
    var k := ord[i];
    assert forall j | 0 <= j < |ord| && ord[j] == k :: j == i;
  }

  /** A rule off the ring touches one cell of it only. */
  lemma MarkOffRing(edges: seq<Edge>, cyc: seq<Cell>, ord: seq<nat>, up: bool, k: nat, j: nat)
    requires IsCycle(edges, cyc, ord) && Chordless(edges, cyc, ord)
    requires k < |edges| && k !in ord && j < |cyc| && Touches(edges[k], cyc[j])
    ensures RingMark(edges, cyc, ord, up, k) == By(Base(ord, up, j), BaseMark(ord, up, j), k)
  {
    hide By, Base, BaseMark, Parity;
    assert forall i | 0 <= i < |ord| :: ord[i] in ord;
    forall i | 0 <= i < |cyc| && Touches(edges[k], cyc[i]) ensures i == j {
      assert cyc[i] in cyc && cyc[j] in cyc;
    }
  }

  /** The rules of the ring at its j-th cell. */
  lemma RingRulesAt(edges: seq<Edge>, cyc: seq<Cell>, ord: seq<nat>, i: nat, j: nat)
    requires IsCycle(edges, cyc, ord) && i < |ord| && j < |cyc| && Touches(edges[ord[i]], cyc[j])
    ensures i == j || i == Prev(j, |ord|)
  {
    assert Joins(edges[ord[i]], cyc[i], cyc[Next(i, |cyc|)]);
  }

  lemma BaseTouches(edges: seq<Edge>, cyc: seq<Cell>, ord: seq<nat>, up: bool, j: nat)
    requires IsCycle(edges, cyc, ord) && j < |cyc|
    ensures Base(ord, up, j) < |edges| && Touches(edges[Base(ord, up, j)], cyc[j])
    ensures RingMark(edges, cyc, ord, up, Base(ord, up, j)) == BaseMark(ord, up, j)
  {
    hide Parity;
    var i := if up then j else Prev(j, |ord|);
    assert Joins(edges[ord[i]], cyc[i], cyc[Next(i, |cyc|)]);
    MarkOnRing(edges, cyc, ord, up, i);
  }

  /** All marks at a cell of the ring go by its base. */
  lemma MarksGoBy(edges: seq<Edge>, cyc: seq<Cell>, ord: seq<nat>, up: bool, j: nat)
    requires IsCycle(edges, cyc, ord) && Chordless(edges, cyc, ord) && !Parity(ord, up, |ord|) && j < |cyc|
    ensures Base(ord, up, j) < |edges| && GoBy(edges, RingMarks(edges, cyc, ord, up), cyc[j], Base(ord, up, j))
  {
    assert |cyc| == |ord|;
    hide Parity, RingMark, Chordless, IsCycle;
    BaseTouches(edges, cyc, ord, up, j);
    var c := RingMarks(edges, cyc, ord, up);
    forall k | 0 <= k < |edges| && Touches(edges[k], cyc[j]) ensures c[k] == By(Base(ord, up, j), c[Base(ord, up, j)], k) {
      if i :| 0 <= i < |ord| && ord[i] == k {
        RingRulesAt(edges, cyc, ord, i, j);
        MarkOnRing(edges, cyc, ord, up, i);
        ParityStep(ord, up, j);
      } else {
        MarkOffRing(edges, cyc, ord, up, k, j);
      }
    }
  }

  /** Every rule at the ring meets it in a cell where it is not the base. */
  lemma OtherBase(edges: seq<Edge>, cyc: seq<Cell>, ord: seq<nat>, up: bool, k: nat) returns (j: nat)
    requires IsCycle(edges, cyc, ord) && k < |edges| && AtRing(edges, cyc, k)
    ensures j < |cyc| && Touches(edges[k], cyc[j]) && Base(ord, up, j) != k
  {
    if i :| 0 <= i < |ord| && ord[i] == k {
      assert Joins(edges[ord[i]], cyc[i], cyc[Next(i, |cyc|)]);
      j := if up then Next(i, |ord|) else i;
      assert ord[j] != ord[Prev(j, |ord|)];
    } else {
      j :| 0 <= j < |cyc| && Touches(edges[k], cyc[j]);
    }
  }

  lemma RingIsSupported(edges: seq<Edge>, cyc: seq<Cell>, ord: seq<nat>, up: bool)
    requires IsCycle(edges, cyc, ord) && Chordless(edges, cyc, ord) && !Parity(ord, up, |ord|)
    ensures Supported(edges, RulesAt(edges, cyc), RingMarks(edges, cyc, ord, up))
  {
    assert |cyc| == |ord|;
    hide Parity, RingMark, Chordless, IsCycle, Contrary, GoBy;
    var on := RulesAt(edges, cyc);
    var c := RingMarks(edges, cyc, ord, up);
    forall k | k in on ensures exists x :: SupportedAt(edges, on, c, k, x) {
      var j := OtherBase(edges, cyc, ord, up, k);
      BaseTouches(edges, cyc, ord, up, j);
      MarksGoBy(edges, cyc, ord, up, j);
      GoneByIsContrary(edges, c, cyc[j], Base(ord, up, j), k);
      assert Touches(edges[Latest(edges, cyc[j], k)], cyc[j]);
      assert SupportedAt(edges, on, c, k, cyc[j]);
    }
  }

  // A chord splits an odd ring into an odd one and an even one.

  lemma FirstPart(edges: seq<Edge>, cyc: seq<Cell>, ord: seq<nat>, m: nat, i: nat, j: nat)
    requires IsCycle(edges, cyc, ord) && m < |edges| && m !in ord && i + 2 <= j < |cyc| && Joins(edges[m], cyc[i], cyc[j])
    ensures IsCycle(edges, cyc[i..j + 1], ord[i..j] + [m])
  {
    var c, o := cyc[i..j + 1], ord[i..j] + [m];
    forall a {:trigger o[a]} | 0 <= a < |o| ensures o[a] < |edges| && Joins(edges[o[a]], c[a], c[Next(a, |c|)]) {
      if a < j - i {
        assert Joins(edges[ord[i + a]], cyc[i + a], cyc[Next(i + a, |cyc|)]);
      }
    }
    forall a | 0 <= a < j - i ensures o[a] != m {
      assert ord[i + a] in ord;
    }
  }

  lemma SecondPart(edges: seq<Edge>, cyc: seq<Cell>, ord: seq<nat>, m: nat, i: nat, j: nat)
    requires IsCycle(edges, cyc, ord) && m < |edges| && m !in ord && i < j < |cyc| && Joins(edges[m], cyc[i], cyc[j])
    requires 3 <= |cyc| - j + i + 1
    ensures IsCycle(edges, cyc[j..] + cyc[..i + 1], ord[j..] + ord[..i] + [m])
  {
    var n, c, o := |cyc|, cyc[j..] + cyc[..i + 1], ord[j..] + ord[..i] + [m];
    forall a {:trigger o[a]} | 0 <= a < |o| ensures o[a] < |edges| && Joins(edges[o[a]], c[a], c[Next(a, |c|)]) {
      if a < n - j {
        assert Joins(edges[ord[j + a]], cyc[j + a], cyc[Next(j + a, n)]);
      } else if a < n - j + i {
        assert Joins(edges[ord[a - (n - j)]], cyc[a - (n - j)], cyc[Next(a - (n - j), n)]);
      }
    }
    forall a | 0 <= a < |o| - 1 ensures o[a] != m {
      assert o[a] in ord;
    }
  }

  /** Cells next to each other on the ring are joined by its own rule only. */
  lemma ChordIsLong(edges: seq<Edge>, cyc: seq<Cell>, ord: seq<nat>, m: nat, i: nat, j: nat)
    requires NoParallel(edges) && IsCycle(edges, cyc, ord)
    requires m < |edges| && m !in ord && i < j < |cyc| && Joins(edges[m], cyc[i], cyc[j])
    ensures i + 2 <= j && (i > 0 || j + 1 < |cyc|)
  {
    assert Joins(edges[ord[i]], cyc[i], cyc[Next(i, |cyc|)]) && ord[i] in ord;
    assert Joins(edges[ord[j]], cyc[j], cyc[Next(j, |cyc|)]) && ord[j] in ord;
    assert cyc[i] != cyc[j];
  }

  lemma {:induction false} ChordlessOddRing(edges: seq<Edge>, cyc: seq<Cell>, ord: seq<nat>)
      returns (c: seq<Cell>, o: seq<nat>)
    requires NoParallel(edges) && IsCycle(edges, cyc, ord) && IsOdd(|cyc|)
    ensures IsCycle(edges, c, o) && IsOdd(|c|) && Chordless(edges, c, o)
    decreases |cyc|
  {
    if m: nat, i: nat, j: nat :| m < |edges| && m !in ord && i < j < |cyc| && Joins(edges[m], cyc[i], cyc[j]) {
      ChordIsLong(edges, cyc, ord, m, i, j);
      if IsOdd(j - i + 1) {
        FirstPart(edges, cyc, ord, m, i, j);
        c, o := ChordlessOddRing(edges, cyc[i..j + 1], ord[i..j] + [m]);
      } else {
        SecondPart(edges, cyc, ord, m, i, j);
        c, o := ChordlessOddRing(edges, cyc[j..] + cyc[..i + 1], ord[j..] + ord[..i] + [m]);
      }
    } else {
      c, o := cyc, ord;
      forall m | 0 <= m < |edges| && m !in ord && !IsLoop(edges[m]) ensures edges[m].src !in cyc || edges[m].dst !in cyc {
        if edges[m].src in cyc && edges[m].dst in cyc {
          var i :| 0 <= i < |cyc| && cyc[i] == edges[m].src;
          var j :| 0 <= j < |cyc| && cyc[j] == edges[m].dst;
          assert Joins(edges[m], cyc[i], cyc[j]) && Joins(edges[m], cyc[j], cyc[i]);
        }
      }
    }
  }

  /** A ring that no other rule joins two cells of keeps a list from settling if an
      even number of its rules fire before the next rule of the ring, going round
      one way or the other. */
  lemma EvenTurnsUnsettle(edges: seq<Edge>, cyc: seq<Cell>, ord: seq<nat>, up: bool)
    requires IsCycle(edges, cyc, ord) && Chordless(edges, cyc, ord) && !Parity(ord, up, |ord|)
    requires Settling.EqualWidths(edges)
    ensures !Settling.AlwaysSettles(edges)
  {
    hide Settling.EqualWidths, Settling.AlwaysSettles, Chordless, AllRestless, Supported, RingMarks;
    RingIsSupported(edges, cyc, ord, up);
    var on := RulesAt(edges, cyc);
    var all, marks := Complete(edges, on, RingMarks(edges, cyc, ord, up));
    assert Joins(edges[ord[0]], cyc[0], cyc[Next(0, |cyc|)]);
    assert Touches(edges[ord[0]], cyc[0]) && ord[0] in on;
    AlternatingUnsettles(edges, all, marks, ord[0]);
  }

  /** A list without parallel rules that closes a ring of odd length does not
      always settle, whatever other rules it has. */
  lemma OddRingUnsettles(edges: seq<Edge>, cyc: seq<Cell>, ord: seq<nat>)
    requires NoParallel(edges) && Settling.EqualWidths(edges) && IsCycle(edges, cyc, ord) && IsOdd(|cyc|)
    ensures !Settling.AlwaysSettles(edges)
  {
    hide NoParallel, Settling.EqualWidths, Settling.AlwaysSettles, Chordless;
    var c, o := ChordlessOddRing(edges, cyc, ord);
    ParitiesDiffer(o, |o|);
    EvenTurnsUnsettle(edges, c, o, !Parity(o, true, |o|));
  }
}
