/** Mapping rules as an undirected graph over cells. A rule copies in both
    directions, so which end is written as the source matters less than which
    end is nearer to the root of its tree. */
module MappingGraph {
  import opened Cells
  import opened Mapping

  /** A choice of root in every tree: for each rule, whether its destination is
      the end away from the root; and a height for every cell that drops by at
      least one from the near end of a rule to its far end. */
  datatype Rooting = Rooting(down: seq<bool>, height: Cell -> nat)

  /** The end of rule `i` away from the root. */
  function Child(edges: seq<Edge>, r: Rooting, i: nat): Cell
    requires i < |edges| == |r.down|
  {
    if r.down[i] then edges[i].dst else edges[i].src
  }

  /** The end of rule `i` towards the root. */
  function Parent(edges: seq<Edge>, r: Rooting, i: nat): Cell
    requires i < |edges| == |r.down|
  {
    if r.down[i] then edges[i].src else edges[i].dst
  }

  predicate IsLoop(x: Edge) {
    x.src == x.dst
  }

  /** Rule `i` leads down from its near end. */
  predicate Falls(edges: seq<Edge>, r: Rooting, i: nat)
    requires i < |edges| == |r.down|
  {
    r.height(Child(edges, r, i)) < r.height(Parent(edges, r, i))
  }

  /** Two opposite rules: each has the other's near end as its far end. */
  predicate Twins(edges: seq<Edge>, r: Rooting, i: nat, j: nat)
    requires i < |edges| == |r.down| && j < |edges|
  {
    Child(edges, r, i) == Parent(edges, r, j) && Child(edges, r, j) == Parent(edges, r, i)
  }

  /** Every cell is the far end of at most one rule; rules from a cell to itself
      are not looked at. */
  ghost predicate Oriented(edges: seq<Edge>, r: Rooting)
    requires |r.down| == |edges|
  {
    forall i, j | 0 <= i < j < |edges| :: IsLoop(edges[i]) || IsLoop(edges[j]) || Child(edges, r, i) != Child(edges, r, j)
  }

  /** `r` roots the rules in trees of height at most `H`. */
  ghost predicate Rooted(edges: seq<Edge>, r: Rooting, H: nat) {
    && |r.down| == |edges| && Oriented(edges, r)
    && forall i | 0 <= i < |edges| :: Falls(edges, r, i) && r.height(Parent(edges, r, i)) <= H
  }

  /** The same, but a tree may hang from twins in place of a single cell, and a
      cell may have rules to itself. */
  ghost predicate Hung(edges: seq<Edge>, r: Rooting, H: nat) {
    && |r.down| == |edges| && Oriented(edges, r)
    && (forall i | 0 <= i < |edges| :: r.height(Child(edges, r, i)) <= r.height(Parent(edges, r, i)) <= H)
    && (forall i | 0 <= i < |edges| && !IsLoop(edges[i]) && !Falls(edges, r, i) ::
          exists j :: 0 <= j < |edges| && Twins(edges, r, i, j))
  }

  /** Every rule is listed behind the rule that reaches its near end. */
  ghost predicate ParentFirst(edges: seq<Edge>, r: Rooting)
    requires |r.down| == |edges|
  {
    forall i, j | 0 <= i < j < |edges| :: Parent(edges, r, i) != Child(edges, r, j)
  }

  predicate Joins(x: Edge, a: Cell, b: Cell) {
    (x.src == a && x.dst == b) || (x.src == b && x.dst == a)
  }

  /** No two rules join the same two cells. */
  ghost predicate NoParallel(edges: seq<Edge>) {
    forall i, j | 0 <= i < j < |edges| :: IsLoop(edges[i]) || !Joins(edges[j], edges[i].src, edges[i].dst)
  }

  /** Nor does a rule map a cell to itself. */
  ghost predicate Simple(edges: seq<Edge>) {
    && (forall i | 0 <= i < |edges| :: !IsLoop(edges[i]))
    && NoParallel(edges)
  }

  function Next(i: nat, n: nat): nat {
    if i + 1 == n then 0 else i + 1
  }

  ghost predicate Distinct<T>(s: seq<T>) {
    forall i, j | 0 <= i < j < |s| :: s[i] != s[j]
  }

  /** Three or more distinct cells in a ring, rule `ord[i]` joining the i-th to
      the next one; directions and list order are arbitrary. */
  ghost predicate IsCycle(edges: seq<Edge>, cyc: seq<Cell>, ord: seq<nat>) {
    && 3 <= |cyc| == |ord|
    && Distinct(cyc) && Distinct(ord)
    && forall i {:trigger ord[i]} | 0 <= i < |ord| ::
         ord[i] < |edges| && Joins(edges[ord[i]], cyc[i], cyc[Next(i, |cyc|)])
  }

  ghost predicate Acyclic(edges: seq<Edge>) {
    forall cyc, ord :: !IsCycle(edges, cyc, ord)
  }

  predicate Touches(x: Edge, c: Cell) {
    x.src == c || x.dst == c
  }

  function Other(x: Edge, c: Cell): Cell {
    if x.src == c then x.dst else x.src
  }

  ghost function Ends(edges: seq<Edge>): set<Cell> {
    (set x | x in edges :: x.src) + (set x | x in edges :: x.dst)
  }

  // Acyclic rules can be rooted: strip leaves one at a time.

  /** Cells visited one after another without repetition, with the rules used. */
  ghost predicate IsTrail(edges: seq<Edge>, p: seq<Cell>, q: seq<nat>) {
    && 2 <= |p| == |q| + 1
    && Distinct(p)
    && forall i | 0 <= i < |q| :: q[i] < |edges| && Joins(edges[q[i]], p[i], p[i + 1])
  }

  lemma {:induction false} DistinctIsShort<T>(p: seq<T>, s: set<T>)
    requires Distinct(p) && forall i | 0 <= i < |p| :: p[i] in s
    ensures |p| <= |s|
  {
    if p != [] {
      var k := |p| - 1;
      DistinctIsShort(p[..k], s - {p[k]});
    }
  }

  lemma {:induction false} FewElements<T>(q: seq<T>, s: set<T>)
    requires forall x | x in s :: x in q
    ensures |s| <= |q|
  {
    if q != [] {
      var k := |q| - 1;
      FewElements(q[..k], s - {q[k]});
    } else {
      assert s == {};
    }
  }

  /** As many different elements as `q` is long are all of `q`. */
  lemma DistinctCovers<T(!new)>(p: seq<T>, q: seq<T>, x: T)
    requires Distinct(p) && |p| == |q| && x in q && forall i | 0 <= i < |p| :: p[i] in q
    ensures x in p
  {
    var s := set y | y in q;
    FewElements(q, s);
    if x !in p {
      DistinctIsShort(p, s - {x});
    }
  }

  /** A trail that runs into itself is a cycle. */
  lemma ClosedTrailIsCycle(edges: seq<Edge>, p: seq<Cell>, q: seq<nat>, j: nat, m: nat)
    requires Simple(edges) && IsTrail(edges, p, q)
    requires j < |edges| && j != q[|q| - 1] && Touches(edges[j], p[|p| - 1])
    requires m < |p| && p[m] == Other(edges[j], p[|p| - 1])
    ensures IsCycle(edges, p[m..], q[m..] + [j])
  {
    var x, last := p[|p| - 1], q[|q| - 1];
    assert Joins(edges[last], p[|p| - 2], x) && Joins(edges[j], x, p[m]);
    var ord := q[m..] + [j];
    forall a, b | 0 <= a < b < |ord| ensures ord[a] != ord[b] {
      assert Joins(edges[q[m + a]], p[m + a], p[m + a + 1]);
      if b < |ord| - 1 {
        assert Joins(edges[q[m + b]], p[m + b], p[m + b + 1]);
      }
    }
  }

  /** A trail that does not run into itself gets longer, within the finitely
      many cells there are. */
  lemma ExtendTrail(edges: seq<Edge>, p: seq<Cell>, q: seq<nat>, j: nat)
    requires IsTrail(edges, p, q) && j < |edges| && Touches(edges[j], p[|p| - 1])
    requires Other(edges[j], p[|p| - 1]) !in p
    ensures IsTrail(edges, p + [Other(edges[j], p[|p| - 1])], q + [j])
    ensures |p| < |Ends(edges)|
  {
    var p', q' := p + [Other(edges[j], p[|p| - 1])], q + [j];
    assert forall k | 0 <= k < |q'| :: Joins(edges[q'[k]], p'[k], p'[k + 1]);
    forall k | 0 <= k < |p'| ensures p'[k] in Ends(edges) {
      var a := if k < |q'| then k else k - 1;
      assert Joins(edges[q'[a]], p'[a], p'[a + 1]);
      assert edges[q'[a]] in edges;
    }
    DistinctIsShort(p', Ends(edges));
  }

  /** Following rules away from where one came ends at a cell that only one
      rule touches. */
  lemma {:induction false} FindLeaf(edges: seq<Edge>, p: seq<Cell>, q: seq<nat>) returns (i: nat, x: Cell)
    requires Simple(edges) && Acyclic(edges) && IsTrail(edges, p, q)
    ensures i < |edges| && Touches(edges[i], x)
    ensures forall j | 0 <= j < |edges| && j != i :: !Touches(edges[j], x)
    decreases |Ends(edges)| - |p|
  {
    i, x := q[|q| - 1], p[|p| - 1];
    assert Joins(edges[i], p[|p| - 2], x);
    if j: nat :| j < |edges| && j != i && Touches(edges[j], x) {
      var z := Other(edges[j], x);
      if m: nat :| m < |p| && p[m] == z {
        ClosedTrailIsCycle(edges, p, q, j, m);
        assert false;
      }
      ExtendTrail(edges, p, q, j);
      i, x := FindLeaf(edges, p + [z], q + [j]);
    }
  }

  function Without<T>(s: seq<T>, i: nat): seq<T>
    requires i < |s|
  {
    s[..i] + s[i + 1..]
  }

  lemma WithoutStaysAcyclic(edges: seq<Edge>, i: nat)
    requires i < |edges| && NoParallel(edges) && Acyclic(edges)
    ensures NoParallel(Without(edges, i)) && Acyclic(Without(edges, i))
  {
    var rest := Without(edges, i);
    forall cyc, ord ensures !IsCycle(rest, cyc, ord) {
      if IsCycle(rest, cyc, ord) {
        var ord' := seq(|ord|, k requires 0 <= k < |ord| => if ord[k] < i then ord[k] else ord[k] + 1);
        assert forall k | 0 <= k < |ord| :: edges[ord'[k]] == rest[ord[k]];
        assert IsCycle(edges, cyc, ord');
      }
    }
  }

  /** Hanging a leaf rule back into rooted rules keeps them rooted. */
  lemma HangLeaf(edges: seq<Edge>, i: nat, x: Cell, r: Rooting) returns (r': Rooting)
    requires i < |edges| && Simple(edges) && Touches(edges[i], x)
    requires forall j | 0 <= j < |edges| && j != i :: !Touches(edges[j], x)
    requires Rooted(Without(edges, i), r, |edges| - 1) && forall c :: r.height(c) <= |edges| - 1
    ensures Rooted(edges, r', |edges|) && forall c :: r'.height(c) <= |edges|
  {
    var rest := Without(edges, i);
    r' := Rooting(r.down[..i] + [edges[i].dst == x] + r.down[i..],
                  c => if c == x then 0 else r.height(c) + 1);
    forall j | 0 <= j < |edges| && j != i
      ensures var k := if j < i then j else j - 1;
              && Child(edges, r', j) == Child(rest, r, k) != x
              && Parent(edges, r', j) == Parent(rest, r, k) != x
    {
      assert !Touches(edges[j], x);
    }
    assert Child(edges, r', i) == x;
  }

  lemma {:induction false} AcyclicRootable(edges: seq<Edge>) returns (r: Rooting)
    requires Simple(edges) && Acyclic(edges)
    ensures Rooted(edges, r, |edges|) && forall c :: r.height(c) <= |edges|
    decreases |edges|
  {
    if edges == [] {
      r := Rooting([], c => 0);
    } else {
      assert IsTrail(edges, [edges[0].src, edges[0].dst], [0]);
      var i, x := FindLeaf(edges, [edges[0].src, edges[0].dst], [0]);
      WithoutStaysAcyclic(edges, i);
      r := AcyclicRootable(Without(edges, i));
      r := HangLeaf(edges, i, x, r);
    }
  }

  /** Different far ends for all rules that are no loops. */
  lemma {:induction false} AcyclicOrients(edges: seq<Edge>) returns (r: Rooting)
    requires NoParallel(edges) && Acyclic(edges)
    ensures |r.down| == |edges| && Oriented(edges, r)
    decreases |edges|
  {
    if i: nat :| i < |edges| && IsLoop(edges[i]) {
      WithoutStaysAcyclic(edges, i);
      var t := AcyclicOrients(Without(edges, i));
      r := Rooting(t.down[..i] + [true] + t.down[i..], t.height);
      forall j | 0 <= j < |edges| && j != i
        ensures var k := if j < i then j else j - 1;
                Without(edges, i)[k] == edges[j] && Child(edges, r, j) == Child(Without(edges, i), t, k)
      {
      }
    } else {
      r := AcyclicRootable(edges);
    }
  }
}
