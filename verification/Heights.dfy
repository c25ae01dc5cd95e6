/** How high a cell stands above the ends of the chains of rules that start at
    it, and the trees that follow from a choice of far ends. */
module Heights {
  import opened Cells
  import opened Mapping
  import opened MappingGraph

  /** Rules chained destination to source. */
  ghost predicate IsChain(edges: seq<Edge>, p: seq<nat>) {
    && (forall i | 0 <= i < |p| :: p[i] < |edges|)
    && (forall i | 0 <= i < |p| - 1 :: edges[p[i]].dst == edges[p[i + 1]].src)
  }

  ghost predicate ChainFrom(edges: seq<Edge>, on: set<nat>, c: Cell, p: seq<nat>) {
    IsChain(edges, p) && p != [] && edges[p[0]].src == c && forall i | 0 <= i < |p| :: p[i] in on
  }

  /** No chain of the rules `on` is longer than `H`. */
  ghost predicate ChainsEnd(edges: seq<Edge>, on: set<nat>, H: nat) {
    forall p | IsChain(edges, p) && (forall i | 0 <= i < |p| :: p[i] in on) :: |p| <= H
  }

  /** The length of the longest chain of the rules `on` from `c`, up to `k`. */
  ghost function Height(edges: seq<Edge>, on: set<nat>, c: Cell, k: nat): (h: nat)
    ensures h <= k
    ensures h > 0 ==> exists p :: ChainFrom(edges, on, c, p) && |p| == h
    ensures forall p | ChainFrom(edges, on, c, p) && |p| <= k :: |p| <= h
  {
    if k == 0 then 0
    else if exists p :: ChainFrom(edges, on, c, p) && |p| == k then k
    else Height(edges, on, c, k - 1)
  }

  lemma RuleDropsHeight(edges: seq<Edge>, on: set<nat>, H: nat, i: nat)
    requires ChainsEnd(edges, on, H) && i < |edges| && i in on
    ensures Height(edges, on, edges[i].dst, H) < Height(edges, on, edges[i].src, H)
  {
    var h := Height(edges, on, edges[i].dst, H);
    var p: seq<nat> := if h == 0 then [] else var p :| ChainFrom(edges, on, edges[i].dst, p) && |p| == h; p;
    assert ChainFrom(edges, on, edges[i].src, [i] + p);
  }

  // From far ends to trees.

  /** The rules with their near ends as sources. */
  ghost function Directed(edges: seq<Edge>, r: Rooting): (d: seq<Edge>)
    requires |r.down| == |edges|
    ensures |d| == |edges|
    ensures forall i | 0 <= i < |edges| :: d[i] == Edge(Parent(edges, r, i), Child(edges, r, i))
  {
    seq(|edges|, i requires 0 <= i < |edges| => Edge(Parent(edges, r, i), Child(edges, r, i)))
  }

  ghost predicate IsTwin(edges: seq<Edge>, r: Rooting, i: nat)
    requires i < |edges| == |r.down|
  {
    !IsLoop(edges[i]) && exists j :: 0 <= j < |edges| && Twins(edges, r, i, j)
  }

  /** Neither loops nor twins. */
  ghost function Steep(edges: seq<Edge>, r: Rooting): set<nat>
    requires |r.down| == |edges|
  {
    set i: nat | i < |edges| && !IsLoop(edges[i]) && !IsTwin(edges, r, i)
  }

  /** One or two steep rules are no closed chain. */
  lemma ClosedChainIsLong(edges: seq<Edge>, r: Rooting, p: seq<nat>, a: nat, b: nat)
    requires |r.down| == |edges|
    requires IsChain(Directed(edges, r), p) && forall i | 0 <= i < |p| :: p[i] in Steep(edges, r)
    requires a < b < |p| && p[a] == p[b]
    ensures a + 3 <= b
  {
    assert p[a] in Steep(edges, r);
    assert !Twins(edges, r, p[a], p[a + 1]);
  }

  /** A chain that comes back to one of its rules has closed a ring. */
  lemma {:induction false} ChainCloses(edges: seq<Edge>, r: Rooting, p: seq<nat>, a: nat, b: nat)
      returns (cyc: seq<Cell>, ord: seq<nat>)
    requires |r.down| == |edges| && Oriented(edges, r)
    requires IsChain(Directed(edges, r), p) && forall i | 0 <= i < |p| :: p[i] in Steep(edges, r)
    requires a < b < |p| && p[a] == p[b]
    ensures IsCycle(edges, cyc, ord)
    decreases b - a
  {
    if c, d :| a <= c < d < b && p[c] == p[d] {
      cyc, ord := ChainCloses(edges, r, p, c, d);
    } else {
      cyc, ord := RingOfChain(edges, r, p, a, b);
    }
  }

  lemma RingOfChain(edges: seq<Edge>, r: Rooting, p: seq<nat>, a: nat, b: nat) returns (cyc: seq<Cell>, ord: seq<nat>)
    requires |r.down| == |edges| && Oriented(edges, r)
    requires IsChain(Directed(edges, r), p) && forall i | 0 <= i < |p| :: p[i] in Steep(edges, r)
    requires a < b < |p| && p[a] == p[b] && forall c, d | a <= c < d < b :: p[c] != p[d]
    ensures IsCycle(edges, cyc, ord)
  {
    var g, n := Directed(edges, r), b - a;
    ClosedChainIsLong(edges, r, p, a, b);
    cyc := seq(n, m requires 0 <= m < n => g[p[a + m]].dst);
    ord := p[a + 1..b + 1];
    assert forall m | a <= m < b :: p[m] < |edges| && !IsLoop(edges[p[m]]) by {
      forall m | a <= m < b ensures p[m] < |edges| && !IsLoop(edges[p[m]]) {
        assert p[m] in Steep(edges, r);
      }
    }
    forall m {:trigger ord[m]} | 0 <= m < n ensures ord[m] < |edges| && Joins(edges[ord[m]], cyc[m], cyc[Next(m, n)]) {
      assert g[p[a + m]].dst == g[p[a + m + 1]].src && ord[m] == p[a + m + 1];
    }
    hide Steep, IsChain;
    forall i, j | 0 <= i < j < n ensures cyc[i] != cyc[j] {
      assert p[a + i] != p[a + j];
    }
    forall i, j | 0 <= i < j < n ensures ord[i] != ord[j] {
      assert ord[i] == p[a + 1 + i] && ord[j] == (if j == n - 1 then p[a] else p[a + 1 + j]);
    }
  }

  lemma ChainsAreShort(edges: seq<Edge>, r: Rooting)
    requires |r.down| == |edges| && Oriented(edges, r) && Acyclic(edges)
    ensures ChainsEnd(Directed(edges, r), Steep(edges, r), |edges|)
  {
    forall p | IsChain(Directed(edges, r), p) && (forall i | 0 <= i < |p| :: p[i] in Steep(edges, r))
      ensures |p| <= |edges|
    {
      forall a, b | 0 <= a < b < |p| ensures p[a] != p[b] {
        if p[a] == p[b] {
          var cyc, ord := ChainCloses(edges, r, p, a, b);
          assert false;
        }
      }
      DistinctIsShort(p, Below(|edges|));
    }
  }

  ghost function Below(n: nat): (s: set<nat>)
    ensures |s| == n && forall i: nat :: i in s <==> i < n
  {
    if n == 0 then {} else Below(n - 1) + {n - 1}
  }

  /** An end of two twins. */
  ghost predicate IsTop(edges: seq<Edge>, r: Rooting, c: Cell)
    requires |r.down| == |edges|
  {
    exists i :: 0 <= i < |edges| && IsTwin(edges, r, i) && Touches(edges[i], c)
  }

  lemma FarEndOfTwin(edges: seq<Edge>, r: Rooting, i: nat)
    requires |r.down| == |edges| && Oriented(edges, r) && i < |edges| && !IsLoop(edges[i])
    requires IsTop(edges, r, Child(edges, r, i))
    ensures IsTwin(edges, r, i)
  {
    var c := Child(edges, r, i);
    var k :| 0 <= k < |edges| && IsTwin(edges, r, k) && Touches(edges[k], c);
    var j :| 0 <= j < |edges| && Twins(edges, r, k, j);
    assert !IsLoop(edges[j]) && Twins(edges, r, j, k);
    assert i == k || i == j;
  }

  lemma TwinEndsAreTops(edges: seq<Edge>, r: Rooting, i: nat)
    requires |r.down| == |edges| && i < |edges| && IsTwin(edges, r, i)
    ensures IsTop(edges, r, Child(edges, r, i)) && IsTop(edges, r, Parent(edges, r, i))
  {
    assert Touches(edges[i], edges[i].src) && Touches(edges[i], edges[i].dst);
  }

  ghost function HangingFrom(edges: seq<Edge>, r: Rooting): (t: Rooting)
    requires |r.down| == |edges|
    ensures t.down == r.down && forall c :: t.height(c) <= |edges|
  {
    Rooting(r.down, c => if IsTop(edges, r, c) then |edges|
                         else Height(Directed(edges, r), Steep(edges, r), c, |edges|))
  }

  ghost predicate HangsAt(edges: seq<Edge>, t: Rooting, i: nat)
    requires i < |edges| == |t.down|
  {
    Falls(edges, t, i) || (IsTwin(edges, t, i) && t.height(Child(edges, t, i)) == t.height(Parent(edges, t, i)))
  }

  lemma RuleHangs(edges: seq<Edge>, r: Rooting, i: nat)
    requires |r.down| == |edges| && Oriented(edges, r) && i < |edges| && !IsLoop(edges[i])
    requires ChainsEnd(Directed(edges, r), Steep(edges, r), |edges|)
    ensures HangsAt(edges, HangingFrom(edges, r), i)
  {
    hide IsTop, Height, ChainsEnd, Oriented, IsLoop;
    var t := HangingFrom(edges, r);
    if IsTwin(edges, r, i) {
      TwinEndsAreTops(edges, r, i);
      SameTwins(edges, r, t, i);
    } else {
      hide IsTwin;
      RuleDropsHeight(Directed(edges, r), Steep(edges, r), |edges|, i);
      if IsTop(edges, r, Child(edges, r, i)) {
        FarEndOfTwin(edges, r, i);
      }
    }
  }

  /** Where rules close no ring, far ends that are all different make trees. */
  lemma OrientedHangs(edges: seq<Edge>, r: Rooting)
    requires |r.down| == |edges| && Oriented(edges, r) && Acyclic(edges)
    ensures Hung(edges, HangingFrom(edges, r), |edges|)
  {
    ChainsAreShort(edges, r);
    forall i | 0 <= i < |edges| && !IsLoop(edges[i]) ensures HangsAt(edges, HangingFrom(edges, r), i) {
      RuleHangs(edges, r, i);
    }
    hide Acyclic, ChainsEnd, HangsAt, Oriented, HangingFrom;
    SameOrientation(edges, r, HangingFrom(edges, r));
    HungByTwins(edges, HangingFrom(edges, r), |edges|);
  }

  lemma SameOrientation(edges: seq<Edge>, r: Rooting, t: Rooting)
    requires |r.down| == |edges| && Oriented(edges, r) && t.down == r.down
    ensures Oriented(edges, t)
  {
  }

  lemma HungByTwins(edges: seq<Edge>, t: Rooting, H: nat)
    requires |t.down| == |edges| && Oriented(edges, t) && forall c :: t.height(c) <= H
    requires forall i | 0 <= i < |edges| && !IsLoop(edges[i]) :: HangsAt(edges, t, i)
    ensures Hung(edges, t, H)
  {
  }

  lemma SameTwins(edges: seq<Edge>, r: Rooting, t: Rooting, i: nat)
    requires |r.down| == |edges| && t.down == r.down && i < |edges| && IsTwin(edges, r, i)
    ensures IsTwin(edges, t, i)
  {
    var j :| 0 <= j < |edges| && Twins(edges, r, i, j);
    assert Twins(edges, t, i, j);
  }
}
