/** A change that sets out from one end of a rule spreads over the rules connected
    with it, each firing in its turn. Where it comes round to the rule's other end
    only after the rule has fired again, the list can be kept from settling,
    whatever other rings it closes. */
module SlowRules {
  import opened Cells
  import opened Mapping
  import opened MappingGraph
  import opened Flipping
  import opened Fronts
  import Settling

  datatype Moment = Moment(pass: nat, rule: nat)

  predicate Before(m: Moment, n: Moment) {
    m.pass < n.pass || (m.pass == n.pass && m.rule < n.rule)
  }

  /** The first firing of rule `r` after `m`. */
  function After(m: Moment, r: nat): Moment {
    Moment(m.pass + if r <= m.rule then 1 else 0, r)
  }

  /** The cells a change has come to, and when. */
  type Front = map<Cell, Moment>

  /** Rule `k` fires in pass `p`. */
  function Ignite(edges: seq<Edge>, z: nat, f: Front, p: nat, k: nat): Front
    requires k < |edges|
  {
    var s, d := edges[k].src, edges[k].dst;
    if k == z || (s in f) == (d in f) then f
    else if s in f then f[d := Moment(p, k)]
    else f[s := Moment(p, k)]
  }

  /** How far a change has got that came to `b` when rule `z` fired in pass 0, and
      that rule `z` does not carry any further, when pass `p` has come to rule `k`. */
  function Spread(edges: seq<Edge>, z: nat, b: Cell, p: nat, k: nat): Front
    requires z < |edges| && k <= |edges|
    decreases p, k
  {
    if p == 0 && k <= z + 1 then map[b := Moment(0, z)]
    else if k == 0 then Spread(edges, z, b, p - 1, |edges|)
    else Ignite(edges, z, Spread(edges, z, b, p, k - 1), p, k - 1)
  }

  /** The change came to `x` from the other end of a rule, when that rule fired
      next. */
  predicate Lit(edges: seq<Edge>, z: nat, f: Front, x: Cell)
    requires x in f
  {
    var r := f[x].rule;
    && r < |edges| && r != z && Touches(edges[r], x)
    && Other(edges[r], x) in f && f[x] == After(f[Other(edges[r], x)], r)
  }

  /** When rule `r` has fired after the change came to `y`, it has come to the
      other end as well. */
  predicate Carried(edges: seq<Edge>, f: Front, r: nat, y: Cell)
    requires r < |edges| && y in f
  {
    Other(edges[r], y) in f && !Before(After(f[y], r), f[Other(edges[r], y)])
  }

  ghost predicate Sensible(edges: seq<Edge>, z: nat, b: Cell, f: Front, now: Moment) {
    && b in f && f[b] == Moment(0, z)
    && (forall x | x in f :: Before(f[x], now))
    && (forall x | x in f && x != b :: Lit(edges, z, f, x))
    && forall r, y | 0 <= r < |edges| && r != z && y in f && Touches(edges[r], y) && Before(After(f[y], r), now) ::
         Carried(edges, f, r, y)
  }

  /** An end that has just been reached was not reached before in time. */
  lemma FirstAfter(f: Moment, p: nat, k: nat)
    requires Before(f, Moment(p, k))
    ensures After(f, k) == Moment(p, k) || Before(After(f, k), Moment(p, k))
  {
  }

  lemma IgniteLights(edges: seq<Edge>, z: nat, b: Cell, f: Front, p: nat, k: nat, x: Cell)
    requires Sensible(edges, z, b, f, Moment(p, k)) && k < |edges| && x in Ignite(edges, z, f, p, k) && x != b
    ensures Lit(edges, z, Ignite(edges, z, f, p, k), x)
  {
    if x in f {
      assert Lit(edges, z, f, x);
    } else {
      var y := Other(edges[k], x);
      assert Touches(edges[k], y) && Other(edges[k], y) == x;
      FirstAfter(f[y], p, k);
      assert !Carried(edges, f, k, y);
    }
  }

  lemma IgniteCarries(edges: seq<Edge>, z: nat, b: Cell, f: Front, p: nat, k: nat, r: nat, y: Cell)
    requires Sensible(edges, z, b, f, Moment(p, k)) && k < |edges|
    requires r < |edges| && r != z && y in Ignite(edges, z, f, p, k) && Touches(edges[r], y)
    requires Before(After(Ignite(edges, z, f, p, k)[y], r), Moment(p, k + 1))
    ensures Carried(edges, Ignite(edges, z, f, p, k), r, y)
  {
    hide Lit;
    var g := Ignite(edges, z, f, p, k);
    assert y in f;
    if Before(After(g[y], r), Moment(p, k)) {
      assert Carried(edges, f, r, y);
    } else {
      assert r == k;
    }
  }

  lemma IgniteStaysSensible(edges: seq<Edge>, z: nat, b: Cell, f: Front, p: nat, k: nat)
    requires Sensible(edges, z, b, f, Moment(p, k)) && k < |edges|
    ensures Sensible(edges, z, b, Ignite(edges, z, f, p, k), Moment(p, k + 1))
  {
    hide Lit, Carried, After;
    var g, now := Ignite(edges, z, f, p, k), Moment(p, k + 1);
    forall x | x in g && x != b ensures Lit(edges, z, g, x) {
      IgniteLights(edges, z, b, f, p, k, x);
    }
    forall r, y | 0 <= r < |edges| && r != z && y in g && Touches(edges[r], y) && Before(After(g[y], r), now)
      ensures Carried(edges, g, r, y)
    {
      IgniteCarries(edges, z, b, f, p, k, r, y);
    }
  }

  lemma PassStaysSensible(edges: seq<Edge>, z: nat, b: Cell, f: Front, p: nat)
    requires Sensible(edges, z, b, f, Moment(p, |edges|))
    ensures Sensible(edges, z, b, f, Moment(p + 1, 0))
  {
    hide Lit, Carried;
  }

  lemma SpreadStarts(edges: seq<Edge>, z: nat, b: Cell)
    requires z < |edges|
    ensures Sensible(edges, z, b, map[b := Moment(0, z)], Moment(0, z + 1))
  {
  }

  lemma {:induction false} SpreadIsSensible(edges: seq<Edge>, z: nat, b: Cell, p: nat, k: nat)
    requires z < |edges| && k <= |edges| && (p > 0 || z < k)
    ensures Sensible(edges, z, b, Spread(edges, z, b, p, k), Moment(p, k))
    decreases p, k
  {
    hide Sensible, Ignite;
    if p == 0 && k == z + 1 {
      SpreadStarts(edges, z, b);
    } else if k == 0 {
      SpreadIsSensible(edges, z, b, p - 1, |edges|);
      PassStaysSensible(edges, z, b, Spread(edges, z, b, p - 1, |edges|), p - 1);
    } else {
      SpreadIsSensible(edges, z, b, p, k - 1);
      IgniteStaysSensible(edges, z, b, Spread(edges, z, b, p, k - 1), p, k - 1);
    }
  }

  /** What has been reached stays so, and what is reached later bears a later
      moment. */
  lemma {:induction false} SpreadGrows(edges: seq<Edge>, z: nat, b: Cell, q: nat, j: nat, p: nat, k: nat, x: Cell)
    requires z < |edges| && j <= |edges| && k <= |edges| && (q < p || (q == p && j <= k))
    ensures x in Spread(edges, z, b, q, j) ==> x in Spread(edges, z, b, p, k)
    ensures x in Spread(edges, z, b, p, k) && x !in Spread(edges, z, b, q, j) ==>
              !Before(Spread(edges, z, b, p, k)[x], Moment(q, j))
    decreases p, k
  {
    if (p == q && j == k) || (p == 0 && k <= z + 1) {
    } else if k == 0 {
      SpreadGrows(edges, z, b, q, j, p - 1, |edges|, x);
    } else {
      SpreadGrows(edges, z, b, q, j, p, k - 1, x);
    }
  }

  // In the end the change has come everywhere.

  ghost predicate Full(edges: seq<Edge>, z: nat, f: Front) {
    forall r | 0 <= r < |edges| && r != z :: edges[r].src in f <==> edges[r].dst in f
  }

  lemma {:induction false} FullStays(edges: seq<Edge>, z: nat, b: Cell, p: nat, k: nat)
    requires z < |edges| && k <= |edges| && 0 < p && Full(edges, z, Spread(edges, z, b, p, 0))
    ensures Spread(edges, z, b, p, k) == Spread(edges, z, b, p, 0)
  {
    if k > 0 {
      FullStays(edges, z, b, p, k - 1);
    }
  }

  /** A front that has come to rest. */
  ghost predicate Complete(edges: seq<Edge>, z: nat, b: Cell, f: Front, q: nat) {
    && b in f && f[b] == Moment(0, z)
    && (forall x | x in f :: f[x].pass < q)
    && (forall x | x in f && x != b :: Lit(edges, z, f, x))
    && forall r, y | 0 <= r < |edges| && r != z && y in f && Touches(edges[r], y) :: Carried(edges, f, r, y)
  }

  lemma FullIsComplete(edges: seq<Edge>, z: nat, b: Cell, q: nat)
    requires z < |edges| && 0 < q && Full(edges, z, Spread(edges, z, b, q, 0))
    ensures Complete(edges, z, b, Spread(edges, z, b, q, 0), q)
  {
    hide Full, Lit, Carried;
    SpreadIsSensible(edges, z, b, q, 0);
    SpreadIsSensible(edges, z, b, q, |edges|);
    FullStays(edges, z, b, q, |edges|);
    PassStaysSensible(edges, z, b, Spread(edges, z, b, q, 0), q);
    hide Spread;
  }

  ghost function Reachable(edges: seq<Edge>, b: Cell): set<Cell> {
    Ends(edges) + {b}
  }

  lemma SpreadIsBounded(edges: seq<Edge>, z: nat, b: Cell, p: nat)
    requires z < |edges| && 0 < p
    ensures Spread(edges, z, b, p, 0).Keys <= Reachable(edges, b)
  {
    var f := Spread(edges, z, b, p, 0);
    hide Spread;
    SpreadIsSensible(edges, z, b, p, 0);
    forall x | x in f.Keys && x != b ensures x in Ends(edges) {
      assert Lit(edges, z, f, x) && edges[f[x].rule] in edges;
    }
  }

  /** While a rule joins a cell reached with one not reached, a pass reaches more. */
  lemma PassReachesMore(edges: seq<Edge>, z: nat, b: Cell, p: nat)
    requires z < |edges| && 0 < p && !Full(edges, z, Spread(edges, z, b, p, 0))
    ensures Spread(edges, z, b, p, 0).Keys < Spread(edges, z, b, p + 1, 0).Keys
  {
    hide Spread, Lit;
    var f, g := Spread(edges, z, b, p, 0), Spread(edges, z, b, p + 1, 0);
    SpreadIsSensible(edges, z, b, p, 0);
    SpreadIsSensible(edges, z, b, p + 1, 0);
    forall x | x in f ensures x in g && g[x] == f[x] {
      SpreadKeeps(edges, z, b, p, |edges|, x);
    }
    var r :| 0 <= r < |edges| && r != z && (edges[r].src in f) != (edges[r].dst in f);
    var y := if edges[r].src in f then edges[r].src else edges[r].dst;
    assert Before(After(g[y], r), Moment(p + 1, 0));
    assert Carried(edges, g, r, y);
  }

  lemma {:induction false} SpreadKeeps(edges: seq<Edge>, z: nat, b: Cell, p: nat, k: nat, x: Cell)
    requires z < |edges| && k <= |edges| && 0 < p && x in Spread(edges, z, b, p, 0)
    ensures var f := Spread(edges, z, b, if k == |edges| then p + 1 else p, if k == |edges| then 0 else k);
            x in f && f[x] == Spread(edges, z, b, p, 0)[x]
    ensures var f := Spread(edges, z, b, p, k); x in f && f[x] == Spread(edges, z, b, p, 0)[x]
  {
    if k > 0 {
      SpreadKeeps(edges, z, b, p, k - 1, x);
    }
  }

  lemma {:induction false} Completes(edges: seq<Edge>, z: nat, b: Cell, p: nat) returns (q: nat)
    requires z < |edges| && 0 < p
    ensures p <= q && Complete(edges, z, b, Spread(edges, z, b, q, 0), q)
    decreases |Reachable(edges, b) - Spread(edges, z, b, p, 0).Keys|
  {
    hide Spread, Complete, Full, Reachable;
    if Full(edges, z, Spread(edges, z, b, p, 0)) {
      q := p;
      FullIsComplete(edges, z, b, q);
    } else {
      PassReachesMore(edges, z, b, p);
      SpreadIsBounded(edges, z, b, p + 1);
      Fewer(Reachable(edges, b), Spread(edges, z, b, p, 0).Keys, Spread(edges, z, b, p + 1, 0).Keys);
      q := Completes(edges, z, b, p + 1);
    }
  }

  lemma Fewer(all: set<Cell>, s: set<Cell>, t: set<Cell>)
    requires s < t <= all
    ensures |all - t| < |all - s|
  {
    assert all - s == (all - t) + (t - s);
    assert t - s != {};
  }

  // The schedule.

  /** The pass in which rule `r` hands the change on. */
  function PassOf(edges: seq<Edge>, z: nat, b: Cell, f: Front, r: nat, x: Cell): nat
    requires x in f
  {
    if x != b && f[x].rule == r then f[x].pass else After(f[x], r).pass
  }

  /** Both ends say the same. */
  lemma EndsAgree(edges: seq<Edge>, z: nat, b: Cell, f: Front, q: nat, r: nat)
    requires Complete(edges, z, b, f, q) && r < |edges| && r != z && edges[r].src in f
    ensures edges[r].dst in f
    ensures PassOf(edges, z, b, f, r, edges[r].src) == PassOf(edges, z, b, f, r, edges[r].dst)
    ensures edges[r].src != b && edges[r].dst != b ==> f[edges[r].src].rule != r || f[edges[r].dst].rule != r
  {
    var s, d := edges[r].src, edges[r].dst;
    assert Touches(edges[r], s) && Touches(edges[r], d);
    assert Carried(edges, f, r, s);
    assert Carried(edges, f, r, d);
    assert s != b ==> Lit(edges, z, f, s);
    assert d != b ==> Lit(edges, z, f, d);
  }

  ghost function ScheduleOf(edges: seq<Edge>, z: nat, a: Cell, b: Cell, f: Front, q: nat): (p: Schedule)
    requires a in f && forall x | x in f :: f[x].pass < q
  {
    Schedule(After(f[a], z).pass,
             seq(|edges|, r requires 0 <= r < |edges| =>
               if r == z || edges[r].src !in f then q else q - PassOf(edges, z, b, f, r, edges[r].src)),
             map x | x in f :: f[x].rule)
  }

  lemma CarriersFit(edges: seq<Edge>, z: nat, a: Cell, b: Cell, f: Front, q: nat, r: nat)
    requires Complete(edges, z, b, f, q) && z < |edges| && Joins(edges[z], a, b) && a != b && a in f
    requires r < |edges| && r != z && edges[r].src in f
    ensures Fitting(edges, ScheduleOf(edges, z, a, b, f, q), r)
  {
    var p := ScheduleOf(edges, z, a, b, f, q);
    EndsAgree(edges, z, b, f, q, r);
    BaseTimes(edges, z, a, b, f, q, edges[r].src);
    BaseTimes(edges, z, a, b, f, q, edges[r].dst);
    hide Complete, ScheduleOf;
  }

  /** The lead of the rule through which the change came to `x`. */
  lemma BaseTimes(edges: seq<Edge>, z: nat, a: Cell, b: Cell, f: Front, q: nat, x: Cell)
    requires Complete(edges, z, b, f, q) && z < |edges| && Joins(edges[z], a, b) && a in f && x in f
    ensures var p, e := ScheduleOf(edges, z, a, b, f, q), f[x].rule;
            && e < |edges| && Touches(edges[e], x) && p.lead[e] + f[x].pass == q && (e == z <==> x == b)
  {
    if x != b {
      assert Lit(edges, z, f, x);
      var e := f[x].rule;
      assert edges[e].src in f;
      EndsAgree(edges, z, b, f, q, e);
    }
  }

  lemma SlowRuleFits(edges: seq<Edge>, z: nat, a: Cell, b: Cell, f: Front, q: nat)
    requires Complete(edges, z, b, f, q) && z < |edges| && Joins(edges[z], a, b) && a != b && a in f
    ensures Fitting(edges, ScheduleOf(edges, z, a, b, f, q), z)
  {
    var p := ScheduleOf(edges, z, a, b, f, q);
    BaseTimes(edges, z, a, b, f, q, a);
    BaseTimes(edges, z, a, b, f, q, b);
    assert p.lead[z] == q && p.period == After(f[a], z).pass;
    hide Complete, ScheduleOf;
  }

  ghost function Reached(edges: seq<Edge>, f: Front): set<nat> {
    set r: nat | r < |edges| && edges[r].src in f
  }

  lemma ReachedIsClosed(edges: seq<Edge>, z: nat, a: Cell, b: Cell, f: Front, q: nat)
    requires Complete(edges, z, b, f, q) && z < |edges| && Joins(edges[z], a, b) && a in f
    ensures Closed(edges, Reached(edges, f))
  {
    hide Lit;
    forall r | 0 <= r < |edges| ensures edges[r].src in f <==> edges[r].dst in f {
      if r != z {
        assert Touches(edges[r], edges[r].src) && Touches(edges[r], edges[r].dst);
        if edges[r].src in f {
          assert Carried(edges, f, r, edges[r].src);
        }
        if edges[r].dst in f {
          assert Carried(edges, f, r, edges[r].dst);
        }
      }
    }
  }

  lemma FrontIsSchedule(edges: seq<Edge>, z: nat, a: Cell, b: Cell, f: Front, q: nat)
    requires Complete(edges, z, b, f, q) && z < |edges| && Joins(edges[z], a, b) && a != b && a in f
    requires 2 <= After(f[a], z).pass
    ensures Scheduled(edges, Reached(edges, f), ScheduleOf(edges, z, a, b, f, q)) && z in Reached(edges, f)
  {
    ReachedIsClosed(edges, z, a, b, f, q);
    hide Closed, Fitting;
    forall r | r in Reached(edges, f) ensures r < |edges| && Fitting(edges, ScheduleOf(edges, z, a, b, f, q), r) {
      if r == z {
        SlowRuleFits(edges, z, a, b, f, q);
      } else {
        CarriersFit(edges, z, a, b, f, q, r);
      }
    }
  }

  /** A change that came to `b` through rule `z` gets round to the rule's other end
      without it, but only after the rule has fired again. */
  ghost predicate Slow(edges: seq<Edge>, z: nat, a: Cell, b: Cell)
    requires z < |edges|
  {
    && Joins(edges[z], a, b) && a != b
    && a !in Spread(edges, z, b, 1, z)
    && exists p: nat :: a in Spread(edges, z, b, p, 0)
  }

  /** A list with a slow rule does not always settle, whatever its other rules. */
  lemma SlowRuleUnsettles(edges: seq<Edge>, z: nat, a: Cell, b: Cell)
    requires z < |edges| && Slow(edges, z, a, b) && Settling.EqualWidths(edges)
    ensures !Settling.AlwaysSettles(edges)
  {
    hide Spread, Complete, Scheduled, ScheduleOf, Settling.AlwaysSettles;
    var p: nat :| a in Spread(edges, z, b, p, 0);
    var q := Completes(edges, z, b, p + 2);
    SpreadGrows(edges, z, b, p, 0, q, 0, a);
    SpreadGrows(edges, z, b, 1, z, q, 0, a);
    var f := Spread(edges, z, b, q, 0);
    CompleteIsTimed(edges, z, b, f, q);
    assert f[a].rule != z by { AwayFromStart(edges, z, a, b, f, q); }
    FrontIsSchedule(edges, z, a, b, f, q);
    ScheduledUnsettles(edges, Reached(edges, f), ScheduleOf(edges, z, a, b, f, q), z);
  }

  lemma CompleteIsTimed(edges: seq<Edge>, z: nat, b: Cell, f: Front, q: nat)
    requires Complete(edges, z, b, f, q)
    ensures forall x | x in f :: f[x].pass < q
  {
  }

  lemma AwayFromStart(edges: seq<Edge>, z: nat, a: Cell, b: Cell, f: Front, q: nat)
    requires Complete(edges, z, b, f, q) && a in f && a != b
    ensures f[a].rule != z
  {
    assert Lit(edges, z, f, a);
  }
}
