/** Mappings as one configures them: every destination written by one rule only
    and no rules feeding back. `H` is the longest chain of rules. */
module Forests {
  import opened Cells
  import opened Mapping
  import opened MappingGraph
  import opened Heights
  import Convergence

  ghost predicate UniqueDestinations(edges: seq<Edge>) {
    forall i, j | 0 <= i < j < |edges| :: edges[i].dst != edges[j].dst
  }

  ghost predicate Forest(edges: seq<Edge>, H: nat) {
    UniqueDestinations(edges) && forall p | IsChain(edges, p) :: |p| <= H
  }

  /** Sources of sources come first. */
  ghost predicate SourceFirst(edges: seq<Edge>) {
    forall i, j | 0 <= i < j < |edges| :: edges[i].src != edges[j].dst
  }

  /** The longest chain from `c`, `H` being the longest of all. */
  ghost function HeightOf(edges: seq<Edge>, H: nat, c: Cell): nat {
    Height(edges, Below(|edges|), c, H)
  }

  ghost function RootingOf(edges: seq<Edge>, H: nat): Rooting {
    Rooting(seq(|edges|, i => true), c => HeightOf(edges, H, c))
  }

  lemma ForestIsRooted(edges: seq<Edge>, H: nat)
    requires Forest(edges, H)
    ensures Rooted(edges, RootingOf(edges, H), H)
    ensures SourceFirst(edges) ==> ParentFirst(edges, RootingOf(edges, H))
  {
    var r := RootingOf(edges, H);
    forall i | 0 <= i < |edges|
      ensures Child(edges, r, i) == edges[i].dst && Parent(edges, r, i) == edges[i].src
      ensures Falls(edges, r, i) && r.height(Parent(edges, r, i)) <= H
    {
      hide Height, IsChain;
      RuleDropsHeight(edges, Below(|edges|), H, i);
    }
    hide HeightOf, IsChain, RootingOf, Falls;
  }

  /** From any state a forest is settled after `2 * H` passes, and nothing moves
      afterwards. */
  lemma ForestSettles(edges: seq<Edge>, H: nat, e: Engine, n: nat)
    requires Forest(edges, H) && Sound(edges, e) && 2 * H <= n
    ensures Settled(Passes(e, 2 * H)) && Passes(e, n) == Passes(e, 2 * H)
  {
    hide Pass, SameShape, Sound, Settled, Forest;
    ForestIsRooted(edges, H);
    hide Rooted;
    Convergence.TreesSettle(edges, RootingOf(edges, H), H, e);
    SettledStays(Passes(e, 2 * H), n - 2 * H);
    PassesAdd(e, 2 * H, n - 2 * H);
  }

  /** Listed sources first, `H + 1` passes are enough. */
  lemma SourceFirstForestSettles(edges: seq<Edge>, H: nat, e: Engine, n: nat)
    requires Forest(edges, H) && SourceFirst(edges) && Sound(edges, e) && H + 1 <= n
    ensures Settled(Passes(e, H + 1)) && Passes(e, n) == Passes(e, H + 1)
  {
    hide Pass, SameShape, Sound, Settled, Forest, SourceFirst;
    ForestIsRooted(edges, H);
    hide Rooted;
    Convergence.ParentFirstTreesSettle(edges, RootingOf(edges, H), H, e);
    SettledStays(Passes(e, H + 1), n - H - 1);
    PassesAdd(e, H + 1, n - H - 1);
  }

  /** At any rule of any pass after the first `n`, a rule whose destination
      starts no chain of `n` rules leaves its source alone. */
  lemma LowRulesNeverWriteTheirSource(edges: seq<Edge>, H: nat, e: Engine, n: nat, k: nat)
    requires Forest(edges, H) && Sound(edges, e) && k < |edges|
    requires HeightOf(edges, H, edges[k].dst) < n
    ensures var p := Prefix(Passes(e, n), k); Step(p, k).mem[edges[k].src] == p.mem[edges[k].src]
  {
    hide Step, Prefix;
    ForestIsRooted(edges, H);
    Convergence.QuietRulesNeverWriteUpwards(edges, RootingOf(edges, H), H, e, n, k);
  }
}
