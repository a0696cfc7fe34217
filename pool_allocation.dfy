/** The greedy allocation of a pool (backend/src/core/application/services/PoolAllocation.service.ts):
    surplus ships, largest first, cover the deficit ships one after another. */
module PoolAllocation {
  import opened Pools
  import opened PoolSorting
  import Wrappers

  /** A surplus member gives away part of its balance but, when it gives anything,
      never goes below zero. */
  predicate SurplusBound(before: PoolMember, after: PoolMember)
  {
    after.cbAfter <= before.cbAfter && (after.cbAfter == before.cbAfter || after.cbAfter >= 0.0)
  }

  /** A deficit member receives at most what its deficit needs. */
  predicate DeficitBound(before: PoolMember, after: PoolMember)
  {
    before.cbAfter <= after.cbAfter <= before.cbAfter - before.cbBefore
  }

  /** Largest surplus first: a surplus member in `[0, p)` gives something only once every
      surplus member before it has nothing left. */
  predicate GreedyOrder(before: seq<PoolMember>, after: seq<PoolMember>, p: nat)
    requires p <= |before| && p <= |after|
  {
    forall i, j :: 0 <= j < i < p && after[i].cbAfter < before[i].cbAfter ==> after[j].cbAfter <= 0.0
  }

  /** Every member enters with its balance after pooling equal to its balance before. */
  predicate Balanced(s: seq<PoolMember>)
  {
    forall i :: 0 <= i < |s| ==> s[i].cbAfter == s[i].cbBefore
  }

  /** One transfer of the inner loop: `amount` moves from surplus member `a[s]` to deficit
      member `a[d]`. */
  method Transfer(a: array<PoolMember>, s: nat, d: nat, p: nat, amount: real)
    requires s < p <= d < a.Length
    modifies a
    ensures forall i :: 0 <= i < a.Length && i != s && i != d ==> a[i] == old(a[i])
    ensures a[s] == old(a[s]).(cbAfter := old(a[s].cbAfter) - amount)
    ensures a[d] == old(a[d]).(cbAfter := old(a[d].cbAfter) + amount)
    ensures SumAfter(a[..]) == old(SumAfter(a[..]))
    ensures SumAfter(a[..p]) + a[d].cbAfter == old(SumAfter(a[..p]) + a[d].cbAfter)
  {
    ghost var all0, prefix0 := a[..], a[..p];
    var giver := a[s].(cbAfter := a[s].cbAfter - amount);
    a[s] := giver;
    assert a[..] == all0[s := giver];
    assert a[..p] == prefix0[s := giver];
    SumAfterUpdate(all0, s, giver);
    SumAfterUpdate(prefix0, s, giver);
    ghost var all1 := a[..];
    var taker := a[d].(cbAfter := a[d].cbAfter + amount);
    a[d] := taker;
    assert a[..] == all1[d := taker];
    assert a[..p] == prefix0[s := giver];
    SumAfterUpdate(all1, d, taker);
  }

  /** What one run of the inner loop does to the members, from `before` to `after`:
      only the surplus block `[0, p)` and the deficit member `d` change, within their bounds;
      the sums are kept; the deficit is covered unless the surplus block ran dry; and the
      surplus members give in order. */
  predicate CoverStep(before: seq<PoolMember>, after: seq<PoolMember>, p: nat, d: nat)
    requires p <= d < |before| == |after|
  {
    && (forall i :: p <= i < |before| && i != d ==> after[i] == before[i])
    && (forall i :: 0 <= i < |before| ==> after[i].shipId == before[i].shipId && after[i].cbBefore == before[i].cbBefore)
    && (forall i :: 0 <= i < p ==> SurplusBound(before[i], after[i]))
    && DeficitBound(before[d], after[d])
    && SumAfter(after[..p]) + after[d].cbAfter == SumAfter(before[..p]) + before[d].cbAfter
    && SumAfter(after) == SumAfter(before)
    && (after[d].cbAfter < before[d].cbAfter - before[d].cbBefore ==> forall i :: 0 <= i < p ==> after[i].cbAfter <= 0.0)
    && (forall i, j :: 0 <= j < i < p && after[i].cbAfter < before[i].cbAfter ==> after[j].cbAfter <= 0.0)
  }

  /** The inner loop's state once the surplus members `[0, s)` have had their turn and
      `remaining` of the deficit of member `d` is still uncovered. */
  predicate Covering(init: seq<PoolMember>, cur: seq<PoolMember>, p: nat, d: nat, s: nat, remaining: real)
    requires s <= p <= d < |init| == |cur|
  {
    && 0.0 <= remaining <= -init[d].cbBefore
    && cur[d].cbAfter + remaining == init[d].cbAfter - init[d].cbBefore
    && (forall i :: p <= i < |init| && i != d ==> cur[i] == init[i])
    && (forall i :: 0 <= i < |init| ==> cur[i].shipId == init[i].shipId && cur[i].cbBefore == init[i].cbBefore)
    && (forall i :: 0 <= i < p ==> SurplusBound(init[i], cur[i]))
    && (forall i :: s <= i < p ==> cur[i] == init[i])
    && SumAfter(cur[..p]) + cur[d].cbAfter == SumAfter(init[..p]) + init[d].cbAfter
    && SumAfter(cur) == SumAfter(init)
    && (remaining > 0.0 ==> forall i :: 0 <= i < s ==> cur[i].cbAfter <= 0.0)
    && (forall i, j :: 0 <= j < i < s && cur[i].cbAfter < init[i].cbAfter ==> cur[j].cbAfter <= 0.0)
  }

  /** Surplus member `s` gives `amount` (all it has, or all that is still needed) to `d`. */
  lemma CoveringStep(init: seq<PoolMember>, before: seq<PoolMember>, after: seq<PoolMember>,
                     p: nat, d: nat, s: nat, remaining: real, amount: real)
    requires s < p <= d < |init| == |before| == |after|
    requires Covering(init, before, p, d, s, remaining)
    requires remaining > 0.0 && before[s].cbAfter > 0.0
    requires amount == if before[s].cbAfter < remaining then before[s].cbAfter else remaining
    requires forall i :: 0 <= i < |after| && i != s && i != d ==> after[i] == before[i]
    requires after[s] == before[s].(cbAfter := before[s].cbAfter - amount)
    requires after[d] == before[d].(cbAfter := before[d].cbAfter + amount)
    requires SumAfter(after) == SumAfter(before)
    requires SumAfter(after[..p]) + after[d].cbAfter == SumAfter(before[..p]) + before[d].cbAfter
    ensures Covering(init, after, p, d, s + 1, remaining - amount)
  {
    assert before[s] == init[s];
    forall i, j | 0 <= j < i < s + 1 && after[i].cbAfter < init[i].cbAfter
      ensures after[j].cbAfter <= 0.0
    {
      if i < s {
        assert before[i].cbAfter < init[i].cbAfter;
      } else {
        assert before[j].cbAfter <= 0.0;
      }
    }
  }

  /** Surplus member `s` has nothing to give (or nothing is needed): only `s` moves on. */
  lemma CoveringSkip(init: seq<PoolMember>, cur: seq<PoolMember>, p: nat, d: nat, s: nat, remaining: real)
    requires s < p <= d < |init| == |cur|
    requires Covering(init, cur, p, d, s, remaining)
    requires cur[s].cbAfter <= 0.0
    ensures Covering(init, cur, p, d, s + 1, remaining)
  {
  }

  /** When the surplus block is exhausted or the deficit is covered, the inner loop has
      made one `CoverStep`. */
  lemma CoveringDone(init: seq<PoolMember>, cur: seq<PoolMember>, p: nat, d: nat, s: nat, remaining: real)
    requires s <= p <= d < |init| == |cur|
    requires Covering(init, cur, p, d, s, remaining)
    requires s == p || remaining <= 0.0
    ensures CoverStep(init, cur, p, d)
  {
  }

  /** The inner loop: surplus members `a[0..p)`, in order, give to deficit member `a[d]`
      until its deficit is covered or the surplus members run dry. */
  method CoverDeficit(a: array<PoolMember>, p: nat, d: nat)
    requires p <= d < a.Length
    requires a[d].cbBefore < 0.0
    modifies a
    ensures CoverStep(old(a[..]), a[..], p, d)
  {
    ghost var init := a[..];
    var remaining := -a[d].cbBefore;
    var s := 0;
    while s < p
      invariant 0 <= s <= p
      invariant a.Length == |init|
      invariant Covering(init, a[..], p, d, s, remaining)
    {
      if remaining <= 0.0 {
        break;
      }
      ghost var before := a[..];
      if a[s].cbAfter > 0.0 {
        var transfer := if a[s].cbAfter < remaining then a[s].cbAfter else remaining;
        Transfer(a, s, d, p, transfer);
        CoveringStep(init, before, a[..], p, d, s, remaining, transfer);
        remaining := remaining - transfer;
      } else {
        CoveringSkip(init, before, p, d, s, remaining);
      }
      s := s + 1;
    }
    CoveringDone(init, a[..], p, d, s, remaining);
  }

  /** Sorting the cloned members in place, as the runtime's stable sort does; the sort is
      modelled by its result, `SortByCbDesc`. */
  method SortMembers(a: array<PoolMember>)
    modifies a
    ensures a[..] == SortByCbDesc(old(a[..]))
  {
    var sorted := SortByCbDesc(a[..]);
    forall i | 0 <= i < a.Length {
      a[i] := sorted[i];
    }
  }

  /** The before-balances of the surplus block plus those of the deficit members handled so
      far are at least the whole pool's before-sum: the zero block adds nothing and the
      deficit members still to come only take away. */
  lemma {:induction false} AvailableCoversPool(s: seq<PoolMember>, p: nat, q: nat, d: nat)
    requires p <= q <= d <= |s|
    requires forall i :: p <= i < q ==> s[i].cbBefore == 0.0
    requires forall i :: d <= i < |s| ==> s[i].cbBefore < 0.0
    ensures SumBefore(s[..p]) + SumBefore(s[q..d]) >= SumBefore(s)
  {
    assert s == s[..p] + s[p..q] + s[q..d] + s[d..];
    SumBeforeConcat(s[..p] + s[p..q] + s[q..d], s[d..]);
    SumBeforeConcat(s[..p] + s[p..q], s[q..d]);
    SumBeforeConcat(s[..p], s[p..q]);
    SumBeforeZero(s[p..q]);
    SumBeforeNonPositive(s[d..]);
  }

  lemma SumBeforeExtend(s: seq<PoolMember>, q: nat, d: nat)
    requires q <= d < |s|
    ensures SumBefore(s[q..d + 1]) == SumBefore(s[q..d]) + s[d].cbBefore
  {
    assert s[q..d + 1] == s[q..d] + [s[d]];
    SumBeforeConcat(s[q..d], [s[d]]);
  }

  /** The two filters of the source, `cbBefore > 0` and `cbBefore < 0`, on the SORTED array:
      the surplus members are the prefix `[0, p)`, the deficit members the suffix `[q, n)`,
      and the members in between have a zero balance. */
  method FindBlocks(a: array<PoolMember>) returns (p: nat, q: nat)
    requires SortedByCbDesc(a[..])
    ensures p <= q <= a.Length
    ensures forall i :: 0 <= i < a.Length ==> (i < p <==> a[i].cbBefore > 0.0)
    ensures forall i :: 0 <= i < a.Length ==> (q <= i <==> a[i].cbBefore < 0.0)
  {
    p := 0;
    while p < a.Length && a[p].cbBefore > 0.0
      invariant 0 <= p <= a.Length
      invariant forall i :: 0 <= i < p ==> a[i].cbBefore > 0.0
    {
      p := p + 1;
    }
    q := p;
    while q < a.Length && a[q].cbBefore == 0.0
      invariant p <= q <= a.Length
      invariant forall i :: p <= i < q ==> a[i].cbBefore == 0.0
    {
      q := q + 1;
    }
    assert forall i :: p <= i < a.Length ==> a[p].cbBefore >= a[i].cbBefore;
    assert forall i :: q <= i < a.Length ==> a[q].cbBefore >= a[i].cbBefore;
  }

  /** The state of the outer loop once the deficit members `[q, d)` are handled, starting
      from the sorted members `s` with blocks `[0, p)`, `[p, q)` and `[q, |s|)`. */
  predicate Distributed(s: seq<PoolMember>, cur: seq<PoolMember>, p: nat, q: nat, d: nat)
    requires p <= q <= d <= |s| == |cur|
  {
    && DistributedShape(s, cur, p, q, d)
    && GreedyOrder(s, cur, p)
    && (Balanced(s) && SumBefore(s) >= 0.0 ==> DeficitsCleared(s, cur, p, q, d))
  }

  /** Only the surplus block and the handled deficit members have moved, each within its
      bound, and the sum after pooling is kept. */
  predicate DistributedShape(s: seq<PoolMember>, cur: seq<PoolMember>, p: nat, q: nat, d: nat)
    requires p <= q <= d <= |s| == |cur|
  {
    && (forall i :: 0 <= i < |s| ==> cur[i].shipId == s[i].shipId && cur[i].cbBefore == s[i].cbBefore)
    && (forall i :: p <= i < q ==> cur[i] == s[i])
    && (forall i :: d <= i < |s| ==> cur[i] == s[i])
    && (forall i :: 0 <= i < p ==> SurplusBound(s[i], cur[i]))
    && (forall i :: q <= i < d ==> DeficitBound(s[i], cur[i]))
    && SumAfter(cur) == SumAfter(s)
    && (p == 0 || q == |s| ==> cur == s)
  }

  /** In a balanced pool with a non-negative sum, every handled deficit member is at zero
      and the surplus block has given exactly their deficits. */
  predicate DeficitsCleared(s: seq<PoolMember>, cur: seq<PoolMember>, p: nat, q: nat, d: nat)
    requires p <= q <= d <= |s| == |cur|
  {
    && (forall i :: q <= i < d ==> cur[i].cbAfter == 0.0)
    && SumAfter(cur[..p]) == SumBefore(s[..p]) + SumBefore(s[q..d])
  }

  /** Before the outer loop nothing is distributed yet. */
  lemma DistributedInitially(s: seq<PoolMember>, p: nat, q: nat)
    requires p <= q <= |s|
    ensures Distributed(s, s, p, q, q)
  {
    assert s[q..q] == [];
    if Balanced(s) {
      SumAfterBalanced(s[..p]);
    }
  }

  /** One round of the outer loop moves from deficit member `d` to `d + 1`. */
  lemma DistributedStep(s: seq<PoolMember>, before: seq<PoolMember>, after: seq<PoolMember>, p: nat, q: nat, d: nat)
    requires p <= q <= d < |s| == |before| == |after|
    requires forall i :: p <= i < q ==> s[i].cbBefore == 0.0
    requires forall i :: q <= i < |s| ==> s[i].cbBefore < 0.0
    requires Distributed(s, before, p, q, d)
    requires CoverStep(before, after, p, d)
    ensures Distributed(s, after, p, q, d + 1)
  {
    ShapeStep(s, before, after, p, q, d);
    GreedyStep(s, before, after, p);
    if Balanced(s) && SumBefore(s) >= 0.0 {
      ClearedStep(s, before, after, p, q, d);
    }
  }

  lemma ShapeStep(s: seq<PoolMember>, before: seq<PoolMember>, after: seq<PoolMember>, p: nat, q: nat, d: nat)
    requires p <= q <= d < |s| == |before| == |after|
    requires forall i :: q <= i < |s| ==> s[i].cbBefore < 0.0
    requires DistributedShape(s, before, p, q, d)
    requires CoverStep(before, after, p, d)
    ensures DistributedShape(s, after, p, q, d + 1)
  {
    if p == 0 {
      assert after[..0] == [] && before[..0] == [];
      assert after == before;
    }
  }

  lemma ClearedStep(s: seq<PoolMember>, before: seq<PoolMember>, after: seq<PoolMember>, p: nat, q: nat, d: nat)
    requires p <= q <= d < |s| == |before| == |after|
    requires forall i :: p <= i < q ==> s[i].cbBefore == 0.0
    requires forall i :: q <= i < |s| ==> s[i].cbBefore < 0.0
    requires Balanced(s) && SumBefore(s) >= 0.0
    requires DistributedShape(s, before, p, q, d)
    requires DeficitsCleared(s, before, p, q, d)
    requires CoverStep(before, after, p, d)
    ensures DeficitsCleared(s, after, p, q, d + 1)
  {
    SumBeforeExtend(s, q, d);
    AvailableCoversPool(s, p, q, d + 1);
    if after[d].cbAfter < 0.0 {
      SumAfterNonPositive(after[..p]);
      assert false;
    }
  }

  /** The outer loop: each deficit member, in order, is covered from the surplus block. */
  method Distribute(a: array<PoolMember>, p: nat, q: nat)
    requires p <= q <= a.Length
    requires forall i :: p <= i < q ==> a[i].cbBefore == 0.0
    requires forall i :: q <= i < a.Length ==> a[i].cbBefore < 0.0
    modifies a
    ensures Distributed(old(a[..]), a[..], p, q, a.Length)
  {
    ghost var s := a[..];
    DistributedInitially(s, p, q);
    var d := q;
    while d < a.Length
      invariant q <= d <= a.Length
      invariant Distributed(s, a[..], p, q, d)
    {
      ghost var before := a[..];
      CoverDeficit(a, p, d);
      DistributedStep(s, before, a[..], p, q, d);
      d := d + 1;
    }
  }

  /** One more round of the inner loop keeps the surplus members in greedy order. */
  lemma GreedyStep(s: seq<PoolMember>, before: seq<PoolMember>, after: seq<PoolMember>, p: nat)
    requires p <= |s| && p <= |before| && p <= |after|
    requires GreedyOrder(s, before, p)
    requires forall i :: 0 <= i < p ==> SurplusBound(before[i], after[i])
    requires forall i, j :: 0 <= j < i < p && after[i].cbAfter < before[i].cbAfter ==> after[j].cbAfter <= 0.0
    ensures GreedyOrder(s, after, p)
  {
    forall i, j | 0 <= j < i < p && after[i].cbAfter < s[i].cbAfter ensures after[j].cbAfter <= 0.0 {
      if after[i].cbAfter >= before[i].cbAfter {
        assert before[j].cbAfter <= 0.0;
        assert SurplusBound(before[j], after[j]);
      }
    }
  }

  /** `allocate`: clone, sort by balance (largest first), then let the surplus members, in
      order, cover each deficit member in order. The result is in SORTED order. */
  method Allocate(members: seq<PoolMember>) returns (result: seq<PoolMember>)
    ensures AllocationOf(members, result)
  {
    var n := |members|;
    var a := new PoolMember[n](i requires 0 <= i < n => members[i]);
    assert a[..] == members;
    SortMembers(a);
    var p, q := FindBlocks(a);
    Distribute(a, p, q);
    result := a[..];
    AllocationFacts(members, SortByCbDesc(members), result, p, q);
  }

  /** What the allocation promises about its result, relative to the sorted members. */
  predicate AllocationOf(members: seq<PoolMember>, result: seq<PoolMember>)
  {
    var sorted := SortByCbDesc(members);
    && |result| == |members|
    && KeepsShips(sorted, result)
    && SumAfter(result) == SumAfter(members)
    && MovesWithinBounds(sorted, result)
    && ((forall m :: m in members ==> m.cbBefore <= 0.0) ==> result == sorted)
    && ((forall m :: m in members ==> m.cbBefore >= 0.0) ==> result == sorted)
    && (Balanced(members) && SumBefore(members) >= 0.0 ==> CoversEveryDeficit(result))
    && (Balanced(members) && SumBefore(members) >= 0.0 && |members| >= 2 ==> ValidatePool(result).Pass?)
  }

  /** The sorted members, with only the balance after pooling changed. */
  predicate KeepsShips(sorted: seq<PoolMember>, result: seq<PoolMember>)
  {
    |result| == |sorted|
    && forall i :: 0 <= i < |result| ==>
         result[i].shipId == sorted[i].shipId && result[i].cbBefore == sorted[i].cbBefore
  }

  /** Members with a zero balance are left alone, surplus members only give (never below
      zero once they give), deficit members only receive (never more than their deficit),
      and the largest surplus gives first. */
  predicate MovesWithinBounds(sorted: seq<PoolMember>, result: seq<PoolMember>)
    requires |result| == |sorted|
  {
    && (forall i :: 0 <= i < |result| && result[i].cbBefore == 0.0 ==> result[i] == sorted[i])
    && (forall i :: 0 <= i < |result| && result[i].cbBefore > 0.0 ==> SurplusBound(sorted[i], result[i]))
    && (forall i :: 0 <= i < |result| && result[i].cbBefore < 0.0 ==> DeficitBound(sorted[i], result[i]))
    && (forall i, j :: 0 <= j < i < |result| && result[i].cbBefore > 0.0 && result[i].cbAfter < sorted[i].cbAfter ==>
          result[j].cbAfter <= 0.0)
  }

  /** Every deficit member ends at zero. */
  predicate CoversEveryDeficit(result: seq<PoolMember>)
  {
    forall i :: 0 <= i < |result| && result[i].cbBefore < 0.0 ==> result[i].cbAfter == 0.0
  }

  /** The three steps of `Allocate` add up to `AllocationOf`. */
  lemma AllocationFacts(members: seq<PoolMember>, sorted: seq<PoolMember>, result: seq<PoolMember>, p: nat, q: nat)
    requires sorted == SortByCbDesc(members)
    requires |result| == |sorted| && p <= q <= |sorted|
    requires forall i :: 0 <= i < |sorted| ==> (i < p <==> sorted[i].cbBefore > 0.0)
    requires forall i :: 0 <= i < |sorted| ==> (q <= i <==> sorted[i].cbBefore < 0.0)
    requires Distributed(sorted, result, p, q, |sorted|)
    ensures AllocationOf(members, result)
  {
    SortKeepsSums(members);
    BoundsFromDistributed(sorted, result, p, q);
    NoMoveFromDistributed(members, sorted, result, p, q);
    if Balanced(members) && SumBefore(members) >= 0.0 {
      CoverFromDistributed(members, sorted, result, p, q);
    }
  }

  lemma BoundsFromDistributed(sorted: seq<PoolMember>, result: seq<PoolMember>, p: nat, q: nat)
    requires |result| == |sorted| && p <= q <= |sorted|
    requires forall i :: 0 <= i < |sorted| ==> (i < p <==> sorted[i].cbBefore > 0.0)
    requires forall i :: 0 <= i < |sorted| ==> (q <= i <==> sorted[i].cbBefore < 0.0)
    requires Distributed(sorted, result, p, q, |sorted|)
    ensures KeepsShips(sorted, result)
    ensures MovesWithinBounds(sorted, result)
  {
  }

  lemma NoMoveFromDistributed(members: seq<PoolMember>, sorted: seq<PoolMember>, result: seq<PoolMember>, p: nat, q: nat)
    requires sorted == SortByCbDesc(members)
    requires |result| == |sorted| && p <= q <= |sorted|
    requires forall i :: 0 <= i < |sorted| ==> (i < p <==> sorted[i].cbBefore > 0.0)
    requires forall i :: 0 <= i < |sorted| ==> (q <= i <==> sorted[i].cbBefore < 0.0)
    requires Distributed(sorted, result, p, q, |sorted|)
    ensures (forall m :: m in members ==> m.cbBefore <= 0.0) ==> result == sorted
    ensures (forall m :: m in members ==> m.cbBefore >= 0.0) ==> result == sorted
  {
    SortKeepsMembers(members);
    assert p > 0 ==> sorted[0] in members;
    assert q < |sorted| ==> sorted[q] in members;
  }

  lemma CoverFromDistributed(members: seq<PoolMember>, sorted: seq<PoolMember>, result: seq<PoolMember>, p: nat, q: nat)
    requires sorted == SortByCbDesc(members)
    requires Balanced(members) && SumBefore(members) >= 0.0
    requires |result| == |sorted| && p <= q <= |sorted|
    requires forall i :: 0 <= i < |sorted| ==> (i < p <==> sorted[i].cbBefore > 0.0)
    requires forall i :: 0 <= i < |sorted| ==> (q <= i <==> sorted[i].cbBefore < 0.0)
    requires Distributed(sorted, result, p, q, |sorted|)
    ensures CoversEveryDeficit(result)
    ensures |members| >= 2 ==> ValidatePool(result).Pass?
  {
    SortKeepsSums(members);
    SortKeepsBalance(members);
    BoundsFromDistributed(sorted, result, p, q);
    assert Balanced(sorted) && SumBefore(sorted) >= 0.0;
    assert forall i :: q <= i < |sorted| ==> result[i].cbAfter == 0.0;
    forall i | 0 <= i < |result| && result[i].cbBefore < 0.0
      ensures result[i].cbAfter == 0.0
    {
      assert sorted[i].cbBefore < 0.0;
    }
    if |members| >= 2 {
      SumBeforePointwise(result, sorted);
      CoveredPoolPasses(sorted, result);
    }
  }

  /** Sorting a balanced list gives a balanced list. */
  lemma SortKeepsBalance(members: seq<PoolMember>)
    requires Balanced(members)
    ensures Balanced(SortByCbDesc(members))
  {
    var sorted := SortByCbDesc(members);
    SortKeepsMembers(members);
    forall i | 0 <= i < |sorted| ensures sorted[i].cbAfter == sorted[i].cbBefore {
      assert sorted[i] in members;
    }
  }

  /** A covered allocation of a balanced pool satisfies every per-member rule. */
  lemma CoveredPoolPasses(sorted: seq<PoolMember>, result: seq<PoolMember>)
    requires Balanced(sorted) && |result| == |sorted| >= 2
    requires KeepsShips(sorted, result) && MovesWithinBounds(sorted, result)
    requires CoversEveryDeficit(result)
    requires SumBefore(result) >= 0.0
    ensures ValidatePool(result).Pass?
  {
    forall i | 0 <= i < |result| ensures MemberRulesHold(result[i]) {
      assert SurplusBound(sorted[i], result[i]) || result[i].cbBefore <= 0.0;
    }
  }

  /** The allocation keeps the sum of the balances before pooling. */
  lemma AllocationKeepsSumBefore(members: seq<PoolMember>, result: seq<PoolMember>)
    requires AllocationOf(members, result)
    ensures SumBefore(result) == SumBefore(members)
  {
    SortKeepsSums(members);
    SumBeforePointwise(result, SortByCbDesc(members));
  }

  /** The allocation keeps the multiset of ship ids, and keeps them distinct. */
  lemma AllocationKeepsShipIds(members: seq<PoolMember>, result: seq<PoolMember>)
    requires AllocationOf(members, result)
    ensures multiset(ShipIdsOf(result)) == multiset(ShipIdsOf(members))
    ensures Distinct(ShipIdsOf(members)) ==> Distinct(ShipIdsOf(result))
  {
    var sorted := SortByCbDesc(members);
    ShipIdsAt(result);
    ShipIdsAt(sorted);
    assert ShipIdsOf(result) == ShipIdsOf(sorted);
    SortShipIds(members);
    if Distinct(ShipIdsOf(members)) {
      SortKeepsDistinct(members);
    }
  }

  /** A pool built from an allocation reports equal totals before and after pooling: the
      allocation only moves balance between members. */
  lemma AllocatedPoolTotals(members: seq<PoolMember>, result: seq<PoolMember>, id: Wrappers.Option<int>, year: int)
    requires Balanced(members) && AllocationOf(members, result)
    ensures Pool(id, year, result).TotalCBBefore() == SumBefore(members)
    ensures Pool(id, year, result).TotalCBAfter() == Pool(id, year, result).TotalCBBefore()
  {
    AllocationKeepsSumBefore(members, result);
    SumAfterBalanced(members);
  }

  lemma {:induction false} SumAfterBalanced(s: seq<PoolMember>)
    requires Balanced(s)
    ensures SumAfter(s) == SumBefore(s)
  {
    if |s| > 0 {
      SumAfterBalanced(s[1..]);
    }
  }
}
