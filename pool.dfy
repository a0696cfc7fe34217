/** A pool of ships and its validation (backend/src/core/domain/entities/Pool.ts).
    A pool is immutable history once built; building one checks the pooling rules. */
module Pools {
  import opened Wrappers

  datatype PoolMember = PoolMember(shipId: string, cbBefore: real, cbAfter: real)

  /** Sum of the balances before pooling (`calculateTotalCB`). */
  function SumBefore(ms: seq<PoolMember>): real
  {
    if |ms| == 0 then 0.0 else ms[0].cbBefore + SumBefore(ms[1..])
  }

  /** Sum of the balances after pooling. */
  function SumAfter(ms: seq<PoolMember>): real
  {
    if |ms| == 0 then 0.0 else ms[0].cbAfter + SumAfter(ms[1..])
  }

  /** The two per-member rules: a deficit ship does not exit worse off, and a surplus
      ship does not exit negative. A ship with a zero balance is not constrained. */
  predicate MemberRulesHold(m: PoolMember)
  {
    !(m.cbBefore < 0.0 && m.cbAfter < m.cbBefore) && !(m.cbBefore > 0.0 && m.cbAfter < 0.0)
  }

  datatype PoolError =
    | TooFewMembers
    | NegativeSum
    | DeficitExitsWorse(shipId: string)
    | SurplusExitsNegative(shipId: string)

  /** The error the per-member loop reports for a member that breaks a rule. */
  function MemberError(m: PoolMember): PoolError
  {
    if m.cbBefore < 0.0 && m.cbAfter < m.cbBefore then DeficitExitsWorse(m.shipId)
    else SurplusExitsNegative(m.shipId)
  }

  /** The per-member loop: the first member, in order, that breaks a rule. */
  function CheckMembers(ms: seq<PoolMember>): (o: Outcome<PoolError>)
    ensures o.Pass? <==> forall i :: 0 <= i < |ms| ==> MemberRulesHold(ms[i])
    ensures o.Fail? ==> exists i :: 0 <= i < |ms| && !MemberRulesHold(ms[i]) && o.error == MemberError(ms[i])
                                    && forall j :: 0 <= j < i ==> MemberRulesHold(ms[j])
  {
    if |ms| == 0 then Pass
    else if !MemberRulesHold(ms[0]) then Fail(MemberError(ms[0]))
    else
      var rest := CheckMembers(ms[1..]);
      assert forall i :: 1 <= i < |ms| ==> ms[i] == ms[1..][i - 1];
      if rest.Fail? then
        ghost var k :| 0 <= k < |ms[1..]| && !MemberRulesHold(ms[1..][k]) && rest.error == MemberError(ms[1..][k])
                      && forall j :: 0 <= j < k ==> MemberRulesHold(ms[1..][j]);
        assert !MemberRulesHold(ms[k + 1]) && forall j :: 0 <= j < k + 1 ==> MemberRulesHold(ms[j]);
        rest
      else rest
  }

  /** `validateProps`: fewer than two members, then a negative sum of the balances
      BEFORE pooling, then the first member that breaks a rule. */
  function ValidatePool(ms: seq<PoolMember>): (o: Outcome<PoolError>)
    ensures o.Pass? <==> |ms| >= 2 && SumBefore(ms) >= 0.0
                         && forall i :: 0 <= i < |ms| ==> MemberRulesHold(ms[i])
    ensures |ms| < 2 ==> o == Fail(TooFewMembers)
    ensures |ms| >= 2 && SumBefore(ms) < 0.0 ==> o == Fail(NegativeSum)
    ensures o.Fail? && o.error.DeficitExitsWorse? ==>
              exists i :: 0 <= i < |ms| && ms[i].shipId == o.error.shipId
                          && ms[i].cbBefore < 0.0 && ms[i].cbAfter < ms[i].cbBefore
    ensures o.Fail? && o.error.SurplusExitsNegative? ==>
              exists i :: 0 <= i < |ms| && ms[i].shipId == o.error.shipId
                          && ms[i].cbBefore > 0.0 && ms[i].cbAfter < 0.0
  {
    if |ms| < 2 then Fail(TooFewMembers)
    else if SumBefore(ms) < 0.0 then Fail(NegativeSum)
    else CheckMembers(ms)
  }

  datatype Pool = Pool(id: Option<int>, year: int, members: seq<PoolMember>)
  {
    function TotalCBBefore(): real { SumBefore(members) }

    function TotalCBAfter(): real { SumAfter(members) }
  }

  /** `new Pool(props)`: succeeds exactly when validation passes, keeping the props. */
  function NewPool(id: Option<int>, year: int, members: seq<PoolMember>): (r: Result<Pool, PoolError>)
    ensures r.Success? <==> ValidatePool(members).Pass?
    ensures r.Failure? ==> r.error == ValidatePool(members).error
    ensures r.Success? ==> r.value == Pool(id, year, members)
  {
    match ValidatePool(members)
    case Pass => Success(Pool(id, year, members))
    case Fail(e) => Failure(e)
  }

  // ---------------------------------------------------------------------------
  // Sums

  lemma {:induction false} SumBeforeConcat(s: seq<PoolMember>, t: seq<PoolMember>)
    ensures SumBefore(s + t) == SumBefore(s) + SumBefore(t)
  {
    if |s| > 0 {
      assert (s + t)[1..] == s[1..] + t;
      SumBeforeConcat(s[1..], t);
    } else {
      assert s + t == t;
    }
  }

  lemma {:induction false} SumAfterConcat(s: seq<PoolMember>, t: seq<PoolMember>)
    ensures SumAfter(s + t) == SumAfter(s) + SumAfter(t)
  {
    if |s| > 0 {
      assert (s + t)[1..] == s[1..] + t;
      SumAfterConcat(s[1..], t);
    } else {
      assert s + t == t;
    }
  }

  /** Replacing one member changes the after-sum by exactly the change of that member. */
  lemma {:induction false} SumAfterUpdate(s: seq<PoolMember>, i: nat, m: PoolMember)
    requires i < |s|
    ensures SumAfter(s[i := m]) == SumAfter(s) - s[i].cbAfter + m.cbAfter
  {
    if i > 0 {
      assert s[i := m][1..] == s[1..][i - 1 := m];
      SumAfterUpdate(s[1..], i - 1, m);
    }
  }

  /** Two member lists with the same balances before pooling have the same before-sum. */
  lemma {:induction false} SumBeforePointwise(s: seq<PoolMember>, t: seq<PoolMember>)
    requires |s| == |t|
    requires forall i :: 0 <= i < |s| ==> s[i].cbBefore == t[i].cbBefore
    ensures SumBefore(s) == SumBefore(t)
  {
    if |s| > 0 {
      SumBeforePointwise(s[1..], t[1..]);
    }
  }

  /** Members that all end at or below zero have a non-positive after-sum. */
  lemma {:induction false} SumAfterNonPositive(s: seq<PoolMember>)
    requires forall i :: 0 <= i < |s| ==> s[i].cbAfter <= 0.0
    ensures SumAfter(s) <= 0.0
  {
    if |s| > 0 {
      SumAfterNonPositive(s[1..]);
    }
  }

  /** Members that all start at or below zero have a non-positive before-sum. */
  lemma {:induction false} SumBeforeNonPositive(s: seq<PoolMember>)
    requires forall i :: 0 <= i < |s| ==> s[i].cbBefore <= 0.0
    ensures SumBefore(s) <= 0.0
  {
    if |s| > 0 {
      SumBeforeNonPositive(s[1..]);
    }
  }

  /** Members that all start at zero have a zero before-sum. */
  lemma {:induction false} SumBeforeZero(s: seq<PoolMember>)
    requires forall i :: 0 <= i < |s| ==> s[i].cbBefore == 0.0
    ensures SumBefore(s) == 0.0
  {
    if |s| > 0 {
      SumBeforeZero(s[1..]);
    }
  }

  // ---------------------------------------------------------------------------
  // Ship ids

  /** The ship ids of the members, in order. */
  function ShipIdsOf(ms: seq<PoolMember>): (ids: seq<string>)
    ensures |ids| == |ms|
  {
    if |ms| == 0 then [] else [ms[0].shipId] + ShipIdsOf(ms[1..])
  }

  lemma {:induction false} ShipIdsAt(ms: seq<PoolMember>)
    ensures forall i :: 0 <= i < |ms| ==> ShipIdsOf(ms)[i] == ms[i].shipId
  {
    if |ms| > 0 {
      ShipIdsAt(ms[1..]);
    }
  }

  predicate Distinct(ids: seq<string>)
  {
    forall i, j :: 0 <= i < j < |ids| ==> ids[i] != ids[j]
  }
}
