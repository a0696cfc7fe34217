/** The pooling hook of the frontend (frontend/my-app/src/adapters/ui/hooks/usePooling.ts):
    the members the user edits, the pool metrics and the client-side validation, and the
    guard in front of the create-pool request. Fetching from and posting to the API are
    parameters here: the fetched balances come in as a value and the client's answer as an
    outcome. */
module PoolingHook {
  import opened Wrappers
  import Pools

  /** A fetched ship balance (`AdjustedComplianceBalance`, the fields the hook reads). */
  datatype ShipBalance = ShipBalance(shipId: string, adjustedCb: real)

  /** A member as the hook holds it. */
  datatype UiPoolMember = UiPoolMember(
    shipId: string, shipName: string, cbBefore: real, contribution: real, cbAfter: real)

  /** A member's balance after pooling is its balance before, less what it contributes. */
  predicate Consistent(ms: seq<UiPoolMember>)
  {
    forall i :: 0 <= i < |ms| ==> ms[i].cbAfter == ms[i].cbBefore - ms[i].contribution
  }

  /** `fetchShips`: one member per fetched ship, in order, contributing nothing. */
  function MembersFromShips(data: seq<ShipBalance>): (r: seq<UiPoolMember>)
    ensures |r| == |data|
    ensures Consistent(r)
    ensures forall i :: 0 <= i < |r| ==>
              && r[i].shipId == data[i].shipId && r[i].shipName == "Ship " + data[i].shipId
              && r[i].cbBefore == data[i].adjustedCb && r[i].contribution == 0.0
  {
    seq(|data|, i requires 0 <= i < |data| =>
      UiPoolMember(data[i].shipId, "Ship " + data[i].shipId, data[i].adjustedCb, 0.0, data[i].adjustedCb))
  }

  /** `updateContribution`: every member of the ship gets the new contribution and its
      balance after pooling follows; every other member is left as it was. */
  function WithContribution(ms: seq<UiPoolMember>, shipId: string, contribution: real): (r: seq<UiPoolMember>)
    ensures |r| == |ms|
    ensures forall i :: 0 <= i < |ms| && ms[i].shipId != shipId ==> r[i] == ms[i]
    ensures forall i :: 0 <= i < |ms| && ms[i].shipId == shipId ==>
              && r[i].contribution == contribution && r[i].cbAfter == r[i].cbBefore - contribution
              && r[i].shipId == ms[i].shipId && r[i].shipName == ms[i].shipName && r[i].cbBefore == ms[i].cbBefore
    ensures Consistent(ms) ==> Consistent(r)
  {
    seq(|ms|, i requires 0 <= i < |ms| =>
      if ms[i].shipId == shipId then ms[i].(contribution := contribution, cbAfter := ms[i].cbBefore - contribution)
      else ms[i])
  }

  /** A later edit of the same ship replaces an earlier one. */
  lemma LatestContributionWins(ms: seq<UiPoolMember>, shipId: string, c1: real, c2: real)
    ensures WithContribution(WithContribution(ms, shipId, c1), shipId, c2) == WithContribution(ms, shipId, c2)
  {
    var a := WithContribution(WithContribution(ms, shipId, c1), shipId, c2);
    var b := WithContribution(ms, shipId, c2);
    assert forall i :: 0 <= i < |ms| ==> a[i] == b[i];
  }

  function SumCbBefore(ms: seq<UiPoolMember>): real
  {
    if |ms| == 0 then 0.0 else ms[0].cbBefore + SumCbBefore(ms[1..])
  }

  function SumContribution(ms: seq<UiPoolMember>): real
  {
    if |ms| == 0 then 0.0 else ms[0].contribution + SumContribution(ms[1..])
  }

  function SumCbAfter(ms: seq<UiPoolMember>): real
  {
    if |ms| == 0 then 0.0 else ms[0].cbAfter + SumCbAfter(ms[1..])
  }

  datatype PoolMetrics = PoolMetrics(poolSumBefore: real, totalContribution: real, poolSumAfter: real)

  /** `poolMetrics`: the sums before pooling and of the contributions, and their difference. */
  function Metrics(ms: seq<UiPoolMember>): (r: PoolMetrics)
    ensures r.poolSumBefore == SumCbBefore(ms) && r.totalContribution == SumContribution(ms)
    ensures r.poolSumAfter == r.poolSumBefore - r.totalContribution
  {
    var before := SumCbBefore(ms);
    var contributed := SumContribution(ms);
    PoolMetrics(before, contributed, before - contributed)
  }

  /** For consistent members the pool sum after contributions is the sum of the members'
      balances after pooling. */
  lemma {:induction false} MetricsMatchMembers(ms: seq<UiPoolMember>)
    requires Consistent(ms)
    ensures Metrics(ms).poolSumAfter == SumCbAfter(ms)
  {
    if |ms| > 0 {
      assert Consistent(ms[1..]) by {
        assert forall i :: 0 <= i < |ms[1..]| ==> ms[1..][i] == ms[i + 1];
      }
      MetricsMatchMembers(ms[1..]);
    }
  }

  /** Freshly fetched members contribute nothing, so the pool sum is unchanged. */
  lemma {:induction false} FetchedMetrics(data: seq<ShipBalance>)
    ensures Metrics(MembersFromShips(data)).totalContribution == 0.0
    ensures Metrics(MembersFromShips(data)).poolSumAfter == Metrics(MembersFromShips(data)).poolSumBefore
  {
    if |data| > 0 {
      FetchedMetrics(data[1..]);
      assert MembersFromShips(data)[1..] == MembersFromShips(data[1..]);
    }
  }

  /** Editing contributions never changes the pool sum before pooling. */
  lemma {:induction false} ContributionKeepsSumBefore(ms: seq<UiPoolMember>, shipId: string, c: real)
    ensures SumCbBefore(WithContribution(ms, shipId, c)) == SumCbBefore(ms)
  {
    if |ms| > 0 {
      ContributionKeepsSumBefore(ms[1..], shipId, c);
      assert WithContribution(ms, shipId, c)[1..] == WithContribution(ms[1..], shipId, c);
    }
  }

  /** The validation messages, in rule order; the first carries the pool sum (its two-decimal
      rendering is not modelled). */
  datatype RuleError =
    | PoolSumNegative(poolSumAfter: real)   // "Pool sum after contributions must be ≥ 0 (currently … MJ)"
    | DeficitShipWorse                       // "Deficit ships cannot have lower CB after pooling"
    | SurplusShipNegative                    // "Surplus ships cannot have negative CB after pooling"

  function RuleNumber(e: RuleError): nat
  {
    match e
    case PoolSumNegative(_) => 1
    case DeficitShipWorse => 2
    case SurplusShipNegative => 3
  }

  datatype ValidationResult = ValidationResult(
    isValid: bool, errors: seq<RuleError>,
    poolSumNonNegative: bool, deficitShipsNotWorse: bool, surplusShipsNotNegative: bool)

  /** Rule 2: no ship that starts in deficit ends below where it started. */
  predicate DeficitShipsNotWorse(ms: seq<UiPoolMember>)
  {
    forall i :: 0 <= i < |ms| && ms[i].cbBefore < 0.0 ==> ms[i].cbAfter >= ms[i].cbBefore
  }

  /** Rule 3: no ship that starts at zero or above ends negative (zero counts as surplus). */
  predicate SurplusShipsNotNegative(ms: seq<UiPoolMember>)
  {
    forall i :: 0 <= i < |ms| && ms[i].cbBefore >= 0.0 ==> ms[i].cbAfter >= 0.0
  }

  /** `validation`: valid exactly when all three rules hold; one message per failed rule,
      in rule order. */
  function Validate(ms: seq<UiPoolMember>): (r: ValidationResult)
    ensures r.isValid <==> r.errors == []
    ensures r.isValid <==>
              Metrics(ms).poolSumAfter >= 0.0 && DeficitShipsNotWorse(ms) && SurplusShipsNotNegative(ms)
    ensures PoolSumNegative(Metrics(ms).poolSumAfter) in r.errors <==> Metrics(ms).poolSumAfter < 0.0
    ensures DeficitShipWorse in r.errors <==> !DeficitShipsNotWorse(ms)
    ensures SurplusShipNegative in r.errors <==> !SurplusShipsNotNegative(ms)
    ensures forall i, j :: 0 <= i < j < |r.errors| ==> RuleNumber(r.errors[i]) < RuleNumber(r.errors[j])
  {
    var poolSumAfter := Metrics(ms).poolSumAfter;
    var sumOk := poolSumAfter >= 0.0;
    var deficitOk := DeficitShipsNotWorse(ms);
    var surplusOk := SurplusShipsNotNegative(ms);
    var errors := (if sumOk then [] else [PoolSumNegative(poolSumAfter)])
                  + (if deficitOk then [] else [DeficitShipWorse])
                  + (if surplusOk then [] else [SurplusShipNegative]);
    ValidationResult(sumOk && deficitOk && surplusOk, errors, sumOk, deficitOk, surplusOk)
  }

  /** The member as the backend entity sees it. */
  function ToBackend(m: UiPoolMember): Pools.PoolMember
  {
    Pools.PoolMember(m.shipId, m.cbBefore, m.cbAfter)
  }

  /** Every member the hook accepts also meets the backend's per-member rules: the hook's
      surplus rule covers zero balances too, so it is the stricter of the two. */
  lemma HookRulesImplyBackendRules(ms: seq<UiPoolMember>)
    requires Validate(ms).isValid
    ensures forall i :: 0 <= i < |ms| ==> Pools.MemberRulesHold(ToBackend(ms[i]))
  {
  }

  /** A ship at zero that ends negative passes the backend's member rules and the backend
      pool check, but the hook rejects the pool. */
  lemma HookStricterOnZeroBalance()
    ensures Pools.ValidatePool([ToBackend(UiPoolMember("X", "Ship X", 0.0, 1.0, -1.0)),
                                ToBackend(UiPoolMember("Y", "Ship Y", 5.0, 0.0, 5.0))]).Pass?
    ensures Validate([UiPoolMember("X", "Ship X", 0.0, 1.0, -1.0), UiPoolMember("Y", "Ship Y", 5.0, 0.0, 5.0)]).errors
            == [SurplusShipNegative]
  {
    var ms := [UiPoolMember("X", "Ship X", 0.0, 1.0, -1.0), UiPoolMember("Y", "Ship Y", 5.0, 0.0, 5.0)];
    var bs := [ToBackend(ms[0]), ToBackend(ms[1])];
    assert bs[1..] == [bs[1]] && bs[1..][1..] == [] && ms[1..][1..] == [];
    assert Pools.SumBefore(bs[1..]) == 5.0;
    assert Pools.SumBefore(bs) == 5.0;
    assert Metrics(ms).poolSumAfter == 4.0;
    assert !SurplusShipsNotNegative(ms);
  }

  /** The hook checks the sum AFTER contributions, the backend the sum BEFORE pooling:
      negative contributions let the hook accept a pool the backend refuses. */
  lemma HookAcceptsNegativeSumBefore()
    ensures Validate([UiPoolMember("A", "Ship A", -5.0, -5.0, 0.0), UiPoolMember("B", "Ship B", 1.0, 0.0, 1.0)]).isValid
    ensures Pools.ValidatePool([ToBackend(UiPoolMember("A", "Ship A", -5.0, -5.0, 0.0)),
                                ToBackend(UiPoolMember("B", "Ship B", 1.0, 0.0, 1.0))]) == Fail(Pools.NegativeSum)
  {
    var ms := [UiPoolMember("A", "Ship A", -5.0, -5.0, 0.0), UiPoolMember("B", "Ship B", 1.0, 0.0, 1.0)];
    var bs := [ToBackend(ms[0]), ToBackend(ms[1])];
    assert bs[1..] == [bs[1]] && bs[1..][1..] == [] && ms[1..][1..] == [];
    assert Pools.SumBefore(bs[1..]) == 1.0;
    assert Pools.SumBefore(bs) == -4.0;
    assert Metrics(ms).poolSumAfter == 1.0;
  }

  /** What `createPool` posts for one member. */
  datatype RequestMember = RequestMember(shipId: string, contribution: real)

  datatype CreatePoolRequest = CreatePoolRequest(year: int, members: seq<RequestMember>)

  /** The request body: each member's ship and contribution, in order. */
  function RequestMembers(ms: seq<UiPoolMember>): (r: seq<RequestMember>)
    ensures |r| == |ms|
    ensures forall i :: 0 <= i < |ms| ==> r[i].shipId == ms[i].shipId && r[i].contribution == ms[i].contribution
  {
    seq(|ms|, i requires 0 <= i < |ms| => RequestMember(ms[i].shipId, ms[i].contribution))
  }

  /** The hook's `error` state. */
  datatype HookError =
    | FetchFailed(message: string)
    | ValidationFailed(errors: seq<RuleError>)   // "Pool validation failed: " + the messages joined
    | ClientFailed(message: string)

  /** The hook's state for one year. */
  class PoolingHookState {
    const year: int
    var members: seq<UiPoolMember>
    var error: Option<HookError>

    ghost predicate Valid()
      reads this
    {
      Consistent(members)
    }

    constructor (year: int)
      ensures Valid()
      ensures this.year == year && members == [] && error == None
    {
      this.year := year;
      members := [];
      error := None;
    }

    /** `fetchShips`, given what the compliance client answered. */
    method FetchShips(data: Result<seq<ShipBalance>, string>)
      requires Valid()
      modifies this
      ensures Valid()
      ensures data.Success? ==> members == MembersFromShips(data.value) && error == None
      ensures data.Failure? ==> members == old(members) && error == Some(FetchFailed(data.error))
    {
      error := None;
      if data.Failure? {
        error := Some(FetchFailed(data.error));
        return;
      }
      members := MembersFromShips(data.value);
    }

    /** `updateContribution`. */
    method UpdateContribution(shipId: string, contribution: real)
      requires Valid()
      modifies this
      ensures Valid()
      ensures members == WithContribution(old(members), shipId, contribution) && error == old(error)
    {
      members := WithContribution(members, shipId, contribution);
    }

    /** `createPool`, given what the pooling client answers: nothing is posted unless the
        members pass validation. Returns whether the pool was created, and the request that
        was posted, if any. */
    method CreatePool(client: Outcome<string>) returns (created: bool, posted: Option<CreatePoolRequest>)
      requires Valid()
      modifies this
      ensures Valid() && members == old(members)
      ensures !Validate(members).isValid ==>
                !created && posted == None && error == Some(ValidationFailed(Validate(members).errors))
      ensures Validate(members).isValid ==>
                && posted == Some(CreatePoolRequest(year, RequestMembers(members)))
                && (created <==> client.Pass?)
                && error == (if client.Pass? then None else Some(ClientFailed(client.error)))
    {
      var validation := Validate(members);
      if !validation.isValid {
        error := Some(ValidationFailed(validation.errors));
        return false, None;
      }
      error := None;
      posted := Some(CreatePoolRequest(year, RequestMembers(members)));
      if client.Fail? {
        error := Some(ClientFailed(client.error));
        return false, posted;
      }
      created := true;
    }
  }
}
