/** The route use cases: choosing the baseline
    (backend/src/core/application/use-cases/route/SetBaseline.usecase.ts) and comparing
    every other route against it
    (backend/src/core/application/use-cases/route/GetComparison.usecase.ts). */
module RouteUseCases {
  import opened Wrappers
  import opened Routes
  import opened RouteStore
  import Calculations
  import FuelEUConstants

  /** `execute(routeId)`: an unknown route id fails and changes nothing; otherwise the
      route becomes the single baseline. */
  method SetBaseline(table: RouteTable, routeId: string) returns (r: Result<RouteProps, string>)
    requires table.Valid()
    modifies table
    ensures table.Valid()
    ensures FindByRouteId(old(table.routes), routeId).None? ==>
              r == Failure("Route " + routeId + " not found") && table.routes == old(table.routes)
    ensures FindByRouteId(old(table.routes), routeId).Some? ==>
              && table.routes == WithBaseline(old(table.routes), routeId)
              && r.Success? && r.value.routeId == routeId && r.value.isBaseline
              && r.value.(isBaseline := false) == FindByRouteId(old(table.routes), routeId).value.(isBaseline := false)
  {
    var found := FindByRouteId(table.routes, routeId);
    if found.None? {
      return Failure("Route " + routeId + " not found");
    }
    ghost var before := table.routes;
    var updated := table.SetAsBaseline(routeId);
    SingleBaseline(before, routeId);
    ghost var k :| 0 <= k < |before| && before[k] == found.value;
    assert table.routes[k].routeId == routeId;
    assert updated.Some?;
    ghost var m :| 0 <= m < |table.routes| && table.routes[m] == updated.value;
    assert m == k;
    return Success(updated.value);
  }

  datatype ComparisonResult = ComparisonResult(route: RouteProps, percentDiff: real, compliant: bool)

  datatype Comparison = Comparison(baseline: RouteProps, comparisons: seq<ComparisonResult>)

  /** The routes whose route id differs from `routeId`, in table order. */
  function OtherRoutes(routes: seq<RouteProps>, routeId: string): (r: seq<RouteProps>)
    ensures |r| <= |routes|
    ensures forall x :: x in r <==> x in routes && x.routeId != routeId
  {
    if |routes| == 0 then []
    else (if routes[0].routeId != routeId then [routes[0]] else []) + OtherRoutes(routes[1..], routeId)
  }

  /** Each route against the baseline's intensity, with the rounded percent difference and
      the compliance verdict at the default target. */
  function CompareAll(baseline: RouteProps, routes: seq<RouteProps>): (r: seq<ComparisonResult>)
    ensures |r| == |routes|
    ensures forall i :: 0 <= i < |r| ==>
              && r[i].route == routes[i]
              && r[i].percentDiff == Calculations.PercentDifference(baseline.ghgIntensity, routes[i].ghgIntensity)
              && (r[i].compliant <==> routes[i].ghgIntensity <= FuelEUConstants.TargetGhgIntensity2025)
  {
    if |routes| == 0 then []
    else
      [ComparisonResult(routes[0],
                        Calculations.PercentDifference(baseline.ghgIntensity, routes[0].ghgIntensity),
                        Calculations.IsCompliant(routes[0].ghgIntensity))]
      + CompareAll(baseline, routes[1..])
  }

  /** `execute()`: without a baseline it fails; otherwise every other route, in table order,
      is compared with the baseline. */
  function GetComparison(routes: seq<RouteProps>): (r: Result<Comparison, string>)
    ensures r.Failure? <==> forall i :: 0 <= i < |routes| ==> !routes[i].isBaseline
    ensures r.Failure? ==> r.error == "No baseline route set"
    ensures r.Success? ==>
              && r.value.baseline in routes && r.value.baseline.isBaseline
              && |r.value.comparisons| == |OtherRoutes(routes, r.value.baseline.routeId)|
              && forall i :: 0 <= i < |r.value.comparisons| ==>
                   && r.value.comparisons[i].route == OtherRoutes(routes, r.value.baseline.routeId)[i]
                   && r.value.comparisons[i].route.routeId != r.value.baseline.routeId
                   && r.value.comparisons[i].percentDiff
                      == Calculations.PercentDifference(r.value.baseline.ghgIntensity, r.value.comparisons[i].route.ghgIntensity)
                   && (r.value.comparisons[i].compliant
                       <==> r.value.comparisons[i].route.ghgIntensity <= FuelEUConstants.TargetGhgIntensity2025)
  {
    match FindBaseline(routes)
    case None => Failure("No baseline route set")
    case Some(baseline) =>
      FindAllWithoutFilter(routes);
      var others := OtherRoutes(FindAll(routes, 0), baseline.routeId);
      assert forall i :: 0 <= i < |others| ==> others[i] in others;
      Success(Comparison(baseline, CompareAll(baseline, others)))
  }

  /** With the single baseline that `SetBaseline` leaves, the comparison is taken against
      that route and lists every other route. */
  lemma ComparisonAfterSetBaseline(routes: seq<RouteProps>, routeId: string)
    requires TableValid(routes)
    requires exists i :: 0 <= i < |routes| && routes[i].routeId == routeId
    ensures GetComparison(WithBaseline(routes, routeId)).Success?
    ensures GetComparison(WithBaseline(routes, routeId)).value.baseline.routeId == routeId
    ensures |GetComparison(WithBaseline(routes, routeId)).value.comparisons| == |routes| - 1
  {
    var after := WithBaseline(routes, routeId);
    SingleBaseline(routes, routeId);
    WithBaselineRows(routes, routeId);
    var b := FindBaseline(after).value;
    assert b.routeId == routeId;
    FindAllWithoutFilter(after);
    var others := OtherRoutes(after, routeId);
    assert GetComparison(after) == Success(Comparison(b, CompareAll(b, others)));
    var k :| 0 <= k < |routes| && routes[k].routeId == routeId;
    assert after[k].routeId == routeId;
    OtherRoutesOfUnique(after, k);
  }

  /** Leaving out the one row with a given (unique) route id leaves all the others. */
  lemma {:induction false} OtherRoutesOfUnique(routes: seq<RouteProps>, k: nat)
    requires k < |routes|
    requires forall i, j :: 0 <= i < j < |routes| ==> routes[i].routeId != routes[j].routeId
    ensures |OtherRoutes(routes, routes[k].routeId)| == |routes| - 1
  {
    if k == 0 {
      OtherRoutesNone(routes[1..], routes[0].routeId);
    } else {
      OtherRoutesOfUnique(routes[1..], k - 1);
    }
  }

  lemma {:induction false} OtherRoutesNone(routes: seq<RouteProps>, routeId: string)
    requires forall i :: 0 <= i < |routes| ==> routes[i].routeId != routeId
    ensures OtherRoutes(routes, routeId) == routes
  {
    if |routes| > 0 {
      OtherRoutesNone(routes[1..], routeId);
      assert routes == [routes[0]] + routes[1..];
    }
  }

  /** Leaving out a route id commutes with concatenation, so the kept routes stay in table
      order. */
  lemma {:induction false} OtherRoutesConcat(a: seq<RouteProps>, b: seq<RouteProps>, routeId: string)
    ensures OtherRoutes(a + b, routeId) == OtherRoutes(a, routeId) + OtherRoutes(b, routeId)
  {
    if |a| == 0 {
      assert a + b == b;
    } else {
      assert (a + b)[1..] == a[1..] + b;
      OtherRoutesConcat(a[1..], b, routeId);
    }
  }
}
