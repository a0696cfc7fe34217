/** The route table as the route use cases see it
    (backend/src/adapters/outbound/postgres/repositories/RouteRepository.ts): the rows in
    `findAll` order (newest first), each row mapped through the `Route` constructor. */
module RouteStore {
  import opened Wrappers
  import opened Routes

  /** `findAll({ year })`: the rows of that year, in table order; a falsy year (0)
      adds no condition, so every row is returned. */
  function FindAll(routes: seq<RouteProps>, year: int): (r: seq<RouteProps>)
    ensures |r| <= |routes|
    ensures forall x :: x in r <==> x in routes && (year == 0 || x.year == year)
  {
    if |routes| == 0 then []
    else (if year == 0 || routes[0].year == year then [routes[0]] else []) + FindAll(routes[1..], year)
  }

  /** Without a year filter, `findAll` returns the whole table in order. */
  lemma {:induction false} FindAllWithoutFilter(routes: seq<RouteProps>)
    ensures FindAll(routes, 0) == routes
  {
    if |routes| > 0 {
      FindAllWithoutFilter(routes[1..]);
      assert routes == [routes[0]] + routes[1..];
    }
  }

  /** Filtering by year commutes with concatenation, so the kept rows stay in table order. */
  lemma {:induction false} FindAllConcat(a: seq<RouteProps>, b: seq<RouteProps>, year: int)
    ensures FindAll(a + b, year) == FindAll(a, year) + FindAll(b, year)
  {
    if |a| == 0 {
      assert a + b == b;
    } else {
      assert (a + b)[1..] == a[1..] + b;
      FindAllConcat(a[1..], b, year);
    }
  }

  /** Row `i` is the first row of the table that matches the year. */
  predicate FirstMatchAt(routes: seq<RouteProps>, year: int, i: int)
  {
    && 0 <= i < |routes| && (year == 0 || routes[i].year == year)
    && forall j :: 0 <= j < i ==> !(year == 0 || routes[j].year == year)
  }

  /** The first row `findAll` returns is the first row of the table that matches the year. */
  lemma {:induction false} FindAllHead(routes: seq<RouteProps>, year: int)
    requires FindAll(routes, year) != []
    ensures exists i :: FirstMatchAt(routes, year, i) && FindAll(routes, year)[0] == routes[i]
  {
    if year == 0 || routes[0].year == year {
      assert FirstMatchAt(routes, year, 0);
    } else {
      var rest := routes[1..];
      assert FindAll(routes, year) == FindAll(rest, year);
      FindAllHead(rest, year);
      var i :| FirstMatchAt(rest, year, i) && FindAll(rest, year)[0] == rest[i];
      assert routes[i + 1] == rest[i];
      forall j | 0 <= j < i + 1
        ensures !(year == 0 || routes[j].year == year)
      {
        if j > 0 {
          assert routes[j] == rest[j - 1];
        }
      }
      assert FirstMatchAt(routes, year, i + 1);
    }
  }

  /** `findByRouteId`: the first row with that route id. */
  function FindByRouteId(routes: seq<RouteProps>, routeId: string): (r: Option<RouteProps>)
    ensures r.Some? <==> exists i :: 0 <= i < |routes| && routes[i].routeId == routeId
    ensures r.Some? ==> r.value in routes && r.value.routeId == routeId
  {
    if |routes| == 0 then None
    else if routes[0].routeId == routeId then Some(routes[0])
    else
      var rest := FindByRouteId(routes[1..], routeId);
      assert forall i :: 1 <= i < |routes| ==> routes[i] == routes[1..][i - 1];
      rest
  }

  /** `findBaseline`: a row flagged as baseline (the first one, in table order). */
  function FindBaseline(routes: seq<RouteProps>): (r: Option<RouteProps>)
    ensures r.Some? <==> exists i :: 0 <= i < |routes| && routes[i].isBaseline
    ensures r.Some? ==> r.value in routes && r.value.isBaseline
  {
    if |routes| == 0 then None
    else if routes[0].isBaseline then Some(routes[0])
    else
      var rest := FindBaseline(routes[1..]);
      assert forall i :: 1 <= i < |routes| ==> routes[i] == routes[1..][i - 1];
      rest
  }

  /** The table after `setAsBaseline(routeId)`: every flag cleared, then the rows with that
      route id flagged. */
  function WithBaseline(routes: seq<RouteProps>, routeId: string): seq<RouteProps>
  {
    seq(|routes|, i requires 0 <= i < |routes| => routes[i].(isBaseline := routes[i].routeId == routeId))
  }

  /** For a route id no row has, setting the baseline clears every flag and finds nothing:
      the clearing is committed before the missing row fails to map. */
  lemma WithBaselineAbsent(routes: seq<RouteProps>, routeId: string)
    requires forall i :: 0 <= i < |routes| ==> routes[i].routeId != routeId
    ensures FindBaseline(WithBaseline(routes, routeId)).None?
    ensures FindByRouteId(WithBaseline(routes, routeId), routeId).None?
  {
  }

  /** Route ids are unique and every row passes the `Route` constructor. */
  predicate TableValid(routes: seq<RouteProps>)
  {
    && (forall i, j :: 0 <= i < j < |routes| ==> routes[i].routeId != routes[j].routeId)
    && (forall i :: 0 <= i < |routes| ==> Validate(routes[i]).Pass?)
  }

  /** The baseline flag takes no part in the `Route` constructor's checks. */
  lemma ValidateIgnoresBaseline(p: RouteProps, flag: bool)
    ensures Validate(p.(isBaseline := flag)) == Validate(p)
  {
    var q := p.(isBaseline := flag);
    assert q.routeId == p.routeId && q.ghgIntensity == p.ghgIntensity && q.fuelConsumption == p.fuelConsumption;
    assert q.distance == p.distance && q.year == p.year;
  }

  /** `WithBaseline` changes only the flag of each row, and flags exactly the rows with the id. */
  lemma WithBaselineRows(routes: seq<RouteProps>, routeId: string)
    ensures |WithBaseline(routes, routeId)| == |routes|
    ensures forall i :: 0 <= i < |routes| ==>
              && WithBaseline(routes, routeId)[i].routeId == routes[i].routeId
              && (WithBaseline(routes, routeId)[i].isBaseline <==> routes[i].routeId == routeId)
              && Validate(WithBaseline(routes, routeId)[i]) == Validate(routes[i])
  {
    forall i | 0 <= i < |routes|
      ensures Validate(WithBaseline(routes, routeId)[i]) == Validate(routes[i])
    {
      ValidateIgnoresBaseline(routes[i], routes[i].routeId == routeId);
    }
  }

  /** After `setAsBaseline` on a present route id, that route is the one and only baseline,
      and no other field of any row has changed. */
  lemma SingleBaseline(routes: seq<RouteProps>, routeId: string)
    requires TableValid(routes)
    requires exists i :: 0 <= i < |routes| && routes[i].routeId == routeId
    ensures TableValid(WithBaseline(routes, routeId))
    ensures FindBaseline(WithBaseline(routes, routeId)).Some?
    ensures FindBaseline(WithBaseline(routes, routeId)).value.routeId == routeId
    ensures forall i, j :: 0 <= i < j < |routes| ==>
              !(WithBaseline(routes, routeId)[i].isBaseline && WithBaseline(routes, routeId)[j].isBaseline)
    ensures forall i :: 0 <= i < |routes| ==>
              WithBaseline(routes, routeId)[i].(isBaseline := routes[i].isBaseline) == routes[i]
  {
    WithBaselineKeepsValid(routes, routeId);
    WithBaselineFindsIt(routes, routeId);
    WithBaselineRows(routes, routeId);
  }

  lemma WithBaselineKeepsValid(routes: seq<RouteProps>, routeId: string)
    requires TableValid(routes)
    ensures TableValid(WithBaseline(routes, routeId))
  {
    WithBaselineRows(routes, routeId);
  }

  lemma WithBaselineFindsIt(routes: seq<RouteProps>, routeId: string)
    requires exists i :: 0 <= i < |routes| && routes[i].routeId == routeId
    ensures FindBaseline(WithBaseline(routes, routeId)).Some?
    ensures FindBaseline(WithBaseline(routes, routeId)).value.routeId == routeId
  {
    var after := WithBaseline(routes, routeId);
    WithBaselineRows(routes, routeId);
    var k :| 0 <= k < |routes| && routes[k].routeId == routeId;
    assert after[k].isBaseline;
    var b := FindBaseline(after).value;
    var m :| 0 <= m < |after| && after[m] == b;
    assert routes[m].routeId == routeId;
  }

  /** Setting the same baseline twice is the same as setting it once. */
  lemma WithBaselineIdempotent(routes: seq<RouteProps>, routeId: string)
    ensures WithBaseline(WithBaseline(routes, routeId), routeId) == WithBaseline(routes, routeId)
  {
  }

  class RouteTable {
    var routes: seq<RouteProps>

    predicate Valid()
      reads this
    {
      TableValid(routes)
    }

    /** `setAsBaseline(routeId)`: clear every baseline flag, then flag the named route;
        returns the updated row, if there is one. For an absent id the cleared flags are
        already committed when mapping the missing row throws; `None` stands for that
        error. */
    method SetAsBaseline(routeId: string) returns (r: Option<RouteProps>)
      modifies this
      ensures routes == WithBaseline(old(routes), routeId)
      ensures r == FindByRouteId(routes, routeId)
    {
      ghost var before := routes;
      var i := 0;
      while i < |routes|
        invariant 0 <= i <= |routes| == |before|
        invariant forall j :: 0 <= j < i ==> routes[j] == before[j].(isBaseline := false)
        invariant forall j :: i <= j < |routes| ==> routes[j] == before[j]
      {
        if routes[i].isBaseline {
          routes := routes[i := routes[i].(isBaseline := false)];
        }
        i := i + 1;
      }
      i := 0;
      while i < |routes|
        invariant 0 <= i <= |routes| == |before|
        invariant forall j :: 0 <= j < i ==> routes[j] == before[j].(isBaseline := before[j].routeId == routeId)
        invariant forall j :: i <= j < |routes| ==> routes[j] == before[j].(isBaseline := false)
      {
        if routes[i].routeId == routeId {
          routes := routes[i := routes[i].(isBaseline := true)];
        }
        i := i + 1;
      }
      r := FindByRouteId(routes, routeId);
    }
  }
}
