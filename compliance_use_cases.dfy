/** The compliance use cases: the adjusted balance
    (backend/src/core/application/use-cases/compliance/GetAdjustedCB.usecase.ts) and
    computing a ship's balance from the routes of a year
    (backend/src/core/application/use-cases/compliance/ComputeCB.usecase.ts). */
module ComplianceUseCases {
  import opened Wrappers
  import opened ComplianceStore
  import ShipCompliances
  import Calculations
  import opened Routes
  import opened RouteStore

  /** The adjusted balance: the stored balance plus everything banked (net of what was
      applied) for that ship and year. */
  function AdjustedCB(records: map<ShipYear, ComplianceRow>, ledger: seq<LedgerRow>, shipId: string, year: int): (r: Result<real, UseCaseError>)
    ensures r.Success? <==> Lookup(records, shipId, year).Success?
    ensures r.Failure? ==> r.error == Lookup(records, shipId, year).error
    ensures r.Success? ==> r.value == Lookup(records, shipId, year).value.cbGco2eq + TotalBanked(ledger, shipId, year)
  {
    match Lookup(records, shipId, year)
    case Failure(e) => Failure(e)
    case Success(row) => Success(row.cbGco2eq + TotalBanked(ledger, shipId, year))
  }

  /** Without ledger lines for the ship and year, the adjusted balance is the stored one. */
  lemma AdjustedWithoutLedgerLines(records: map<ShipYear, ComplianceRow>, ledger: seq<LedgerRow>, shipId: string, year: int)
    requires Lookup(records, shipId, year).Success?
    requires forall i :: 0 <= i < |ledger| ==> !(ledger[i].shipId == shipId && ledger[i].year == year)
    ensures AdjustedCB(records, ledger, shipId, year) == Success(records[ShipYear(shipId, year)].cbGco2eq)
  {
    TotalBankedWithoutLines(ledger, shipId, year);
  }

  /** The balance `ComputeCB` stores: that of the first route the year filter returns. */
  function FirstRouteBalance(routes: seq<RouteProps>, year: int): (cb: Option<real>)
    ensures cb.None? <==> FindAll(routes, year) == []
    ensures cb.Some? ==>
              exists i :: FirstMatchAt(routes, year, i)
                          && cb.value == Calculations.ComplianceBalance(routes[i].ghgIntensity, routes[i].fuelConsumption)
  {
    var found := FindAll(routes, year);
    if |found| == 0 then None
    else
      FindAllHead(routes, year);
      Some(Calculations.ComplianceBalance(found[0].ghgIntensity, found[0].fuelConsumption))
  }

  /** `execute(shipId, year)`: the balance of the first route of the year (the ship id plays
      no part in choosing it), written over an existing record or into a new one. A new
      record is inserted before it is mapped through the `ShipCompliance` constructor, so a
      refused ship id or year still leaves the inserted row behind. */
  method ComputeCB(db: ComplianceDb, table: RouteTable, shipId: string, year: int)
      returns (r: Result<ShipCompliances.ShipComplianceProps, UseCaseError>)
    requires db.Valid()
    modifies db
    ensures db.Valid()
    ensures db.ledger == old(db.ledger)
    // no route for the year: nothing is written
    ensures FirstRouteBalance(table.routes, year).None? ==>
              r == Failure(NoRoutes(shipId, year)) && db.records == old(db.records)
    // an existing row that the entity refuses: the lookup fails, nothing is written
    ensures FirstRouteBalance(table.routes, year).Some? && ShipYear(shipId, year) in old(db.records)
            && ShipCompliances.Validate(shipId, year).Fail? ==>
              r == Failure(EntityRejected(ShipCompliances.Validate(shipId, year).error)) && db.records == old(db.records)
    // otherwise the row holds the first route's balance, and no other row changes
    ensures FirstRouteBalance(table.routes, year).Some?
            && (ShipYear(shipId, year) !in old(db.records) || ShipCompliances.Validate(shipId, year).Pass?) ==>
              && ShipYear(shipId, year) in db.records
              && db.records[ShipYear(shipId, year)].cbGco2eq == FirstRouteBalance(table.routes, year).value
              && (forall k :: k != ShipYear(shipId, year) ==> (k in db.records <==> k in old(db.records)))
              && (forall k :: k in old(db.records) && k != ShipYear(shipId, year) ==> db.records[k] == old(db.records)[k])
              && (ShipYear(shipId, year) in old(db.records) ==>
                    db.records[ShipYear(shipId, year)].id == old(db.records)[ShipYear(shipId, year)].id)
              && (r.Success? <==> ShipCompliances.Validate(shipId, year).Pass?)
              && (r.Success? ==> r.value == ShipCompliances.ShipComplianceProps(
                    Some(db.records[ShipYear(shipId, year)].id as int), shipId, year,
                    FirstRouteBalance(table.routes, year).value))
              && (r.Failure? ==> r.error == EntityRejected(ShipCompliances.Validate(shipId, year).error))
  {
    var routes := FindAll(table.routes, year);
    if |routes| == 0 {
      return Failure(NoRoutes(shipId, year));
    }
    var route := routes[0];
    var cb := Calculations.ComplianceBalance(route.ghgIntensity, route.fuelConsumption);
    var key := ShipYear(shipId, year);
    var validation := ShipCompliances.Validate(shipId, year);
    if key in db.records {
      var existing := Lookup(db.records, shipId, year);
      if existing.Failure? {
        return Failure(existing.error);
      }
      var row := existing.value.(cbGco2eq := cb);
      db.records := db.records[key := row];
      return Success(ShipCompliances.ShipComplianceProps(Some(row.id as int), shipId, year, cb));
    } else {
      var row := ComplianceRow(db.nextComplianceId, cb);
      db.records := db.records[key := row];
      db.nextComplianceId := db.nextComplianceId + 1;
      if validation.Fail? {
        return Failure(EntityRejected(validation.error));
      }
      return Success(ShipCompliances.ShipComplianceProps(Some(row.id as int), shipId, year, cb));
    }
  }
}
