/** The banking use cases: banking a surplus
    (backend/src/core/application/use-cases/banking/BankSurplus.usecase.ts) and applying
    banked surplus (backend/src/core/application/use-cases/banking/ApplyBanked.usecase.ts).
    Both move balance between the compliance record and the ledger, so neither changes
    the adjusted balance of any ship and year. */
module BankingUseCases {
  import opened Wrappers
  import opened ComplianceStore
  import opened BankEntries
  import opened ComplianceUseCases

  /** Moving `amount` from the ledger into the record of (shipId, year), or back (a negative
      amount), leaves every adjusted balance as it was. */
  lemma MoveKeepsAdjusted(records: map<ShipYear, ComplianceRow>, ledger: seq<LedgerRow>,
                          shipId: string, year: int, row: LedgerRow, s: string, y: int)
    requires ShipYear(shipId, year) in records
    requires row.shipId == shipId && row.year == year
    ensures AdjustedCB(records[ShipYear(shipId, year) := records[ShipYear(shipId, year)].(cbGco2eq :=
                         records[ShipYear(shipId, year)].cbGco2eq - row.amountGco2eq)],
                       ledger + [row], s, y)
         == AdjustedCB(records, ledger, s, y)
  {
    TotalBankedAppend(ledger, row, s, y);
  }

  /** `execute(shipId, year)`: the whole positive balance goes into one new ledger line and
      the record is reset to zero. */
  method BankSurplus(db: ComplianceDb, shipId: string, year: int) returns (r: Result<BankEntry, UseCaseError>)
    requires db.Valid()
    modifies db
    ensures db.Valid()
    ensures db.nextComplianceId == old(db.nextComplianceId)
    ensures Lookup(old(db.records), shipId, year).Failure? ==>
              r == Failure(Lookup(old(db.records), shipId, year).error)
              && db.records == old(db.records) && db.ledger == old(db.ledger)
    ensures Lookup(old(db.records), shipId, year).Success? && Lookup(old(db.records), shipId, year).value.cbGco2eq <= 0.0 ==>
              r == Failure(CannotBankDeficitOrZero) && db.records == old(db.records) && db.ledger == old(db.ledger)
    ensures Lookup(old(db.records), shipId, year).Success? && Lookup(old(db.records), shipId, year).value.cbGco2eq > 0.0 ==>
              var cb := Lookup(old(db.records), shipId, year).value.cbGco2eq;
              var line := LedgerRow(|old(db.ledger)| + 1, shipId, year, cb);
              && db.ledger == old(db.ledger) + [line]
              && db.records == old(db.records)[ShipYear(shipId, year) := old(db.records)[ShipYear(shipId, year)].(cbGco2eq := 0.0)]
              && r == Success(BankEntry(EntryProps(line)))
    ensures forall s, y :: AdjustedCB(db.records, db.ledger, s, y) == AdjustedCB(old(db.records), old(db.ledger), s, y)
  {
    var found := Lookup(db.records, shipId, year);
    if found.Failure? {
      return Failure(found.error);
    }
    var compliance := found.value;
    if !(compliance.cbGco2eq > 0.0) {
      return Failure(CannotBankDeficitOrZero);
    }
    var key := ShipYear(shipId, year);
    ghost var records0, ledger0 := db.records, db.ledger;
    var line := LedgerRow(|db.ledger| + 1, shipId, year, compliance.cbGco2eq);
    db.ledger := db.ledger + [line];
    db.records := db.records[key := compliance.(cbGco2eq := 0.0)];
    forall s, y ensures AdjustedCB(db.records, db.ledger, s, y) == AdjustedCB(records0, ledger0, s, y) {
      MoveKeepsAdjusted(records0, ledger0, shipId, year, line, s, y);
    }
    // the repository maps the inserted line back through the ledger-line check
    var entry := NewLedgerEntry(EntryProps(line));
    r := Success(entry.value);
  }

  datatype ApplyResult = ApplyResult(cbBefore: real, applied: real, cbAfter: real)

  /** The checks an apply must pass: a readable record, and a positive amount no larger
      than the banked total. */
  predicate ApplyPasses(records: map<ShipYear, ComplianceRow>, ledger: seq<LedgerRow>, shipId: string, year: int, amount: real)
  {
    Lookup(records, shipId, year).Success? && 0.0 < amount <= TotalBanked(ledger, shipId, year)
  }

  /** `execute(shipId, year, amount)`, corrected: after the checks (a record exists, the
      amount is positive, and no more than the banked total), the amount is added to the
      record and a negative ledger line records its use; the inserted line is mapped back
      through the ledger-line check, which accepts it. */
  method ApplyBanked(db: ComplianceDb, shipId: string, year: int, amount: real) returns (r: Result<ApplyResult, UseCaseError>)
    requires db.Valid()
    modifies db
    ensures db.Valid()
    ensures db.nextComplianceId == old(db.nextComplianceId)
    ensures r.Failure? ==> db.records == old(db.records) && db.ledger == old(db.ledger)
    ensures r.Success? <==> ApplyPasses(old(db.records), old(db.ledger), shipId, year, amount)
    ensures Lookup(old(db.records), shipId, year).Failure? ==> r == Failure(Lookup(old(db.records), shipId, year).error)
    ensures Lookup(old(db.records), shipId, year).Success? && amount <= 0.0 ==> r == Failure(AmountNotPositive)
    ensures Lookup(old(db.records), shipId, year).Success? && amount > 0.0
            && amount > TotalBanked(old(db.ledger), shipId, year) ==>
              r == Failure(InsufficientBanked(TotalBanked(old(db.ledger), shipId, year), amount))
    ensures Lookup(old(db.records), shipId, year).Success? && 0.0 < amount <= TotalBanked(old(db.ledger), shipId, year) ==>
              var cb := Lookup(old(db.records), shipId, year).value.cbGco2eq;
              && r == Success(ApplyResult(cb, amount, cb + amount))
              && db.records == old(db.records)[ShipYear(shipId, year) := old(db.records)[ShipYear(shipId, year)].(cbGco2eq := cb + amount)]
              && db.ledger == old(db.ledger) + [LedgerRow(|old(db.ledger)| + 1, shipId, year, -amount)]
              && TotalBanked(db.ledger, shipId, year) == TotalBanked(old(db.ledger), shipId, year) - amount
              && TotalBanked(db.ledger, shipId, year) >= 0.0
    ensures forall s, y :: AdjustedCB(db.records, db.ledger, s, y) == AdjustedCB(old(db.records), old(db.ledger), s, y)
  {
    var found := Lookup(db.records, shipId, year);
    if found.Failure? {
      return Failure(found.error);
    }
    var compliance := found.value;
    var totalBanked := TotalBanked(db.ledger, shipId, year);
    if amount <= 0.0 {
      return Failure(AmountNotPositive);
    }
    if amount > totalBanked {
      return Failure(InsufficientBanked(totalBanked, amount));
    }
    var cbBefore := compliance.cbGco2eq;
    var cbAfter := cbBefore + amount;
    var key := ShipYear(shipId, year);
    ghost var records0, ledger0 := db.records, db.ledger;
    db.records := db.records[key := compliance.(cbGco2eq := cbAfter)];
    var line := LedgerRow(|db.ledger| + 1, shipId, year, -amount);
    db.ledger := db.ledger + [line];
    assert NewLedgerEntry(EntryProps(line)).Success?;
    TotalBankedAppend(ledger0, line, shipId, year);
    forall s, y ensures AdjustedCB(db.records, db.ledger, s, y) == AdjustedCB(records0, ledger0, s, y) {
      MoveKeepsAdjusted(records0, ledger0, shipId, year, line, s, y);
    }
    r := Success(ApplyResult(cbBefore, amount, cbAfter));
  }

  /** `execute(shipId, year, amount)` as written: the same checks and the same two writes,
      but the bank-entry repository maps the inserted negative line through `BankEntry`,
      whose check refuses it. The caller gets that error although the record update and the
      ledger line both stand. */
  method ApplyBankedAsWritten(db: ComplianceDb, shipId: string, year: int, amount: real) returns (r: Result<ApplyResult, UseCaseError>)
    requires db.Valid()
    modifies db
    ensures db.Valid()
    ensures db.nextComplianceId == old(db.nextComplianceId)
    ensures r.Failure?
    ensures r == Failure(EntityRejected("Bank amount must be positive"))
            <==> ApplyPasses(old(db.records), old(db.ledger), shipId, year, amount)
    ensures !ApplyPasses(old(db.records), old(db.ledger), shipId, year, amount) ==>
              db.records == old(db.records) && db.ledger == old(db.ledger)
    ensures Lookup(old(db.records), shipId, year).Failure? ==> r == Failure(Lookup(old(db.records), shipId, year).error)
    ensures Lookup(old(db.records), shipId, year).Success? && amount <= 0.0 ==> r == Failure(AmountNotPositive)
    ensures Lookup(old(db.records), shipId, year).Success? && amount > 0.0
            && amount > TotalBanked(old(db.ledger), shipId, year) ==>
              r == Failure(InsufficientBanked(TotalBanked(old(db.ledger), shipId, year), amount))
    ensures ApplyPasses(old(db.records), old(db.ledger), shipId, year, amount) ==>
              var cb := Lookup(old(db.records), shipId, year).value.cbGco2eq;
              && db.records == old(db.records)[ShipYear(shipId, year) := old(db.records)[ShipYear(shipId, year)].(cbGco2eq := cb + amount)]
              && db.ledger == old(db.ledger) + [LedgerRow(|old(db.ledger)| + 1, shipId, year, -amount)]
    ensures forall s, y :: AdjustedCB(db.records, db.ledger, s, y) == AdjustedCB(old(db.records), old(db.ledger), s, y)
  {
    var applied := ApplyBanked(db, shipId, year, amount);
    if applied.Failure? {
      assert applied.error != EntityRejected("Bank amount must be positive");
      return Failure(applied.error);
    }
    // the repository's `mapToEntity` runs the inserted line through `new BankEntry`
    var line := db.ledger[|db.ledger| - 1];
    var entry := NewBankEntry(EntryProps(line));
    assert entry == Failure("Bank amount must be positive");
    r := Failure(EntityRejected(entry.error));
  }
}
