/** The two stores the compliance and banking use cases work on, as the repositories
    present them: ship compliance records keyed by ship and year
    (backend/src/adapters/outbound/postgres/repositories/ShipComplianceRepository.ts) and the
    banking ledger (backend/src/adapters/outbound/postgres/repositories/BankEntryRepository.ts). */
module ComplianceStore {
  import opened Wrappers
  import ShipCompliances
  import opened BankEntries
  import Pools

  datatype ShipYear = ShipYear(shipId: string, year: int)

  /** A stored compliance record: its serial id and its balance. */
  datatype ComplianceRow = ComplianceRow(id: nat, cbGco2eq: real)

  /** A stored ledger line. */
  datatype LedgerRow = LedgerRow(id: nat, shipId: string, year: int, amountGco2eq: real)

  /** Every way a compliance, banking or pooling use case can fail. */
  datatype UseCaseError =
    | NoComplianceData(shipId: string, year: int)
    | EntityRejected(message: string)
    | CannotBankDeficitOrZero
    | AmountNotPositive
    | InsufficientBanked(available: real, requested: real)
    | NoRoutes(shipId: string, year: int)
    | PoolRejected(reason: Pools.PoolError)
    | DuplicateShip(shipId: string)

  /** `findByShipAndYear`: a missing row is "no compliance data"; a present row is mapped
      through the `ShipCompliance` constructor, which refuses an empty ship id or a year
      before 2025. */
  function Lookup(records: map<ShipYear, ComplianceRow>, shipId: string, year: int): (r: Result<ComplianceRow, UseCaseError>)
    ensures r.Success? <==> ShipYear(shipId, year) in records && ShipCompliances.Validate(shipId, year).Pass?
    ensures r.Success? ==> r.value == records[ShipYear(shipId, year)]
    ensures ShipYear(shipId, year) !in records ==> r == Failure(NoComplianceData(shipId, year))
    ensures ShipYear(shipId, year) in records && ShipCompliances.Validate(shipId, year).Fail? ==>
              r == Failure(EntityRejected(ShipCompliances.Validate(shipId, year).error))
  {
    var key := ShipYear(shipId, year);
    if key !in records then Failure(NoComplianceData(shipId, year))
    else
      match ShipCompliances.Validate(shipId, year)
      case Fail(message) => Failure(EntityRejected(message))
      case Pass => Success(records[key])
  }

  /** `getTotalBanked`: the sum of the ledger amounts of one ship and year, zero when there
      are none (`COALESCE(SUM(...), 0)`). */
  function TotalBanked(ledger: seq<LedgerRow>, shipId: string, year: int): real
  {
    if |ledger| == 0 then 0.0
    else (if ledger[0].shipId == shipId && ledger[0].year == year then ledger[0].amountGco2eq else 0.0)
         + TotalBanked(ledger[1..], shipId, year)
  }

  /** Appending a line adds its amount to its own ship and year, and nothing elsewhere. */
  lemma {:induction false} TotalBankedAppend(ledger: seq<LedgerRow>, row: LedgerRow, shipId: string, year: int)
    ensures TotalBanked(ledger + [row], shipId, year)
         == TotalBanked(ledger, shipId, year) + (if row.shipId == shipId && row.year == year then row.amountGco2eq else 0.0)
  {
    if |ledger| > 0 {
      assert (ledger + [row])[1..] == ledger[1..] + [row];
      TotalBankedAppend(ledger[1..], row, shipId, year);
    } else {
      assert ([] + [row])[1..] == [];
    }
  }

  /** With no line for the ship and year, the total is zero. */
  lemma {:induction false} TotalBankedWithoutLines(ledger: seq<LedgerRow>, shipId: string, year: int)
    requires forall i :: 0 <= i < |ledger| ==> !(ledger[i].shipId == shipId && ledger[i].year == year)
    ensures TotalBanked(ledger, shipId, year) == 0.0
  {
    if |ledger| > 0 {
      TotalBankedWithoutLines(ledger[1..], shipId, year);
    }
  }

  /** The line as the ledger check sees it. */
  function EntryProps(row: LedgerRow): BankEntryProps
  {
    BankEntryProps(Some(row.id), row.shipId, row.year, row.amountGco2eq)
  }

  /** The compliance and ledger tables. Row ids are serials: ledger ids count from 1 in
      insertion order, and compliance ids are below the next free id. */
  class ComplianceDb {
    var records: map<ShipYear, ComplianceRow>
    var ledger: seq<LedgerRow>
    var nextComplianceId: nat

    /** Serial ids, and every ledger line is one the (corrected) ledger check accepts,
        so mapping a stored line back to an entry never fails. */
    predicate Valid()
      reads this
    {
      && (forall i :: 0 <= i < |ledger| ==> ledger[i].id == i + 1 && NewLedgerEntry(EntryProps(ledger[i])).Success?)
      && (forall k :: k in records ==> records[k].id < nextComplianceId)
    }

    constructor ()
      ensures Valid()
      ensures records == map[] && ledger == [] && nextComplianceId == 1
    {
      records := map[];
      ledger := [];
      nextComplianceId := 1;
    }
  }
}
