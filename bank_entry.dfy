/** A banking ledger line (backend/src/core/domain/entities/BankEntry.ts): immutable once
    built. `NewBankEntry` is the constructor as written, which refuses any amount that is
    not strictly positive; `NewLedgerEntry` is the corrected check, which accepts the
    negative lines that applying banked surplus writes. */
module BankEntries {
  import opened Wrappers

  datatype BankEntryProps = BankEntryProps(
    id: Option<int>, shipId: string, year: int, amountGco2eq: real)

  datatype BankEntry = BankEntry(props: BankEntryProps)
  {
    function ShipId(): string { props.shipId }
    function Year(): int { props.year }
    function AmountGco2eq(): real { props.amountGco2eq }

    /** `toJSON`: a copy of the props. */
    function ToJSON(): BankEntryProps { props }
  }

  /** `new BankEntry(props)` as written: a missing ship id, then a non-positive amount, fail. */
  function NewBankEntry(p: BankEntryProps): (r: Result<BankEntry, string>)
    ensures r.Success? <==> p.shipId != "" && p.amountGco2eq > 0.0
    ensures p.shipId == "" ==> r == Failure("Ship ID is required")
    ensures p.shipId != "" && p.amountGco2eq <= 0.0 ==> r == Failure("Bank amount must be positive")
    ensures r.Success? ==> r.value.ToJSON() == p
  {
    if p.shipId == "" then Failure("Ship ID is required")
    else if p.amountGco2eq <= 0.0 then Failure("Bank amount must be positive")
    else Success(BankEntry(p))
  }

  /** The corrected ledger-line check: only a zero amount is refused, so both banked
      (positive) and applied (negative) lines are representable. */
  function NewLedgerEntry(p: BankEntryProps): (r: Result<BankEntry, string>)
    ensures r.Success? <==> p.shipId != "" && p.amountGco2eq != 0.0
    ensures r.Success? ==> r.value.ToJSON() == p
    ensures NewBankEntry(p).Success? ==> r == NewBankEntry(p)
  {
    if p.shipId == "" then Failure("Ship ID is required")
    else if p.amountGco2eq == 0.0 then Failure("Bank amount must be non-zero")
    else Success(BankEntry(p))
  }

  /** Every entry the as-written constructor accepts has a strictly positive amount,
      and its getters give back exactly the props it was built from. */
  lemma BankEntryAmountPositive(p: BankEntryProps)
    requires NewBankEntry(p).Success?
    ensures NewBankEntry(p).value.AmountGco2eq() > 0.0
    ensures NewBankEntry(p).value.ShipId() == p.shipId && NewBankEntry(p).value.Year() == p.year
  {
  }

  /** The line that applying `amount` of banked surplus writes (amount -x for x > 0) is
      refused by the as-written constructor, so mapping it back to an entry fails. */
  lemma AppliedLineRejectedAsWritten(shipId: string, year: int, amount: real)
    requires shipId != "" && amount > 0.0
    ensures NewBankEntry(BankEntryProps(None, shipId, year, -amount))
         == Failure("Bank amount must be positive")
  {
  }

  /** The corrected check accepts both the banked line and the applied line. */
  lemma LedgerEntryAcceptsWrittenLines(shipId: string, year: int, amount: real)
    requires shipId != "" && amount > 0.0
    ensures NewLedgerEntry(BankEntryProps(None, shipId, year, amount)).Success?
    ensures NewLedgerEntry(BankEntryProps(None, shipId, year, -amount)).Success?
    ensures NewLedgerEntry(BankEntryProps(None, shipId, year, -amount)).value.AmountGco2eq() == -amount
  {
  }
}
