/** The standalone in-memory banking handlers (frontend/my-app/backend-banking-routes.js):
    a map of ship balances and an append-only list of banking records, updated in place by
    the bank and apply handlers.

    Request fields: an empty `shipId` and a `year` of 0 stand for a field that is absent or
    falsy; an `amount` of `None` stands for `amount === undefined`. */
module BankingRoutes {
  import opened Wrappers

  /** One ship's entry in `shipBalances`. */
  datatype Balance = Balance(cb: real, banked: real)

  datatype Action = BankAction | ApplyAction

  /** One element of `bankingRecords` (the timestamp is left out). */
  datatype BankingRecord = BankingRecord(
    id: nat, shipId: string, action: Action, amount: real, cbBefore: real, cbAfter: real)

  /** The `data` of a successful bank or apply reply. */
  datatype Reply = Reply(cbBefore: real, applied: real, cbAfter: real)

  /** The 400 replies of the handlers. */
  datatype HandlerError =
    | FieldsRequired           // "shipId, year, and amount are required"
    | ShipAndYearRequired      // "shipId and year are required"
    | NonPositiveAmount        // "Cannot bank non-positive compliance balance"
    | InsufficientBanked(available: real)
    | ShipIdRequired           // "shipId is required"

  /** Banking `amount`: it leaves the balance and goes into the bank. */
  function Banked(b: Balance, amount: real): (r: Balance)
    ensures r.cb + r.banked == b.cb + b.banked
    ensures amount > 0.0 ==> r.banked > b.banked && r.cb < b.cb
  {
    Balance(b.cb - amount, b.banked + amount)
  }

  /** Applying `amount`: it leaves the bank and goes back into the balance. */
  function Applied(b: Balance, amount: real): (r: Balance)
    ensures r.cb + r.banked == b.cb + b.banked
    ensures amount <= b.banked ==> r.banked >= 0.0
  {
    Balance(b.cb + amount, b.banked - amount)
  }

  /** Applying what was just banked restores the balance, and the other way round. */
  lemma AppliedUndoesBanked(b: Balance, amount: real)
    ensures Applied(Banked(b, amount), amount) == b
    ensures Banked(Applied(b, amount), amount) == b
  {
  }

  /** How a record moves the bank of its ship. */
  function BankDelta(r: BankingRecord): real
  {
    match r.action
    case BankAction => r.amount
    case ApplyAction => -r.amount
  }

  /** What the records of `shipId` put into the bank, net of what they took out. */
  function NetBanked(records: seq<BankingRecord>, shipId: string): real
  {
    if |records| == 0 then 0.0
    else
      var last := records[|records| - 1];
      NetBanked(records[..|records| - 1], shipId) + (if last.shipId == shipId then BankDelta(last) else 0.0)
  }

  lemma NetBankedAppend(records: seq<BankingRecord>, r: BankingRecord)
    ensures forall s :: NetBanked(records + [r], s) == NetBanked(records, s) + (if r.shipId == s then BankDelta(r) else 0.0)
  {
    assert (records + [r])[..|records|] == records;
  }

  /** The records of one ship, in the order they were appended (`filter`). */
  function ForShip(records: seq<BankingRecord>, shipId: string): (r: seq<BankingRecord>)
    ensures forall x :: x in r <==> x in records && x.shipId == shipId
    ensures |r| <= |records|
  {
    if |records| == 0 then []
    else
      var last := records[|records| - 1];
      ForShip(records[..|records| - 1], shipId) + (if last.shipId == shipId then [last] else [])
  }

  /** A new record shows up at the end of its own ship's history and nowhere else. */
  lemma {:induction false} ForShipAppend(records: seq<BankingRecord>, r: BankingRecord, shipId: string)
    ensures ForShip(records + [r], shipId) == ForShip(records, shipId) + (if r.shipId == shipId then [r] else [])
  {
    assert (records + [r])[..|records|] == records;
  }

  /** The reported balance of a record agrees with its action and amount. */
  predicate RecordConsistent(r: BankingRecord)
  {
    match r.action
    case BankAction => r.amount > 0.0 && r.cbAfter == r.cbBefore - r.amount
    case ApplyAction => r.cbAfter == r.cbBefore + r.amount
  }

  /** `POST /api/compliance/cb` as written: `shipBalances[shipId]?.cb || 15.5`, so a ship
      whose balance is exactly zero is reported at the placeholder 15.5. */
  function ComputeCbAsWritten(balances: map<string, Balance>, shipId: string, year: int): (r: Result<real, HandlerError>)
    ensures shipId == "" || year == 0 <==> r == Failure(ShipAndYearRequired)
    ensures r.Success? ==> r.value != 0.0
    ensures r.Success? && shipId in balances && balances[shipId].cb != 0.0 ==> r.value == balances[shipId].cb
  {
    if shipId == "" || year == 0 then Failure(ShipAndYearRequired)
    else if shipId in balances && balances[shipId].cb != 0.0 then Success(balances[shipId].cb)
    else Success(15.5)
  }

  /** A ship that has banked its whole balance is reported at 15.5 rather than 0. */
  lemma SettledShipReportedAsPlaceholder(balances: map<string, Balance>, shipId: string, year: int)
    requires shipId != "" && year != 0
    requires shipId in balances && balances[shipId].cb == 0.0
    ensures ComputeCbAsWritten(balances, shipId, year) == Success(15.5)
  {
  }

  /** `POST /api/compliance/cb` corrected: the placeholder 15.5 only stands in for a ship the
      map does not hold. */
  function ComputeCb(balances: map<string, Balance>, shipId: string, year: int): (r: Result<real, HandlerError>)
    ensures shipId == "" || year == 0 <==> r == Failure(ShipAndYearRequired)
    ensures r.Success? && shipId in balances ==> r.value == balances[shipId].cb
    ensures r.Success? && shipId !in balances ==> r.value == 15.5
    ensures ComputeCbAsWritten(balances, shipId, year).Success? && r.Success? && r.value != 0.0 ==>
              r == ComputeCbAsWritten(balances, shipId, year)
  {
    if shipId == "" || year == 0 then Failure(ShipAndYearRequired)
    else if shipId in balances then Success(balances[shipId].cb)
    else Success(15.5)
  }

  /** After banking, the corrected report is the balance the bank reply gave as `cbAfter`,
      zero included. */
  lemma ComputeCbAfterBank(balances: map<string, Balance>, shipId: string, year: int, b0: Balance, amount: real)
    requires shipId != "" && year != 0
    ensures ComputeCb(balances[shipId := Banked(b0, amount)], shipId, year) == Success(b0.cb - amount)
  {
  }

  /** Record ids count from 1 in append order, each record agrees with its action, every
      ship's bank holds exactly what its records put in net of what they took out and never
      goes negative, and ships not in the map have no records. */
  ghost predicate Consistent(balances: map<string, Balance>, records: seq<BankingRecord>)
  {
    && (forall i :: 0 <= i < |records| ==> records[i].id == i + 1)
    && (forall i :: 0 <= i < |records| ==> RecordConsistent(records[i]))
    && (forall s :: s in balances ==> balances[s].banked == NetBanked(records, s) && balances[s].banked >= 0.0)
    && (forall s :: s !in balances ==> NetBanked(records, s) == 0.0)
  }

  /** Entering an unseen ship with nothing banked keeps the state consistent. */
  lemma EnterShipKeepsConsistent(balances: map<string, Balance>, records: seq<BankingRecord>, shipId: string, cb: real)
    requires Consistent(balances, records) && shipId !in balances
    ensures Consistent(balances[shipId := Balance(cb, 0.0)], records)
  {
  }

  /** Appending a record and moving its ship's bank by the record's amount keeps the state
      consistent, provided the bank stays non-negative. */
  lemma RecordKeepsConsistent(balances: map<string, Balance>, records: seq<BankingRecord>, b: Balance, r: BankingRecord)
    requires Consistent(balances, records) && r.shipId in balances
    requires r.id == |records| + 1 && RecordConsistent(r)
    requires b.banked == balances[r.shipId].banked + BankDelta(r) && b.banked >= 0.0
    ensures Consistent(balances[r.shipId := b], records + [r])
  {
    NetBankedAppend(records, r);
    var m := balances[r.shipId := b];
    var rs := records + [r];
    forall i | 0 <= i < |rs|
      ensures rs[i].id == i + 1 && RecordConsistent(rs[i])
    {
      if i < |records| {
        assert rs[i] == records[i];
      }
    }
  }

  /** The module-level state of the handlers. */
  class BankingState {
    var shipBalances: map<string, Balance>
    var bankingRecords: seq<BankingRecord>

    /** Record ids count from 1 in append order; every ship's bank holds exactly what its
        records put in net of what they took out, and never goes negative; ships not in the
        map have no records. */
    ghost predicate Valid()
      reads this
    {
      Consistent(shipBalances, bankingRecords)
    }

    /** The initial state: one ship, SHIP001, with a balance of 15.5 and nothing banked. */
    constructor ()
      ensures Valid()
      ensures shipBalances == map["SHIP001" := Balance(15.5, 0.0)] && bankingRecords == []
    {
      shipBalances := map["SHIP001" := Balance(15.5, 0.0)];
      bankingRecords := [];
    }

    /** `POST /api/banking/bank`. */
    method Bank(shipId: string, year: int, amount: Option<real>) returns (r: Result<Reply, HandlerError>)
      requires Valid()
      modifies this
      ensures Valid()
      ensures r.Success? <==> shipId != "" && year != 0 && amount.Some? && amount.value > 0.0
      ensures shipId == "" || year == 0 || amount.None? ==> r == Failure(FieldsRequired)
      ensures shipId != "" && year != 0 && amount.Some? && amount.value <= 0.0 ==> r == Failure(NonPositiveAmount)
      ensures r.Failure? ==> unchanged(this)
      ensures r.Success? ==>
                var b0 := if shipId in old(shipBalances) then old(shipBalances)[shipId] else Balance(amount.value, 0.0);
                && shipBalances == old(shipBalances)[shipId := Banked(b0, amount.value)]
                && bankingRecords == old(bankingRecords)
                     + [BankingRecord(|old(bankingRecords)| + 1, shipId, BankAction, amount.value, b0.cb, b0.cb - amount.value)]
                && r.value == Reply(b0.cb, amount.value, b0.cb - amount.value)
    {
      if shipId == "" || year == 0 || amount.None? {
        return Failure(FieldsRequired);
      }
      var x := amount.value;
      if x <= 0.0 {
        return Failure(NonPositiveAmount);
      }
      if shipId !in shipBalances {
        EnterShipKeepsConsistent(shipBalances, bankingRecords, shipId, x);
        shipBalances := shipBalances[shipId := Balance(x, 0.0)];
      }
      var cbBefore := shipBalances[shipId].cb;
      var after := Banked(shipBalances[shipId], x);
      var record := BankingRecord(|bankingRecords| + 1, shipId, BankAction, x, cbBefore, after.cb);
      RecordKeepsConsistent(shipBalances, bankingRecords, after, record);
      shipBalances := shipBalances[shipId := after];
      var cbAfter := after.cb;
      bankingRecords := bankingRecords + [record];
      return Success(Reply(cbBefore, x, cbAfter));
    }

    /** `POST /api/banking/apply`: an unseen ship is entered with nothing in it even when
        the request then fails, and a negative amount is not refused. */
    method Apply(shipId: string, year: int, amount: Option<real>) returns (r: Result<Reply, HandlerError>)
      requires Valid()
      modifies this
      ensures Valid()
      ensures shipId == "" || year == 0 || amount.None? ==> r == Failure(FieldsRequired) && unchanged(this)
      ensures shipId != "" && year != 0 && amount.Some? ==>
                var b0 := if shipId in old(shipBalances) then old(shipBalances)[shipId] else Balance(0.0, 0.0);
                && (r.Success? <==> amount.value <= b0.banked)
                && (r.Failure? ==>
                      && r == Failure(InsufficientBanked(b0.banked))
                      && shipBalances == old(shipBalances)[shipId := b0]
                      && bankingRecords == old(bankingRecords))
                && (r.Success? ==>
                      && shipBalances == old(shipBalances)[shipId := Applied(b0, amount.value)]
                      && bankingRecords == old(bankingRecords)
                           + [BankingRecord(|old(bankingRecords)| + 1, shipId, ApplyAction, amount.value, b0.cb, b0.cb + amount.value)]
                      && r.value == Reply(b0.cb, amount.value, b0.cb + amount.value))
    {
      if shipId == "" || year == 0 || amount.None? {
        return Failure(FieldsRequired);
      }
      var x := amount.value;
      if shipId !in shipBalances {
        EnterShipKeepsConsistent(shipBalances, bankingRecords, shipId, 0.0);
        shipBalances := shipBalances[shipId := Balance(0.0, 0.0)];
      }
      if x > shipBalances[shipId].banked {
        return Failure(InsufficientBanked(shipBalances[shipId].banked));
      }
      var cbBefore := shipBalances[shipId].cb;
      var after := Applied(shipBalances[shipId], x);
      var record := BankingRecord(|bankingRecords| + 1, shipId, ApplyAction, x, cbBefore, after.cb);
      RecordKeepsConsistent(shipBalances, bankingRecords, after, record);
      shipBalances := shipBalances[shipId := after];
      var cbAfter := after.cb;
      bankingRecords := bankingRecords + [record];
      return Success(Reply(cbBefore, x, cbAfter));
    }

    /** `GET /api/banking/records`: the ship's own records, in append order. */
    function Records(shipId: string): (r: Result<seq<BankingRecord>, HandlerError>)
      reads this
      ensures shipId == "" <==> r == Failure(ShipIdRequired)
      ensures r.Success? ==> forall x :: x in r.value <==> x in bankingRecords && x.shipId == shipId
      ensures r.Success? ==> r.value == ForShip(bankingRecords, shipId)
    {
      if shipId == "" then Failure(ShipIdRequired) else Success(ForShip(bankingRecords, shipId))
    }

    /** In a valid state, every ship's bank is the net of its own records. */
    lemma BankedIsNetOfRecords(shipId: string)
      requires Valid() && shipId in shipBalances
      ensures shipBalances[shipId].banked == NetBanked(ForShip(bankingRecords, shipId), shipId)
      ensures shipBalances[shipId].banked >= 0.0
    {
      NetBankedOfOwnRecords(bankingRecords, shipId);
    }
  }

  /** Only a ship's own records count towards its bank. */
  lemma {:induction false} NetBankedOfOwnRecords(records: seq<BankingRecord>, shipId: string)
    ensures NetBanked(ForShip(records, shipId), shipId) == NetBanked(records, shipId)
  {
    if |records| > 0 {
      var init := records[..|records| - 1];
      var last := records[|records| - 1];
      NetBankedOfOwnRecords(init, shipId);
      assert records == init + [last];
      if last.shipId == shipId {
        NetBankedAppend(ForShip(init, shipId), last);
        assert ForShip(records, shipId) == ForShip(init, shipId) + [last];
      } else {
        assert ForShip(records, shipId) == ForShip(init, shipId) + [];
        assert ForShip(init, shipId) + [] == ForShip(init, shipId);
      }
    }
  }
}
