/** Creating a pool (backend/src/core/application/use-cases/pooling/CreatePool.usecase.ts):
    gather each ship's stored balance, allocate, build the pool, then write each member's
    balance after pooling back to its compliance record. */
module PoolingUseCase {
  import opened Wrappers
  import opened Pools
  import opened PoolSorting
  import opened PoolAllocation
  import opened ComplianceStore

  /** The members the gathering loop builds: one per requested ship id, in order, with both
      balances set to the stored one; the first ship without a readable record fails. */
  function GatherMembers(records: map<ShipYear, ComplianceRow>, year: int, shipIds: seq<string>): (r: Result<seq<PoolMember>, UseCaseError>)
    ensures r.Success? <==> forall i :: 0 <= i < |shipIds| ==> Lookup(records, shipIds[i], year).Success?
    ensures r.Success? ==>
              && |r.value| == |shipIds|
              && forall i :: 0 <= i < |shipIds| ==>
                   r.value[i] == PoolMember(shipIds[i], records[ShipYear(shipIds[i], year)].cbGco2eq,
                                            records[ShipYear(shipIds[i], year)].cbGco2eq)
    ensures r.Failure? ==>
              exists i :: 0 <= i < |shipIds| && Lookup(records, shipIds[i], year).Failure?
                          && r.error == Lookup(records, shipIds[i], year).error
                          && forall j :: 0 <= j < i ==> Lookup(records, shipIds[j], year).Success?
  {
    if |shipIds| == 0 then Success([])
    else
      var n := |shipIds| - 1;
      var prefix := GatherMembers(records, year, shipIds[..n]);
      assert forall i :: 0 <= i < n ==> shipIds[..n][i] == shipIds[i];
      if prefix.Failure? then prefix
      else
        match Lookup(records, shipIds[n], year)
        case Failure(e) => Failure(e)
        case Success(row) => Success(prefix.value + [PoolMember(shipIds[n], row.cbGco2eq, row.cbGco2eq)])
  }

  /** The gathered members carry the requested ids and start balanced. */
  lemma GatheredMembers(records: map<ShipYear, ComplianceRow>, year: int, shipIds: seq<string>)
    requires GatherMembers(records, year, shipIds).Success?
    ensures ShipIdsOf(GatherMembers(records, year, shipIds).value) == shipIds
    ensures Balanced(GatherMembers(records, year, shipIds).value)
  {
    ShipIdsAt(GatherMembers(records, year, shipIds).value);
  }

  /** One step of the write-back loop: a ship with a record gets its balance after pooling. */
  function WriteOne(records: map<ShipYear, ComplianceRow>, year: int, m: PoolMember): map<ShipYear, ComplianceRow>
  {
    var key := ShipYear(m.shipId, year);
    if key in records then records[key := records[key].(cbGco2eq := m.cbAfter)] else records
  }

  /** The write-back loop over the allocation members, in order; a later write to the same
      ship overwrites an earlier one. */
  function WriteBack(records: map<ShipYear, ComplianceRow>, year: int, ms: seq<PoolMember>): (r: map<ShipYear, ComplianceRow>)
    ensures r.Keys == records.Keys
    ensures forall k :: k in records ==> r[k].id == records[k].id
  {
    if |ms| == 0 then records else WriteBack(WriteOne(records, year, ms[0]), year, ms[1..])
  }

  /** Records of other ships, and of other years, are not touched. */
  lemma {:induction false} WriteBackOutside(records: map<ShipYear, ComplianceRow>, year: int, ms: seq<PoolMember>, k: ShipYear)
    requires k in records
    requires k.year != year || k.shipId !in ShipIdsOf(ms)
    ensures WriteBack(records, year, ms)[k] == records[k]
  {
    if |ms| > 0 {
      ShipIdsAt(ms);
      assert ShipIdsOf(ms) == [ms[0].shipId] + ShipIdsOf(ms[1..]);
      WriteBackOutside(WriteOne(records, year, ms[0]), year, ms[1..], k);
    }
  }

  /** With distinct ship ids, every member's record ends with that member's balance after
      pooling. */
  lemma {:induction false} WriteBackDistinct(records: map<ShipYear, ComplianceRow>, year: int, ms: seq<PoolMember>)
    requires Distinct(ShipIdsOf(ms))
    requires forall i :: 0 <= i < |ms| ==> ShipYear(ms[i].shipId, year) in records
    ensures forall i :: 0 <= i < |ms| ==>
              WriteBack(records, year, ms)[ShipYear(ms[i].shipId, year)].cbGco2eq == ms[i].cbAfter
  {
    if |ms| > 0 {
      var next := WriteOne(records, year, ms[0]);
      ShipIdsAt(ms);
      assert ShipIdsOf(ms) == [ms[0].shipId] + ShipIdsOf(ms[1..]);
      DistinctCons(ms[0].shipId, ShipIdsOf(ms[1..]));
      WriteBackDistinct(next, year, ms[1..]);
      WriteBackOutside(next, year, ms[1..], ShipYear(ms[0].shipId, year));
      forall i | 1 <= i < |ms|
        ensures WriteBack(records, year, ms)[ShipYear(ms[i].shipId, year)].cbGco2eq == ms[i].cbAfter
      {
        assert ms[i] == ms[1..][i - 1];
      }
    }
  }

  /** The stored balances of the listed ships in one year, summed. */
  function StoredTotal(records: map<ShipYear, ComplianceRow>, year: int, shipIds: seq<string>): real
  {
    if |shipIds| == 0 then 0.0
    else (if ShipYear(shipIds[0], year) in records then records[ShipYear(shipIds[0], year)].cbGco2eq else 0.0)
         + StoredTotal(records, year, shipIds[1..])
  }

  lemma {:induction false} StoredTotalConcat(records: map<ShipYear, ComplianceRow>, year: int, a: seq<string>, b: seq<string>)
    ensures StoredTotal(records, year, a + b) == StoredTotal(records, year, a) + StoredTotal(records, year, b)
  {
    if |a| > 0 {
      assert (a + b)[1..] == a[1..] + b;
      StoredTotalConcat(records, year, a[1..], b);
    } else {
      assert a + b == b;
    }
  }

  lemma MultisetWithout(b: seq<string>, k: nat)
    requires k < |b|
    ensures multiset(b[..k] + b[k + 1..]) == multiset(b) - multiset{b[k]}
  {
    assert b == b[..k] + [b[k]] + b[k + 1..];
  }

  lemma StoredTotalWithout(records: map<ShipYear, ComplianceRow>, year: int, b: seq<string>, k: nat)
    requires k < |b|
    ensures StoredTotal(records, year, b)
            == StoredTotal(records, year, [b[k]]) + StoredTotal(records, year, b[..k] + b[k + 1..])
  {
    assert b == b[..k] + [b[k]] + b[k + 1..];
    StoredTotalConcat(records, year, b[..k] + [b[k]], b[k + 1..]);
    StoredTotalConcat(records, year, b[..k], [b[k]]);
    StoredTotalConcat(records, year, b[..k], b[k + 1..]);
  }

  /** The total does not depend on the order the ships are listed in. */
  lemma {:induction false} StoredTotalPermutation(records: map<ShipYear, ComplianceRow>, year: int, a: seq<string>, b: seq<string>)
    requires multiset(a) == multiset(b)
    ensures StoredTotal(records, year, a) == StoredTotal(records, year, b)
  {
    if |a| == 0 {
      assert |b| == |multiset(b)| == 0;
    } else {
      assert a[0] in multiset(b);
      var k :| 0 <= k < |b| && b[k] == a[0];
      MultisetWithout(a, 0);
      MultisetWithout(b, k);
      assert a[..0] + a[1..] == a[1..];
      StoredTotalPermutation(records, year, a[1..], b[..k] + b[k + 1..]);
      StoredTotalWithout(records, year, a, 0);
      StoredTotalWithout(records, year, b, k);
    }
  }

  /** Ships whose records hold exactly their balances after pooling total `SumAfter`. */
  lemma {:induction false} StoredTotalIsSumAfter(records: map<ShipYear, ComplianceRow>, year: int, ms: seq<PoolMember>)
    requires forall i :: 0 <= i < |ms| ==>
               ShipYear(ms[i].shipId, year) in records && records[ShipYear(ms[i].shipId, year)].cbGco2eq == ms[i].cbAfter
    ensures StoredTotal(records, year, ShipIdsOf(ms)) == SumAfter(ms)
  {
    if |ms| > 0 {
      assert ShipIdsOf(ms)[1..] == ShipIdsOf(ms[1..]);
      StoredTotalIsSumAfter(records, year, ms[1..]);
    }
  }

  /** Ships whose records hold exactly their balances before pooling total `SumBefore`. */
  lemma {:induction false} StoredTotalIsSumBefore(records: map<ShipYear, ComplianceRow>, year: int, ms: seq<PoolMember>)
    requires forall i :: 0 <= i < |ms| ==>
               ShipYear(ms[i].shipId, year) in records && records[ShipYear(ms[i].shipId, year)].cbGco2eq == ms[i].cbBefore
    ensures StoredTotal(records, year, ShipIdsOf(ms)) == SumBefore(ms)
  {
    if |ms| > 0 {
      assert ShipIdsOf(ms)[1..] == ShipIdsOf(ms[1..]);
      StoredTotalIsSumBefore(records, year, ms[1..]);
    }
  }

  /** The pool table (backend/src/adapters/outbound/postgres/repositories/PoolRepository.ts);
      pool ids are serials counting from 1. */
  class PoolTable {
    var pools: seq<Pool>
  }

  /** The gathering loop: reads each requested ship's record, in order, and stops at the
      first one it cannot read. */
  method Gather(db: ComplianceDb, year: int, shipIds: seq<string>) returns (r: Result<seq<PoolMember>, UseCaseError>)
    ensures r == GatherMembers(db.records, year, shipIds)
  {
    var members: seq<PoolMember> := [];
    var i := 0;
    while i < |shipIds|
      invariant 0 <= i <= |shipIds|
      invariant GatherMembers(db.records, year, shipIds[..i]) == Success(members)
    {
      var compliance := Lookup(db.records, shipIds[i], year);
      assert shipIds[..i + 1][..i] == shipIds[..i];
      if compliance.Failure? {
        GatherFailsFrom(db.records, year, shipIds, i + 1);
        return Failure(compliance.error);
      }
      members := members + [PoolMember(shipIds[i], compliance.value.cbGco2eq, compliance.value.cbGco2eq)];
      i := i + 1;
    }
    assert shipIds[..i] == shipIds;
    return Success(members);
  }

  /** The write-back loop: each member, in order, that has a record gets its balance after
      pooling. */
  method WriteBackMembers(db: ComplianceDb, year: int, ms: seq<PoolMember>)
    requires db.Valid()
    modifies db
    ensures db.Valid()
    ensures db.ledger == old(db.ledger) && db.nextComplianceId == old(db.nextComplianceId)
    ensures db.records == WriteBack(old(db.records), year, ms)
  {
    ghost var records0 := db.records;
    var j := 0;
    while j < |ms|
      invariant 0 <= j <= |ms|
      invariant db.Valid()
      invariant db.ledger == old(db.ledger) && db.nextComplianceId == old(db.nextComplianceId)
      invariant WriteBack(db.records, year, ms[j..]) == WriteBack(records0, year, ms)
    {
      var member := ms[j];
      var key := ShipYear(member.shipId, year);
      assert ms[j..][1..] == ms[j + 1..];
      if key in db.records {
        db.records := db.records[key := db.records[key].(cbGco2eq := member.cbAfter)];
      }
      j := j + 1;
    }
    assert ms[j..] == [];
  }

  /** For gathered (hence balanced) members, the allocated pool passes validation exactly
      when the stored balances sum to zero or more, and otherwise fails on the sum. */
  lemma AllocatedPoolOutcome(members: seq<PoolMember>, allocation: seq<PoolMember>)
    requires Balanced(members) && |members| >= 2
    requires AllocationOf(members, allocation)
    ensures ValidatePool(allocation).Pass? <==> SumBefore(members) >= 0.0
    ensures ValidatePool(allocation).Fail? ==> ValidatePool(allocation).error == NegativeSum
  {
    AllocationKeepsSumBefore(members, allocation);
  }

  /** `execute({ year, shipIds })` as written: the requested ids are not checked for
      repeats. */
  method CreatePool(db: ComplianceDb, table: PoolTable, year: int, shipIds: seq<string>) returns (r: Result<Pool, UseCaseError>)
    requires db.Valid()
    modifies db, table
    ensures db.Valid()
    ensures db.ledger == old(db.ledger) && db.nextComplianceId == old(db.nextComplianceId)
    ensures r.Failure? ==> db.records == old(db.records) && table.pools == old(table.pools)
    ensures |shipIds| < 2 ==> r == Failure(PoolRejected(TooFewMembers))
    ensures |shipIds| >= 2 && GatherMembers(old(db.records), year, shipIds).Failure? ==>
              r == Failure(GatherMembers(old(db.records), year, shipIds).error)
    ensures |shipIds| >= 2 && GatherMembers(old(db.records), year, shipIds).Success? ==>
              (r.Success? <==> SumBefore(GatherMembers(old(db.records), year, shipIds).value) >= 0.0)
              && (r.Failure? ==> r == Failure(PoolRejected(NegativeSum)))
    ensures r.Success? ==>
              && |shipIds| >= 2 && GatherMembers(old(db.records), year, shipIds).Success?
              && AllocationOf(GatherMembers(old(db.records), year, shipIds).value, r.value.members)
              && r.value == Pool(Some(|old(table.pools)| + 1), year, r.value.members)
              && NewPool(r.value.id, year, r.value.members) == Success(r.value)
              && table.pools == old(table.pools) + [r.value]
              && db.records == WriteBack(old(db.records), year, r.value.members)
  {
    if |shipIds| < 2 {
      return Failure(PoolRejected(TooFewMembers));
    }
    var gathered := Gather(db, year, shipIds);
    if gathered.Failure? {
      return Failure(gathered.error);
    }
    var members := gathered.value;
    GatheredMembers(db.records, year, shipIds);
    var allocation := Allocate(members);
    AllocatedPoolOutcome(members, allocation);
    var pool := NewPool(Some(|table.pools| + 1), year, allocation);
    if pool.Failure? {
      return Failure(PoolRejected(pool.error));
    }
    table.pools := table.pools + [pool.value];
    WriteBackMembers(db, year, allocation);
    return Success(pool.value);
  }

  /** A failure at position `n - 1` of the gathering makes the whole gathering fail with the
      same error. */
  lemma {:induction false} GatherFailsFrom(records: map<ShipYear, ComplianceRow>, year: int, shipIds: seq<string>, n: nat)
    requires 0 < n <= |shipIds|
    requires GatherMembers(records, year, shipIds[..n - 1]).Success?
    requires Lookup(records, shipIds[n - 1], year).Failure?
    ensures GatherMembers(records, year, shipIds).Failure?
    ensures GatherMembers(records, year, shipIds).error == Lookup(records, shipIds[n - 1], year).error
  {
    var g := GatherMembers(records, year, shipIds);
    var k :| 0 <= k < |shipIds| && Lookup(records, shipIds[k], year).Failure?
             && g.error == Lookup(records, shipIds[k], year).error
             && forall j :: 0 <= j < k ==> Lookup(records, shipIds[j], year).Success?;
    assert forall j :: 0 <= j < n - 1 ==> shipIds[..n - 1][j] == shipIds[j];
    assert k == n - 1;
  }

  /** Every ship the gathering loop read has a record. */
  lemma GatheredShipsStored(records: map<ShipYear, ComplianceRow>, year: int, shipIds: seq<string>)
    requires GatherMembers(records, year, shipIds).Success?
    ensures forall id :: id in shipIds ==> ShipYear(id, year) in records
  {
    forall id | id in shipIds
      ensures ShipYear(id, year) in records
    {
      var j :| 0 <= j < |shipIds| && shipIds[j] == id;
      assert Lookup(records, shipIds[j], year).Success?;
    }
  }

  /** The allocation lists the requested ids, in some order. */
  lemma AllocatedShipIds(records: map<ShipYear, ComplianceRow>, year: int, shipIds: seq<string>, allocation: seq<PoolMember>)
    requires GatherMembers(records, year, shipIds).Success?
    requires AllocationOf(GatherMembers(records, year, shipIds).value, allocation)
    ensures multiset(ShipIdsOf(allocation)) == multiset(shipIds)
    ensures Distinct(shipIds) ==> Distinct(ShipIdsOf(allocation))
  {
    GatheredMembers(records, year, shipIds);
    AllocationKeepsShipIds(GatherMembers(records, year, shipIds).value, allocation);
  }

  /** Each allocated member's ship has a record. */
  lemma AllocatedShipsStored(records: map<ShipYear, ComplianceRow>, year: int, shipIds: seq<string>, allocation: seq<PoolMember>)
    requires forall id :: id in shipIds ==> ShipYear(id, year) in records
    requires multiset(ShipIdsOf(allocation)) == multiset(shipIds)
    ensures forall i :: 0 <= i < |allocation| ==> ShipYear(allocation[i].shipId, year) in records
  {
    ShipIdsAt(allocation);
    forall i | 0 <= i < |allocation|
      ensures ShipYear(allocation[i].shipId, year) in records
    {
      assert ShipIdsOf(allocation)[i] in multiset(ShipIdsOf(allocation));
    }
  }

  /** Before pooling, the requested ships' stored total is what the gathered members hold. */
  lemma GatheredTotal(records: map<ShipYear, ComplianceRow>, year: int, shipIds: seq<string>)
    requires GatherMembers(records, year, shipIds).Success?
    ensures StoredTotal(records, year, shipIds) == SumAfter(GatherMembers(records, year, shipIds).value)
  {
    var members := GatherMembers(records, year, shipIds).value;
    GatheredMembers(records, year, shipIds);
    SumAfterBalanced(members);
    StoredTotalIsSumBefore(records, year, members);
  }

  /** With distinct ship ids, creating a pool leaves the requested ships' stored total as it
      was. */
  lemma CreatePoolConserves(records: map<ShipYear, ComplianceRow>, year: int, shipIds: seq<string>, allocation: seq<PoolMember>)
    requires Distinct(shipIds)
    requires GatherMembers(records, year, shipIds).Success?
    requires AllocationOf(GatherMembers(records, year, shipIds).value, allocation)
    ensures StoredTotal(WriteBack(records, year, allocation), year, shipIds) == StoredTotal(records, year, shipIds)
  {
    AllocatedShipIds(records, year, shipIds, allocation);
    GatheredShipsStored(records, year, shipIds);
    AllocatedShipsStored(records, year, shipIds, allocation);
    var written := WriteBack(records, year, allocation);
    WriteBackDistinct(records, year, allocation);
    StoredTotalIsSumAfter(written, year, allocation);
    StoredTotalPermutation(written, year, ShipIdsOf(allocation), shipIds);
    GatheredTotal(records, year, shipIds);
  }

  /** Two ships in 2025: A with a surplus of 10 and B with a deficit of 5. */
  function TwoShips(): map<ShipYear, ComplianceRow>
  {
    map[ShipYear("A", 2025) := ComplianceRow(1, 10.0), ShipYear("B", 2025) := ComplianceRow(2, -5.0)]
  }

  /** One more readable ship adds one member at the end. */
  lemma GatherSnoc(records: map<ShipYear, ComplianceRow>, year: int, ids: seq<string>, id: string)
    requires GatherMembers(records, year, ids).Success? && Lookup(records, id, year).Success?
    ensures GatherMembers(records, year, ids + [id])
            == Success(GatherMembers(records, year, ids).value
                       + [PoolMember(id, records[ShipYear(id, year)].cbGco2eq, records[ShipYear(id, year)].cbGco2eq)])
  {
    assert (ids + [id])[..|ids|] == ids;
  }

  /** The members gathered for the request `["A", "B", "B"]`, already in sorted order. */
  lemma DuplicateRequestMembers()
    ensures GatherMembers(TwoShips(), 2025, ["A", "B", "B"])
            == Success([PoolMember("A", 10.0, 10.0), PoolMember("B", -5.0, -5.0), PoolMember("B", -5.0, -5.0)])
  {
    var records := TwoShips();
    var ids := ["A", "B", "B"];
    assert ids[..2] == ["A", "B"] && ids[..2][..1] == ["A"] && ids[..2][..1][..0] == [];
    assert Lookup(records, "A", 2025) == Success(ComplianceRow(1, 10.0));
    assert Lookup(records, "B", 2025) == Success(ComplianceRow(2, -5.0));
    var a := PoolMember("A", 10.0, 10.0);
    var b := PoolMember("B", -5.0, -5.0);
    assert GatherMembers(records, 2025, []) == Success([]);
    GatherSnoc(records, 2025, [], "A");
    assert [] + ["A"] == ["A"];
    assert records[ShipYear("A", 2025)].cbGco2eq == 10.0 && records[ShipYear("B", 2025)].cbGco2eq == -5.0;
    assert [] + [a] == [a];
    assert GatherMembers(records, 2025, ["A"]) == Success([a]);
    GatherSnoc(records, 2025, ["A"], "B");
    assert ["A"] + ["B"] == ["A", "B"];
    assert [a] + [b] == [a, b];
    assert GatherMembers(records, 2025, ["A", "B"]) == Success([a, b]);
    GatherSnoc(records, 2025, ["A", "B"], "B");
    assert ["A", "B"] + ["B"] == ids;
    assert [a, b] + [b] == [a, b, b];
  }

  lemma DuplicateRequestSorted()
    ensures SortByCbDesc([PoolMember("A", 10.0, 10.0), PoolMember("B", -5.0, -5.0), PoolMember("B", -5.0, -5.0)])
            == [PoolMember("A", 10.0, 10.0), PoolMember("B", -5.0, -5.0), PoolMember("B", -5.0, -5.0)]
  {
    var s := [PoolMember("A", 10.0, 10.0), PoolMember("B", -5.0, -5.0), PoolMember("B", -5.0, -5.0)];
    assert s[1..] == [PoolMember("B", -5.0, -5.0), PoolMember("B", -5.0, -5.0)];
    assert s[1..][1..] == [PoolMember("B", -5.0, -5.0)];
    assert s[1..][1..][1..] == [];
  }

  /** Every allocation of that request drives all three members to zero. */
  lemma DuplicateRequestAllocation(allocation: seq<PoolMember>)
    requires KeepsShips([PoolMember("A", 10.0, 10.0), PoolMember("B", -5.0, -5.0), PoolMember("B", -5.0, -5.0)], allocation)
    requires SumAfter(allocation) == 0.0
    requires CoversEveryDeficit(allocation)
    ensures allocation == [PoolMember("A", 10.0, 0.0), PoolMember("B", -5.0, 0.0), PoolMember("B", -5.0, 0.0)]
  {
    assert allocation[1].cbAfter == 0.0 && allocation[2].cbAfter == 0.0;
    var rest := allocation[1..];
    assert rest[1..][1..] == [];
    assert SumAfter(rest[1..]) == allocation[2].cbAfter;
    assert SumAfter(rest) == allocation[1].cbAfter + allocation[2].cbAfter;
  }

  /** The parts of `AllocationOf` that fix a covered pool's balances after pooling. */
  lemma CoveredAllocation(members: seq<PoolMember>, allocation: seq<PoolMember>)
    requires AllocationOf(members, allocation)
    requires Balanced(members) && SumBefore(members) >= 0.0
    ensures KeepsShips(SortByCbDesc(members), allocation)
    ensures SumAfter(allocation) == SumBefore(members)
    ensures CoversEveryDeficit(allocation)
  {
    SumAfterBalanced(members);
  }

  /** Requesting B twice, as `CreatePool` allows: B's deficit is counted twice, so A hands
      over its whole surplus and the two ships' stored total falls from 5 to 0. */
  lemma DuplicateShipBreaksConservation(allocation: seq<PoolMember>)
    requires GatherMembers(TwoShips(), 2025, ["A", "B", "B"]).Success?
    requires AllocationOf(GatherMembers(TwoShips(), 2025, ["A", "B", "B"]).value, allocation)
    ensures StoredTotal(TwoShips(), 2025, ["A", "B"]) == 5.0
    ensures StoredTotal(WriteBack(TwoShips(), 2025, allocation), 2025, ["A", "B"]) == 0.0
  {
    DuplicateRequestMembers();
    DuplicateRequestZeroes(allocation);
    DuplicateRequestWriteBack();
    DuplicateRequestTotals();
  }

  /** The allocation of the three gathered members leaves each of them at zero. */
  lemma DuplicateRequestZeroes(allocation: seq<PoolMember>)
    requires AllocationOf([PoolMember("A", 10.0, 10.0), PoolMember("B", -5.0, -5.0), PoolMember("B", -5.0, -5.0)], allocation)
    ensures allocation == [PoolMember("A", 10.0, 0.0), PoolMember("B", -5.0, 0.0), PoolMember("B", -5.0, 0.0)]
  {
    var members := [PoolMember("A", 10.0, 10.0), PoolMember("B", -5.0, -5.0), PoolMember("B", -5.0, -5.0)];
    assert Balanced(members);
    assert SumBefore(members) == 0.0 by {
      assert members[1..][1..][1..] == [];
    }
    CoveredAllocation(members, allocation);
    DuplicateRequestSorted();
    DuplicateRequestAllocation(allocation);
  }

  lemma DuplicateRequestWriteBack()
    ensures WriteBack(TwoShips(), 2025, [PoolMember("A", 10.0, 0.0), PoolMember("B", -5.0, 0.0), PoolMember("B", -5.0, 0.0)])
            == map[ShipYear("A", 2025) := ComplianceRow(1, 0.0), ShipYear("B", 2025) := ComplianceRow(2, 0.0)]
  {
    var ms := [PoolMember("A", 10.0, 0.0), PoolMember("B", -5.0, 0.0), PoolMember("B", -5.0, 0.0)];
    assert ms[1..] == [PoolMember("B", -5.0, 0.0), PoolMember("B", -5.0, 0.0)];
    assert ms[1..][1..] == [PoolMember("B", -5.0, 0.0)];
    assert ms[1..][1..][1..] == [];
    var r1 := WriteOne(TwoShips(), 2025, ms[0]);
    assert r1 == map[ShipYear("A", 2025) := ComplianceRow(1, 0.0), ShipYear("B", 2025) := ComplianceRow(2, -5.0)];
    var r2 := WriteOne(r1, 2025, ms[1]);
    assert r2 == map[ShipYear("A", 2025) := ComplianceRow(1, 0.0), ShipYear("B", 2025) := ComplianceRow(2, 0.0)];
    assert WriteOne(r2, 2025, ms[2]) == r2;
    assert WriteBack(r2, 2025, ms[1..][1..]) == WriteBack(r2, 2025, []) == r2;
    assert WriteBack(r1, 2025, ms[1..]) == r2;
    assert WriteBack(TwoShips(), 2025, ms) == WriteBack(r1, 2025, ms[1..]);
  }

  lemma DuplicateRequestTotals()
    ensures StoredTotal(TwoShips(), 2025, ["A", "B"]) == 5.0
    ensures StoredTotal(map[ShipYear("A", 2025) := ComplianceRow(1, 0.0), ShipYear("B", 2025) := ComplianceRow(2, 0.0)], 2025, ["A", "B"]) == 0.0
  {
    assert ["A", "B"][1..] == ["B"] && ["B"][1..] == [];
  }

  /** The id that first repeats an earlier one, if any. */
  function FirstDuplicate(shipIds: seq<string>): (r: Option<string>)
    ensures r.None? <==> Distinct(shipIds)
    ensures r.Some? ==> exists i, j :: 0 <= i < j < |shipIds| && shipIds[i] == shipIds[j] == r.value
  {
    if |shipIds| == 0 then None
    else if shipIds[0] in shipIds[1..] then Some(shipIds[0])
    else
      var r := FirstDuplicate(shipIds[1..]);
      assert forall i, j :: 0 <= i < j < |shipIds[1..]| ==> shipIds[1..][i] == shipIds[i + 1] && shipIds[1..][j] == shipIds[j + 1];
      r
  }

  /** `CreatePool` with the missing guard: a request naming a ship twice is rejected before
      anything is read or written; otherwise it behaves as `CreatePool`, and a created pool
      keeps the requested ships' stored total. */
  method CreatePoolChecked(db: ComplianceDb, table: PoolTable, year: int, shipIds: seq<string>) returns (r: Result<Pool, UseCaseError>)
    requires db.Valid()
    modifies db, table
    ensures db.Valid()
    ensures db.ledger == old(db.ledger) && db.nextComplianceId == old(db.nextComplianceId)
    ensures r.Failure? ==> db.records == old(db.records) && table.pools == old(table.pools)
    ensures FirstDuplicate(shipIds).Some? ==> r == Failure(DuplicateShip(FirstDuplicate(shipIds).value))
    ensures r.Success? ==>
              && Distinct(shipIds)
              && GatherMembers(old(db.records), year, shipIds).Success?
              && AllocationOf(GatherMembers(old(db.records), year, shipIds).value, r.value.members)
              && table.pools == old(table.pools) + [r.value]
              && StoredTotal(db.records, year, shipIds) == StoredTotal(old(db.records), year, shipIds)
  {
    var duplicate := FirstDuplicate(shipIds);
    if duplicate.Some? {
      return Failure(DuplicateShip(duplicate.value));
    }
    ghost var records0 := db.records;
    r := CreatePool(db, table, year, shipIds);
    if r.Success? {
      CreatePoolConserves(records0, year, shipIds, r.value.members);
    }
  }
}
