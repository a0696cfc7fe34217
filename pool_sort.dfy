/** The ordering step of the pool allocation: a stable sort of the members by their
    balance before pooling, largest first (the comparator `b.cbBefore - a.cbBefore`
    under the stable `Array.prototype.sort`). */
module PoolSorting {
  import opened Pools

  predicate SortedByCbDesc(s: seq<PoolMember>)
  {
    forall i, j :: 0 <= i < j < |s| ==> s[i].cbBefore >= s[j].cbBefore
  }

  /** The members of `s` whose balance before pooling is `k`, in their order in `s`. */
  function WithCbBefore(s: seq<PoolMember>, k: real): seq<PoolMember>
  {
    if |s| == 0 then []
    else (if s[0].cbBefore == k then [s[0]] else []) + WithCbBefore(s[1..], k)
  }

  /** Places `x` before the first member of `t` whose balance is not larger than its own;
      members with an equal balance that were already in `t` therefore come after `x`. */
  function Insert(x: PoolMember, t: seq<PoolMember>): (r: seq<PoolMember>)
    ensures |r| == |t| + 1
    ensures multiset(r) == multiset(t) + multiset{x}
  {
    if |t| == 0 || x.cbBefore >= t[0].cbBefore then [x] + t
    else
      assert t == [t[0]] + t[1..];
      [t[0]] + Insert(x, t[1..])
  }

  predicate AllAtMost(s: seq<PoolMember>, b: real)
  {
    forall i :: 0 <= i < |s| ==> s[i].cbBefore <= b
  }

  lemma {:induction false} InsertAtMost(x: PoolMember, t: seq<PoolMember>, b: real)
    requires AllAtMost(t, b) && x.cbBefore <= b
    ensures AllAtMost(Insert(x, t), b)
  {
    if |t| > 0 && x.cbBefore < t[0].cbBefore {
      InsertAtMost(x, t[1..], b);
      var r := Insert(x, t);
      assert forall i :: 1 <= i < |r| ==> r[i] == Insert(x, t[1..])[i - 1];
    }
  }

  lemma {:induction false} InsertSorted(x: PoolMember, t: seq<PoolMember>)
    requires SortedByCbDesc(t)
    ensures SortedByCbDesc(Insert(x, t))
  {
    if |t| > 0 && x.cbBefore < t[0].cbBefore {
      var rest := Insert(x, t[1..]);
      InsertSorted(x, t[1..]);
      InsertAtMost(x, t[1..], t[0].cbBefore);
      var r := Insert(x, t);
      assert r == [t[0]] + rest;
      forall i, j | 0 <= i < j < |r| ensures r[i].cbBefore >= r[j].cbBefore {
        assert r[j] == rest[j - 1];
        if i > 0 {
          assert r[i] == rest[i - 1];
        }
      }
    }
  }

  /** The sort itself, as insertion of the first member into the sorted rest. */
  function SortByCbDesc(s: seq<PoolMember>): (r: seq<PoolMember>)
    ensures |r| == |s|
    ensures multiset(r) == multiset(s)
    ensures SortedByCbDesc(r)
  {
    if |s| == 0 then []
    else
      assert s == [s[0]] + s[1..];
      InsertSorted(s[0], SortByCbDesc(s[1..]));
      Insert(s[0], SortByCbDesc(s[1..]))
  }

  lemma {:induction false} InsertStable(x: PoolMember, t: seq<PoolMember>, k: real)
    requires SortedByCbDesc(t)
    ensures WithCbBefore(Insert(x, t), k) == (if x.cbBefore == k then [x] else []) + WithCbBefore(t, k)
  {
    if |t| == 0 || x.cbBefore >= t[0].cbBefore {
      assert ([x] + t)[1..] == t;
    } else {
      var rest := Insert(x, t[1..]);
      assert ([t[0]] + rest)[1..] == rest;
      InsertStable(x, t[1..], k);
      if t[0].cbBefore == k {
        // every member of t[1..] with balance k would have to equal t[0] in balance,
        // but x has a smaller balance than t[0]: so x is not among them
        assert x.cbBefore != k;
      }
    }
  }

  /** Stability: for every balance, the members with that balance keep their relative order. */
  lemma {:induction false} SortIsStable(s: seq<PoolMember>, k: real)
    ensures WithCbBefore(SortByCbDesc(s), k) == WithCbBefore(s, k)
  {
    if |s| > 0 {
      SortIsStable(s[1..], k);
      InsertStable(s[0], SortByCbDesc(s[1..]), k);
    }
  }

  /** Sorting moves members around but keeps both sums. */
  lemma {:induction false} SortKeepsSums(s: seq<PoolMember>)
    ensures SumBefore(SortByCbDesc(s)) == SumBefore(s)
    ensures SumAfter(SortByCbDesc(s)) == SumAfter(s)
  {
    if |s| > 0 {
      SortKeepsSums(s[1..]);
      InsertKeepsSums(s[0], SortByCbDesc(s[1..]));
    }
  }

  lemma {:induction false} InsertKeepsSums(x: PoolMember, t: seq<PoolMember>)
    ensures SumBefore(Insert(x, t)) == x.cbBefore + SumBefore(t)
    ensures SumAfter(Insert(x, t)) == x.cbAfter + SumAfter(t)
  {
    if |t| == 0 || x.cbBefore >= t[0].cbBefore {
      assert ([x] + t)[1..] == t;
    } else {
      var rest := Insert(x, t[1..]);
      assert ([t[0]] + rest)[1..] == rest;
      InsertKeepsSums(x, t[1..]);
    }
  }

  /** Every member of the sorted list is a member of the input, and conversely. */
  lemma SortKeepsMembers(s: seq<PoolMember>)
    ensures forall m :: m in SortByCbDesc(s) <==> m in s
  {
    var r := SortByCbDesc(s);
    forall m ensures m in r <==> m in s {
      assert m in r <==> m in multiset(r);
      assert m in s <==> m in multiset(s);
    }
  }

  lemma ShipIdsCons(a: PoolMember, t: seq<PoolMember>)
    ensures ShipIdsOf([a] + t) == [a.shipId] + ShipIdsOf(t)
  {
    assert ([a] + t)[1..] == t;
  }

  lemma DistinctCons(a: string, t: seq<string>)
    ensures Distinct([a] + t) <==> a !in t && Distinct(t)
  {
    if a !in t && Distinct(t) {
      forall i, j | 0 <= i < j < |t| + 1 ensures ([a] + t)[i] != ([a] + t)[j] {
        if i > 0 {
          assert ([a] + t)[i] == t[i - 1] && ([a] + t)[j] == t[j - 1];
        } else {
          assert ([a] + t)[j] == t[j - 1];
        }
      }
    }
    if Distinct([a] + t) {
      forall i, j | 0 <= i < j < |t| ensures t[i] != t[j] {
        assert ([a] + t)[i + 1] == t[i] && ([a] + t)[j + 1] == t[j];
      }
      forall i | 0 <= i < |t| ensures t[i] != a {
        assert ([a] + t)[i + 1] == t[i] && ([a] + t)[0] == a;
      }
    }
  }

  /** Inserting a member adds exactly its ship id. */
  lemma {:induction false} InsertShipIds(x: PoolMember, t: seq<PoolMember>)
    ensures multiset(ShipIdsOf(Insert(x, t))) == multiset(ShipIdsOf(t)) + multiset{x.shipId}
  {
    if |t| == 0 || x.cbBefore >= t[0].cbBefore {
      ShipIdsCons(x, t);
    } else {
      var rest := Insert(x, t[1..]);
      assert Insert(x, t) == [t[0]] + rest;
      assert t == [t[0]] + t[1..];
      InsertShipIds(x, t[1..]);
      ConsAddsId(t[0].shipId, ShipIdsOf(t[1..]), ShipIdsOf(rest), x.shipId);
      ShipIdsCons(t[0], t[1..]);
      ShipIdsCons(t[0], rest);
    }
  }

  lemma ConsAddsId(a: string, u: seq<string>, v: seq<string>, y: string)
    requires multiset(v) == multiset(u) + multiset{y}
    ensures multiset([a] + v) == multiset([a] + u) + multiset{y}
  {
  }

  /** Inserting a member whose ship id is new keeps the ship ids distinct. */
  lemma {:induction false} InsertKeepsDistinct(x: PoolMember, t: seq<PoolMember>)
    requires Distinct(ShipIdsOf(t)) && x.shipId !in ShipIdsOf(t)
    ensures Distinct(ShipIdsOf(Insert(x, t)))
  {
    ShipIdsCons(x, t);
    if |t| == 0 || x.cbBefore >= t[0].cbBefore {
      DistinctCons(x.shipId, ShipIdsOf(t));
    } else {
      var rest := Insert(x, t[1..]);
      assert t == [t[0]] + t[1..];
      ShipIdsCons(t[0], t[1..]);
      DistinctCons(t[0].shipId, ShipIdsOf(t[1..]));
      InsertKeepsDistinct(x, t[1..]);
      InsertShipIds(x, t[1..]);
      assert t[0].shipId !in multiset(ShipIdsOf(rest));
      ShipIdsCons(t[0], rest);
      DistinctCons(t[0].shipId, ShipIdsOf(rest));
    }
  }

  /** Sorting keeps the multiset of ship ids. */
  lemma {:induction false} SortShipIds(s: seq<PoolMember>)
    ensures multiset(ShipIdsOf(SortByCbDesc(s))) == multiset(ShipIdsOf(s))
  {
    if |s| > 0 {
      var rest := SortByCbDesc(s[1..]);
      assert ShipIdsOf(s) == [s[0].shipId] + ShipIdsOf(s[1..]);
      calc {
        multiset(ShipIdsOf(SortByCbDesc(s)));
        multiset(ShipIdsOf(Insert(s[0], rest)));
        { InsertShipIds(s[0], rest); }
        multiset(ShipIdsOf(rest)) + multiset{s[0].shipId};
        { SortShipIds(s[1..]); }
        multiset(ShipIdsOf(s[1..])) + multiset{s[0].shipId};
        multiset(ShipIdsOf(s));
      }
    }
  }

  /** Sorting members with distinct ship ids keeps them distinct. */
  lemma {:induction false} SortKeepsDistinct(s: seq<PoolMember>)
    requires Distinct(ShipIdsOf(s))
    ensures Distinct(ShipIdsOf(SortByCbDesc(s)))
  {
    if |s| > 0 {
      var rest := SortByCbDesc(s[1..]);
      assert s == [s[0]] + s[1..];
      ShipIdsCons(s[0], s[1..]);
      DistinctCons(s[0].shipId, ShipIdsOf(s[1..]));
      SortKeepsDistinct(s[1..]);
      SortShipIds(s[1..]);
      assert s[0].shipId !in multiset(ShipIdsOf(rest));
      InsertKeepsDistinct(s[0], rest);
    }
  }
}
