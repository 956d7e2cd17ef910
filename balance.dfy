/**
 * The `AddressTokenCount` storage map: a count per address, where an absent
 * entry reads as 0 and a zero count is stored by deleting the entry. Also the
 * sum of all stored counts, which the ledger keeps equal to `TokenTotal`.
 */
module Balance {
  import opened NeoTypes

  /** The count of `owner`; an absent entry casts to the BigInteger 0. */
  function CountOf(counts: map<Addr, int>, owner: Addr): int
  {
    if owner in counts then counts[owner] else 0
  }

  /** Every stored count is positive: zero counts are never kept as entries. */
  ghost predicate NoEmptyEntries(counts: map<Addr, int>)
  {
    forall a :: a in counts ==> counts[a] > 0
  }

  /** Stores `count` for `owner` as the ledger does: delete at zero, put otherwise. */
  function PutCount(counts: map<Addr, int>, owner: Addr, count: int): (r: map<Addr, int>)
    ensures CountOf(r, owner) == count
    ensures owner in r <==> count != 0
    ensures forall a :: a != owner ==> (a in r <==> a in counts) && CountOf(r, a) == CountOf(counts, a)
    ensures NoEmptyEntries(counts) && count >= 0 ==> NoEmptyEntries(r)
  {
    if count == 0 then counts - {owner} else counts[owner := count]
  }

  /** The sum of the counts stored under `keys`. */
  ghost function SumOver(counts: map<Addr, int>, keys: set<Addr>): int
    requires keys <= counts.Keys
    decreases keys
  {
    if keys == {} then 0
    else
      var a :| a in keys;
      counts[a] + SumOver(counts, keys - {a})
  }

  /** The sum of all stored counts. */
  ghost function SumOf(counts: map<Addr, int>): int
  {
    SumOver(counts, counts.Keys)
  }

  /** Any key can be taken out of the sum first, whichever one the definition picks. */
  lemma {:induction false} SumOverRemove(counts: map<Addr, int>, keys: set<Addr>, a: Addr)
    requires keys <= counts.Keys && a in keys
    ensures SumOver(counts, keys) == counts[a] + SumOver(counts, keys - {a})
    decreases keys
  {
    var b :| b in keys && SumOver(counts, keys) == counts[b] + SumOver(counts, keys - {b});
    if a != b {
      SumOverRemove(counts, keys - {b}, a);
      SumOverRemove(counts, keys - {a}, b);
      assert keys - {b} - {a} == keys - {a} - {b};
    }
  }

  /** The sum over `keys` depends only on the counts stored under `keys`. */
  lemma {:induction false} SumOverFrame(m1: map<Addr, int>, m2: map<Addr, int>, keys: set<Addr>)
    requires keys <= m1.Keys && keys <= m2.Keys
    requires forall k :: k in keys ==> m1[k] == m2[k]
    ensures SumOver(m1, keys) == SumOver(m2, keys)
    decreases keys
  {
    if keys != {} {
      var a :| a in keys;
      SumOverRemove(m1, keys, a);
      SumOverRemove(m2, keys, a);
      SumOverFrame(m1, m2, keys - {a});
    }
  }

  /** Storing a new count for one address moves the sum by the difference. */
  lemma SumOfPutCount(counts: map<Addr, int>, owner: Addr, count: int)
    ensures SumOf(PutCount(counts, owner, count)) == SumOf(counts) - CountOf(counts, owner) + count
  {
    var r := PutCount(counts, owner, count);
    var rest := counts.Keys - {owner};
    if owner in counts {
      SumOverRemove(counts, counts.Keys, owner);
    } else {
      assert rest == counts.Keys;
    }
    if owner in r {
      SumOverRemove(r, r.Keys, owner);
      assert r.Keys - {owner} == rest;
    } else {
      assert r.Keys == rest;
    }
    SumOverFrame(r, counts, rest);
  }

  /** With no zero entries, the counts every address reads determine the whole map. */
  lemma SameCountsSameMap(m1: map<Addr, int>, m2: map<Addr, int>)
    requires NoEmptyEntries(m1) && NoEmptyEntries(m2)
    requires forall a :: CountOf(m1, a) == CountOf(m2, a)
    ensures m1 == m2
  {
    forall a | a in m1 ensures a in m2 && m1[a] == m2[a] {
      assert CountOf(m1, a) == CountOf(m2, a);
    }
    forall a | a in m2 ensures a in m1 {
      assert CountOf(m1, a) == CountOf(m2, a);
    }
    assert m1.Keys == m2.Keys;
  }
}
