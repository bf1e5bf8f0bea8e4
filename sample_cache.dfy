/**
 * The recent-sensor-data cache of the AirSig manager: a SortedDictionary
 * keyed by gesture id and capped at CACHE_SIZE entries. Before an insertion
 * the smallest keys are removed until there is room; that is the oldest
 * entry only when ids grow with time.
 */
module AirSigCache {

  const CACHE_SIZE: nat := 10

  /** Some element of a non-empty set. */
  lemma Pick(keys: set<int>) returns (x: int)
    requires keys != {}
    ensures x in keys
  {
    if forall j :: j !in keys {
      assert false;
    }
    x :| x in keys;
  }

  lemma {:induction false} MinWitness(keys: set<int>) returns (k: int)
    requires keys != {}
    ensures k in keys && forall j :: j in keys ==> k <= j
    decreases |keys|
  {
    var x := Pick(keys);
    var rest := keys - {x};
    k := x;
    if rest != {} {
      var m := MinWitness(rest);
      k := if x < m then x else m;
    }
    forall j | j in keys ensures k <= j {
      if j != x { assert j in rest; }
    }
  }

  lemma {:induction false} MaxWitness(keys: set<int>) returns (k: int)
    requires keys != {}
    ensures k in keys && forall j :: j in keys ==> j <= k
    decreases |keys|
  {
    var x := Pick(keys);
    var rest := keys - {x};
    k := x;
    if rest != {} {
      var m := MaxWitness(rest);
      k := if m < x then x else m;
    }
    forall j | j in keys ensures j <= k {
      if j != x { assert j in rest; }
    }
  }

  lemma MinExists(keys: set<int>)
    requires keys != {}
    ensures exists k :: k in keys && forall j :: j in keys ==> k <= j
  {
    var k := MinWitness(keys);
  }

  lemma MaxExists(keys: set<int>)
    requires keys != {}
    ensures exists k :: k in keys && forall j :: j in keys ==> j <= k
  {
    var k := MaxWitness(keys);
  }

  /** The first key of a sorted dictionary: its smallest. */
  function MinKey(keys: set<int>): (k: int)
    requires keys != {}
    ensures k in keys && forall j :: j in keys ==> k <= j
  {
    MinExists(keys);
    var k :| k in keys && forall j :: j in keys ==> k <= j;
    k
  }

  /** The last key of a sorted dictionary: its largest. */
  function MaxKey(keys: set<int>): (k: int)
    requires keys != {}
    ensures k in keys && forall j :: j in keys ==> j <= k
  {
    MaxExists(keys);
    var k :| k in keys && forall j :: j in keys ==> j <= k;
    k
  }

  lemma NonEmptyKeys<D>(m: map<int, D>)
    requires |m| > 0
    ensures m.Keys != {}
  {
    assert |m.Keys| == |m|;
  }

  /**
   * The cache left by AddToCache's eviction loop: while it holds CACHE_SIZE
   * or more entries, the entry with the smallest key goes. What remains is
   * part of the old cache (values unchanged), has room for one more entry,
   * and every evicted key is smaller than every kept one.
   */
  function EvictForInsert<D>(m: map<int, D>): (r: map<int, D>)
    ensures r.Keys <= m.Keys
    ensures forall k :: k in r ==> r[k] == m[k]
    ensures |r| == if |m| >= CACHE_SIZE then CACHE_SIZE - 1 else |m|
    decreases |m|
  {
    if |m| >= CACHE_SIZE then
      NonEmptyKeys(m);
      var first := MinKey(m.Keys);
      EvictForInsert(m - {first})
    else
      m
  }

  /** The evicted keys are the smallest ones: each is below every kept key. */
  lemma {:induction false} EvictRemovesSmallest<D>(m: map<int, D>)
    ensures forall x, y :: x in m && x !in EvictForInsert(m) && y in EvictForInsert(m) ==> x < y
    decreases |m|
  {
    if |m| >= CACHE_SIZE {
      NonEmptyKeys(m);
      var first := MinKey(m.Keys);
      var rest := m - {first};
      EvictRemovesSmallest(rest);
      var r := EvictForInsert(m);
      assert r == EvictForInsert(rest);
      forall x, y | x in m && x !in r && y in r ensures x < y {
        if x != first {
          assert x in rest;
        } else {
          assert y in rest;
        }
      }
    }
  }

  /** A full cache loses exactly its smallest key, and nothing else. */
  lemma EvictFullCache<D>(m: map<int, D>)
    requires |m| == CACHE_SIZE
    ensures m.Keys != {}
    ensures EvictForInsert(m) == m - {MinKey(m.Keys)}
  {
    NonEmptyKeys(m);
    var first := MinKey(m.Keys);
    assert |m - {first}| == CACHE_SIZE - 1;
  }

  /**
   * A full cache holding ids 1 to 10 loses id 1 when id 11 arrives, keeps
   * ids 2 to 10, and id 11 is then free: the insertion that follows succeeds.
   */
  lemma FullCacheEvictsSmallest<D>(d: D)
    ensures var m := map[1 := d, 2 := d, 3 := d, 4 := d, 5 := d, 6 := d, 7 := d, 8 := d, 9 := d, 10 := d];
      EvictForInsert(m).Keys == {2, 3, 4, 5, 6, 7, 8, 9, 10}
  {
    var m := map[1 := d, 2 := d, 3 := d, 4 := d, 5 := d, 6 := d, 7 := d, 8 := d, 9 := d, 10 := d];
    OneToTen(m);
    EvictFullCache(m);
    SmallestOfOneToTen(m.Keys);
    assert EvictForInsert(m).Keys == m.Keys - {1};
  }

  lemma OneToTen<D>(m: map<int, D>)
    requires m.Keys == {1, 2, 3, 4, 5, 6, 7, 8, 9, 10}
    ensures |m| == CACHE_SIZE
  {
    assert |m.Keys| == 10;
  }

  lemma SmallestOfOneToTen(keys: set<int>)
    requires keys == {1, 2, 3, 4, 5, 6, 7, 8, 9, 10}
    ensures MinKey(keys) == 1
  {
    var first := MinKey(keys);
    assert 1 in keys;
    assert first <= 1;
  }
}
