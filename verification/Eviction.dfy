// Dropping the older half of a table, as the in-process tables of the gateway do
// when they are full.
module Eviction {
  import opened Sequences

  // after keeps all of before except half of it, none of it later than what is kept.
  ghost predicate DropsOlderHalf<K(!new)>(before: map<K, real>, after: map<K, real>) {
    && after.Keys <= before.Keys && |before| - |after| == |before| / 2
    && (forall k :: k in after ==> after[k] == before[k])
    && forall d, k :: d in before && d !in after && k in after ==> before[d] <= before[k]
  }

  ghost predicate SortedBy<K(!new)>(keys: seq<K>, times: map<K, real>)
    requires forall k :: k in keys ==> k in times
  {
    forall i, j :: 0 <= i < j < |keys| ==> times[keys[i]] <= times[keys[j]]
  }

  function Insert<K(==)>(keys: seq<K>, k: K, times: map<K, real>): (r: seq<K>)
    requires (forall x <- keys :: x in times) && k in times
    ensures multiset(r) == multiset(keys) + multiset{k}
  {
    if keys == [] || times[k] < times[keys[0]] then [k] + keys
    else
      assert keys == [keys[0]] + keys[1..];
      [keys[0]] + Insert(keys[1..], k, times)
  }

  // Insertion sort, for any comparison sort does.
  function Sort<K(==)>(keys: seq<K>, times: map<K, real>): (r: seq<K>)
    requires forall x <- keys :: x in times
    ensures multiset(r) == multiset(keys)
  {
    if keys == [] then []
    else
      assert keys == [keys[0]] + keys[1..];
      var rest := Sort(keys[1..], times);
      SameMembers(rest, keys[1..]);
      Insert(rest, keys[0], times)
  }

  lemma SameMembers<K>(a: seq<K>, b: seq<K>)
    requires multiset(a) == multiset(b)
    ensures forall x :: x in a <==> x in b
  {
    assert forall x :: x in a <==> x in multiset(a);
  }

  lemma ConsSorted<K(!new)>(k: K, keys: seq<K>, times: map<K, real>)
    requires (forall x <- keys :: x in times) && k in times && SortedBy(keys, times)
    requires forall x <- keys :: times[k] <= times[x]
    ensures SortedBy([k] + keys, times)
  {
    var all := [k] + keys;
    forall i, j | 0 <= i < j < |all| ensures times[all[i]] <= times[all[j]] {
      assert all[j] == keys[j-1];
    }
  }

  lemma {:induction false} InsertSorted<K(!new)>(keys: seq<K>, k: K, times: map<K, real>)
    requires (forall x <- keys :: x in times) && k in times && SortedBy(keys, times)
    ensures forall x :: x in Insert(keys, k, times) <==> x in keys || x == k
    ensures SortedBy(Insert(keys, k, times), times)
    decreases |keys|
  {
    var r := Insert(keys, k, times);
    if keys == [] || times[k] < times[keys[0]] {
      assert forall x <- keys :: times[keys[0]] <= times[x];
      ConsSorted(k, keys, times);
    } else {
      InsertSorted(keys[1..], k, times);
      ConsSorted(keys[0], Insert(keys[1..], k, times), times);
    }
  }

  lemma {:induction false} SortSorts<K(!new)>(keys: seq<K>, times: map<K, real>)
    requires forall x <- keys :: x in times
    ensures forall x :: x in Sort(keys, times) <==> x in keys
    ensures SortedBy(Sort(keys, times), times)
    decreases |keys|
  {
    SameMembers(Sort(keys, times), keys);
    if keys != [] {
      SortSorts(keys[1..], times);
      InsertSorted(Sort(keys[1..], times), keys[0], times);
    }
  }

  // The keys of a table, each once.
  method Keys<K(==, !new)>(times: map<K, real>) returns (keys: seq<K>)
    ensures Distinct(keys) && forall k :: k in keys <==> k in times
  {
    keys := [];
    var rest := times.Keys;
    while rest != {}
      invariant rest <= times.Keys && Distinct(keys)
      invariant forall k :: k in keys <==> k in times && k !in rest
      decreases rest
    {
      var k :| k in rest;
      keys := keys + [k];
      rest := rest - {k};
    }
  }

  lemma {:induction false} DistinctSize<K(!new)>(keys: seq<K>)
    requires Distinct(keys)
    ensures |set k | k in keys| == |keys|
    decreases |keys|
  {
    if keys != [] {
      assert Distinct(keys[1..]);
      DistinctSize(keys[1..]);
      assert (set k | k in keys) == {keys[0]} + (set k | k in keys[1..]);
    }
  }

  // Cutting a sorted list of all the keys in the middle.
  lemma HalfIsOlder<K(!new)>(sorted: seq<K>, times: map<K, real>, dropped: set<K>)
    requires (forall k :: k in sorted <==> k in times) && SortedBy(sorted, times) && Distinct(sorted)
    requires forall k :: k in dropped <==> k in sorted[..|sorted| / 2]
    ensures forall d, k :: d in dropped && k in times && k !in dropped ==> times[d] <= times[k]
  {
    var half := |sorted| / 2;
    forall d, k | d in dropped && k in times && k !in dropped ensures times[d] <= times[k] {
      assert sorted == sorted[..half] + sorted[half..];
      assert k in sorted[half..];
      var i :| 0 <= i < half && sorted[i] == d;
      var j :| half <= j < |sorted| && sorted[j] == k;
    }
  }

  lemma HalfSize<K(!new)>(sorted: seq<K>, times: map<K, real>, dropped: set<K>)
    requires (forall k :: k in sorted <==> k in times) && Distinct(sorted)
    requires forall k :: k in dropped <==> k in sorted[..|sorted| / 2]
    ensures dropped <= times.Keys && |dropped| == |times| / 2
  {
    var half := sorted[..|sorted| / 2];
    DistinctSize(sorted);
    DistinctSize(half);
    assert (set k | k in sorted) == times.Keys;
    assert (set k | k in half) == dropped;
  }

  lemma RestSize<K, V>(m: map<K, V>, dropped: set<K>)
    requires dropped <= m.Keys
    ensures |m - dropped| == |m| - |dropped|
  {
    assert (m - dropped).Keys == m.Keys - dropped;
    assert |m.Keys| == |m.Keys - dropped| + |dropped|;
  }

  lemma SortIsListing<K(!new)>(keys: seq<K>, times: map<K, real>)
    requires (forall k :: k in keys <==> k in times) && Distinct(keys)
    ensures var sorted := Sort(keys, times);
            && (forall k :: k in sorted <==> k in times)
            && SortedBy(sorted, times) && Distinct(sorted)
  {
    SortSorts(keys, times);
    DistinctMultiset(keys);
    DistinctMultiset(Sort(keys, times));
  }

  // Which keys to drop: the first half of them, sorted by time.
  method OlderHalf<K(==, !new)>(times: map<K, real>) returns (dropped: set<K>)
    ensures dropped <= times.Keys && |dropped| == |times| / 2
    ensures DropsOlderHalf(times, times - dropped)
  {
    var keys := Keys(times);
    var sorted := Sort(keys, times);
    SortIsListing(keys, times);
    var half := sorted[..|sorted| / 2];
    dropped := set k | k in half;
    HalfSize(sorted, times, dropped);
    HalfIsOlder(sorted, times, dropped);
    RestSize(times, dropped);
  }
}
