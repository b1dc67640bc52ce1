/** A map split over shards by the hash of its keys, and the one map it stands for. */
module ConcurrentMap {
  import opened Types

  /** The shard a key belongs to. */
  function Route<K>(hash: K -> nat, n: nat, k: K): (i: nat)
    requires n > 0
    ensures i < n
  {
    hash(k) % n
  }

  /** No shard has a key of another one. */
  ghost predicate Routed<K, V>(hash: K -> nat, shards: seq<map<K, V>>) {
    && |shards| > 0
    && forall i, k | 0 <= i < |shards| && k in shards[i] :: Route(hash, |shards|, k) == i
  }

  /** The flat map: the contents of all shards. */
  ghost function Flat<K, V>(shards: seq<map<K, V>>): map<K, V> {
    if shards == [] then map[] else Flat(shards[..|shards| - 1]) + shards[|shards| - 1]
  }

  ghost function TotalSize<K, V>(shards: seq<map<K, V>>): nat {
    if shards == [] then 0 else TotalSize(shards[..|shards| - 1]) + |shards[|shards| - 1]|
  }

  /** Shards with no key in common. */
  ghost predicate Apart<K, V>(shards: seq<map<K, V>>) {
    forall i, j | 0 <= i < j < |shards| :: shards[i].Keys !! shards[j].Keys
  }

  lemma RoutedApart<K, V>(hash: K -> nat, shards: seq<map<K, V>>)
    requires Routed(hash, shards)
    ensures Apart(shards)
  {
    forall i, j | 0 <= i < j < |shards| ensures shards[i].Keys !! shards[j].Keys {
      forall k | k in shards[i] ensures k !in shards[j] {
        assert Route(hash, |shards|, k) == i;
      }
    }
  }

  lemma {:induction false} FlatAt<K, V>(shards: seq<map<K, V>>, i: nat, k: K)
    requires Apart(shards) && i < |shards| && k in shards[i]
    ensures k in Flat(shards) && Flat(shards)[k] == shards[i][k]
  {
    var last := |shards| - 1;
    if i < last {
      FlatAt(shards[..last], i, k);
      assert shards[i].Keys !! shards[last].Keys;
    }
  }

  lemma {:induction false} FlatFrom<K, V>(shards: seq<map<K, V>>, k: K) returns (i: nat)
    requires k in Flat(shards)
    ensures i < |shards| && k in shards[i]
  {
    i := |shards| - 1;
    if k !in shards[i] {
      i := FlatFrom(shards[..i], k);
    }
  }

  /** A key is in the flat map exactly if it is in its own shard, and with that shard's value. */
  lemma FlatLookup<K, V>(hash: K -> nat, shards: seq<map<K, V>>, k: K)
    requires Routed(hash, shards)
    ensures var i := hash(k) % |shards|;
      && (k in Flat(shards) <==> k in shards[i])
      && (k in shards[i] ==> Flat(shards)[k] == shards[i][k])
  {
    RoutedApart(hash, shards);
    if k in Flat(shards) {
      var j := FlatFrom(shards, k);
      assert Route(hash, |shards|, k) == j;
    }
    var i := Route(hash, |shards|, k);
    if k in shards[i] {
      FlatAt(shards, i, k);
    }
  }

  lemma SameMap<K, V>(a: map<K, V>, b: map<K, V>)
    requires forall m | m in a :: m in b && a[m] == b[m]
    requires forall m | m in b :: m in a
    ensures a == b
  {
    assert a.Keys == b.Keys;
  }

  /** Changing one key in its shard changes just that key of the flat map. */
  lemma FlatInsert<K, V>(hash: K -> nat, shards: seq<map<K, V>>, k: K, v: V)
    requires Routed(hash, shards)
    ensures var i := Route(hash, |shards|, k); var after := shards[i := shards[i][k := v]];
      Routed(hash, after) && Flat(after) == Flat(shards)[k := v]
  {
    var i := Route(hash, |shards|, k);
    var after := shards[i := shards[i][k := v]];
    var expected := Flat(shards)[k := v];
    forall m | m in Flat(after) ensures m in expected && Flat(after)[m] == expected[m] {
      FlatLookup(hash, after, m);
      FlatLookup(hash, shards, m);
    }
    forall m | m in expected ensures m in Flat(after) {
      FlatLookup(hash, after, m);
      FlatLookup(hash, shards, m);
    }
    SameMap(Flat(after), expected);
  }

  lemma FlatErase<K, V>(hash: K -> nat, shards: seq<map<K, V>>, k: K)
    requires Routed(hash, shards)
    ensures var i := Route(hash, |shards|, k); var after := shards[i := shards[i] - {k}];
      Routed(hash, after) && Flat(after) == Flat(shards) - {k}
  {
    var i := Route(hash, |shards|, k);
    var after := shards[i := shards[i] - {k}];
    var expected := Flat(shards) - {k};
    forall m | m in Flat(after) ensures m in expected && Flat(after)[m] == expected[m] {
      FlatLookup(hash, after, m);
      FlatLookup(hash, shards, m);
    }
    forall m | m in expected ensures m in Flat(after) {
      FlatLookup(hash, after, m);
      FlatLookup(hash, shards, m);
    }
    SameMap(Flat(after), expected);
  }

  lemma {:induction false} FlatSize<K, V>(shards: seq<map<K, V>>)
    requires Apart(shards)
    ensures |Flat(shards)| == TotalSize(shards)
  {
    if shards != [] {
      var last := |shards| - 1;
      FlatSize(shards[..last]);
      forall k | k in Flat(shards[..last]) ensures k !in shards[last] {
        var i := FlatFrom(shards[..last], k);
        assert shards[i].Keys !! shards[last].Keys;
      }
      MergeSize(Flat(shards[..last]), shards[last]);
    }
  }

  lemma MergeSize<K, V>(a: map<K, V>, b: map<K, V>)
    requires a.Keys !! b.Keys
    ensures |a + b| == |a| + |b|
  {
    assert (a + b).Keys == a.Keys + b.Keys;
    assert |(a + b).Keys| == |a + b| && |a.Keys| == |a| && |b.Keys| == |b|;
  }

  /** A list of the entries of a map, each once. */
  ghost predicate Lists<K, V>(l: seq<(K, V)>, m: map<K, V>) {
    && (forall i, j | 0 <= i < j < |l| :: l[i].0 != l[j].0)
    && (forall i | 0 <= i < |l| :: l[i].0 in m && m[l[i].0] == l[i].1)
    && (forall k | k in m :: (k, m[k]) in l)
  }

  lemma ListsMore<K, V>(l: seq<(K, V)>, m: map<K, V>, more: seq<(K, V)>, n: map<K, V>)
    requires Lists(l, m) && Lists(more, n) && m.Keys !! n.Keys
    ensures Lists(l + more, m + n)
  {
    var all := l + more;
    forall i | 0 <= i < |all| ensures all[i].0 in m + n && (m + n)[all[i].0] == all[i].1 {
      if i < |l| { assert all[i] == l[i] && l[i].0 !in n.Keys; } else { assert all[i] == more[i - |l|]; }
    }
    forall i, j | 0 <= i < j < |all| ensures all[i].0 != all[j].0 {
      if j < |l| {
        assert all[i] == l[i] && all[j] == l[j];
      } else if i < |l| {
        assert all[i] == l[i] && all[j] == more[j - |l|];
      } else {
        assert all[i] == more[i - |l|] && all[j] == more[j - |l|];
      }
    }
  }

  /** The shards scanned so far and the next one have no key in common. */
  lemma PrefixApart<K, V>(shards: seq<map<K, V>>, i: nat)
    requires Apart(shards) && i < |shards|
    ensures Flat(shards[..i + 1]) == Flat(shards[..i]) + shards[i] && Flat(shards[..i]).Keys !! shards[i].Keys
    ensures TotalSize(shards[..i + 1]) == TotalSize(shards[..i]) + |shards[i]|
  {
    assert shards[..i + 1][..i] == shards[..i];
    forall k | k in Flat(shards[..i]) ensures k !in shards[i] {
      var j := FlatFrom(shards[..i], k);
      assert shards[j].Keys !! shards[i].Keys;
    }
  }

  class ConcurrentFlatMap<K(==), V> {
    const hash: K -> nat
    var shards: seq<map<K, V>>

    ghost predicate Valid()
      reads this
    {
      Routed(hash, shards)
    }

    ghost function Contents(): map<K, V>
      reads this
    {
      Flat(shards)
    }

    constructor (hash: K -> nat, numShards: nat)
      requires numShards > 0
      ensures Valid() && this.hash == hash && Contents() == map[] && |shards| == numShards
    {
      this.hash, shards := hash, seq(numShards, i => map[]);
      new;
      if Contents() != map[] {
        ghost var k :| k in Contents();
        ghost var i := FlatFrom(shards, k);
      }
    }

    method Insert(key: K, value: V)
      requires Valid()
      modifies this
      ensures Valid() && Contents() == old(Contents())[key := value]
    {
      var i := Route(hash, |shards|, key);
      FlatInsert(hash, shards, key, value);
      shards := shards[i := shards[i][key := value]];
    }

    function Get(key: K): (value: Option<V>)
      requires Valid()
      reads this
      ensures value == if key in Contents() then Some(Contents()[key]) else None
    {
      FlatLookup(hash, shards, key);
      var shard := shards[Route(hash, |shards|, key)];
      if key in shard then Some(shard[key]) else None
    }

    predicate Exists(key: K)
      requires Valid()
      reads this
      ensures Exists(key) <==> key in Contents()
    {
      FlatLookup(hash, shards, key);
      key in shards[Route(hash, |shards|, key)]
    }

    method Erase(key: K) returns (there: bool)
      requires Valid()
      modifies this
      ensures Valid() && Contents() == old(Contents()) - {key}
      ensures there <==> key in old(Contents())
    {
      FlatLookup(hash, shards, key);
      var i := Route(hash, |shards|, key);
      FlatErase(hash, shards, key);
      there := key in shards[i];
      shards := shards[i := shards[i] - {key}];
    }

    /** The entries of one shard, in no particular order. */
    method Scan(i: nat) returns (result: seq<(K, V)>)
      requires i < |shards|
      ensures Lists(result, shards[i])
    {
      var todo := shards[i].Keys;
      result := [];
      while todo != {}
        invariant todo <= shards[i].Keys
        invariant forall a, b | 0 <= a < b < |result| :: result[a].0 != result[b].0
        invariant forall a | 0 <= a < |result| ::
          result[a].0 in shards[i] && result[a].0 !in todo && shards[i][result[a].0] == result[a].1
        invariant forall k | k in shards[i] && k !in todo :: (k, shards[i][k]) in result
        decreases |todo|
      {
        var k :| k in todo;
        result := result + [(k, shards[i][k])];
        todo := todo - {k};
      }
    }

    method GetAll() returns (result: seq<(K, V)>)
      requires Valid()
      ensures Lists(result, Contents())
    {
      RoutedApart(hash, shards);
      result := [];
      var i := 0;
      while i < |shards|
        invariant i <= |shards| && Lists(result, Flat(shards[..i]))
      {
        PrefixApart(shards, i);
        var more := Scan(i);
        ListsMore(result, Flat(shards[..i]), more, shards[i]);
        result := result + more;
        i := i + 1;
      }
      assert shards[..i] == shards;
    }

    method GetSize() returns (size: nat)
      requires Valid()
      ensures size == |Contents()|
    {
      RoutedApart(hash, shards);
      FlatSize(shards);
      size := 0;
      var i := 0;
      while i < |shards|
        invariant i <= |shards| && size == TotalSize(shards[..i])
      {
        PrefixApart(shards, i);
        size := size + |shards[i]|;
        i := i + 1;
      }
      assert shards[..i] == shards;
    }
  }
}
