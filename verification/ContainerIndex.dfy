/** The container index as it is built: buckets by the hash of the name, each a sharded map, and a counter. */
module ContainerIndex {
  import opened Types
  import opened ConcurrentMap

  class StoredContainer {
    const name: Name
    const instances: seq<Instance>
    var deleted: bool

    constructor (name: Name, instances: seq<Instance>)
      ensures this.name == name && this.instances == instances && !deleted
    {
      this.name, this.instances, deleted := name, instances, false;
    }

    method MarkAsDeleted()
      modifies this
      ensures deleted
    {
      deleted := true;
    }
  }

  class ContainerBucket {
    const table: ConcurrentFlatMap<Name, StoredContainer>

    constructor (hash: Name -> nat, numShards: nat)
      requires numShards > 0
      ensures fresh(table) && table.Valid() && table.Contents() == map[]
    {
      table := new ConcurrentFlatMap(hash, numShards);
    }

    /** Check, then insert. */
    method InsertContainer(name: Name, instances: seq<Instance>) returns (status: Status)
      requires table.Valid()
      modifies table
      ensures table.Valid()
      ensures status == if name in old(table.Contents()) then ContainerInsertionCollision else Success
      ensures status != Success ==> table.Contents() == old(table.Contents())
      ensures status == Success ==>
        && name in table.Contents() && table.Contents() == old(table.Contents())[name := table.Contents()[name]]
        && var c := table.Contents()[name]; fresh(c) && c.name == name && c.instances == instances && !c.deleted
    {
      if table.Exists(name) {
        return ContainerInsertionCollision;
      }
      var container := new StoredContainer(name, instances);
      table.Insert(name, container);
      return Success;
    }

    function GetContainer(name: Name): (container: StoredContainer?)
      requires table.Valid()
      reads table
      ensures container == if name in table.Contents() then table.Contents()[name] else null
    {
      var found := table.Get(name);
      if found.Some? then found.value else null
    }

    /** Each container of the bucket, once. */
    method GetAllContainers() returns (containers: seq<StoredContainer>)
      requires table.Valid() && forall n | n in table.Contents() :: table.Contents()[n].name == n
      ensures ListsContainers(containers, table.Contents())
    {
      var entries := table.GetAll();
      containers := [];
      for i := 0 to |entries|
        invariant |containers| == i && forall j | 0 <= j < i :: containers[j] == entries[j].1
      {
        containers := containers + [entries[i].1];
      }
      ValuesListed(entries, table.Contents(), containers);
    }

    /** Check, then erase. */
    method RemoveContainer(name: Name) returns (status: Status)
      requires table.Valid()
      modifies table
      ensures table.Valid() && table.Contents() == old(table.Contents()) - {name}
      ensures status == if name in old(table.Contents()) then Success else ContainerNotExists
    {
      if !table.Exists(name) {
        return ContainerNotExists;
      }
      var erased := table.Erase(name);
      return Success;
    }
  }

  /** The containers of a map from their names, each once. */
  ghost predicate ListsContainers(l: seq<StoredContainer>, m: map<Name, StoredContainer>) {
    && (forall i, j | 0 <= i < j < |l| :: l[i].name != l[j].name)
    && (forall i | 0 <= i < |l| :: l[i].name in m && m[l[i].name] == l[i])
    && (forall n | n in m :: m[n] in l)
  }

  lemma ValuesListed(entries: seq<(Name, StoredContainer)>, m: map<Name, StoredContainer>,
                     containers: seq<StoredContainer>)
    requires Lists(entries, m) && forall n | n in m :: m[n].name == n
    requires |containers| == |entries| && forall j | 0 <= j < |entries| :: containers[j] == entries[j].1
    ensures ListsContainers(containers, m)
  {
    forall n | n in m ensures m[n] in containers {
      var i :| 0 <= i < |entries| && entries[i] == (n, m[n]);
      assert containers[i] == m[n];
    }
    forall i | 0 <= i < |containers| ensures containers[i].name == entries[i].0 {
      assert entries[i].0 in m && m[entries[i].0] == entries[i].1;
    }
  }

  lemma ListsContainersMore(l: seq<StoredContainer>, m: map<Name, StoredContainer>,
                            more: seq<StoredContainer>, n: map<Name, StoredContainer>)
    requires ListsContainers(l, m) && ListsContainers(more, n) && m.Keys !! n.Keys
    ensures ListsContainers(l + more, m + n)
  {
    var all := l + more;
    forall i | 0 <= i < |all| ensures all[i].name in m + n && (m + n)[all[i].name] == all[i] {
      if i < |l| { assert all[i] == l[i] && l[i].name !in n.Keys; } else { assert all[i] == more[i - |l|]; }
    }
    forall i, j | 0 <= i < j < |all| ensures all[i].name != all[j].name {
      if j < |l| {
        assert all[i] == l[i] && all[j] == l[j];
      } else if i < |l| {
        assert all[i] == l[i] && all[j] == more[j - |l|];
      } else {
        assert all[i] == more[i - |l|] && all[j] == more[j - |l|];
      }
    }
  }

  type Maps = seq<map<Name, StoredContainer>>

  /** Buckets by hash, entries under their own names, and the counter right. */
  ghost predicate Indexed(hash: Name -> nat, maps: Maps, count: nat) {
    && Routed(hash, maps)
    && (forall n | n in Flat(maps) :: Flat(maps)[n].name == n)
    && count == |Flat(maps)|
  }

  lemma IndexedInsert(hash: Name -> nat, maps: Maps, count: nat, c: StoredContainer)
    requires Indexed(hash, maps, count) && c.name !in Flat(maps)
    ensures var i := Route(hash, |maps|, c.name); var after := maps[i := maps[i][c.name := c]];
      Indexed(hash, after, count + 1) && Flat(after) == Flat(maps)[c.name := c]
  {
    FlatInsert(hash, maps, c.name, c);
  }

  lemma IndexedErase(hash: Name -> nat, maps: Maps, count: nat, n: Name)
    requires Indexed(hash, maps, count) && n in Flat(maps)
    ensures var i := Route(hash, |maps|, n); var after := maps[i := maps[i] - {n}];
      count > 0 && Indexed(hash, after, count - 1) && Flat(after) == Flat(maps) - {n}
  {
    FlatErase(hash, maps, n);
    EraseSize(Flat(maps), n);
    hide Flat, Routed;
  }

  lemma EraseSize<K, V>(m: map<K, V>, k: K)
    requires k in m
    ensures |m| == |m - {k}| + 1
  {
    assert m == (m - {k})[k := m[k]];
  }

  /** A name is in the index exactly if it is in its bucket. */
  lemma IndexedLookup(hash: Name -> nat, maps: Maps, count: nat, n: Name)
    requires Indexed(hash, maps, count)
    ensures var m := maps[Route(hash, |maps|, n)];
      && (n in Flat(maps) <==> n in m)
      && (n in m ==> Flat(maps)[n] == m[n])
  {
    FlatLookup(hash, maps, n);
  }

  lemma IndexedNames(hash: Name -> nat, maps: Maps, count: nat, i: nat)
    requires Indexed(hash, maps, count) && i < |maps|
    ensures forall n | n in maps[i] :: maps[i][n].name == n
  {
    forall n | n in maps[i] ensures maps[i][n].name == n {
      assert Route(hash, |maps|, n) == i;
      FlatLookup(hash, maps, n);
    }
  }

  lemma {:induction false} ListSize(l: seq<StoredContainer>, m: map<Name, StoredContainer>)
    requires ListsContainers(l, m) && forall n | n in m :: m[n].name == n
    ensures |l| == |m|
    decreases |l|
  {
    if l == [] {
      assert m == map[];
    } else {
      var n := l[0].name;
      var rest := l[1..];
      forall k | k in m - {n} ensures (m - {n})[k] in rest {
        var i :| 0 <= i < |l| && l[i] == m[k];
        assert rest[i - 1] == l[i];
      }
      ListSize(rest, m - {n});
      assert m == (m - {n})[n := m[n]];
    }
  }

  ghost function TablesOf(buckets: seq<ContainerBucket>): set<object> {
    set i | 0 <= i < |buckets| :: buckets[i].table
  }

  /** The contents of each bucket. */
  ghost function MapsOf(buckets: seq<ContainerBucket>): (maps: Maps)
    reads TablesOf(buckets)
    ensures |maps| == |buckets|
  {
    seq(|buckets|, i requires 0 <= i < |buckets| reads TablesOf(buckets) => buckets[i].table.Contents())
  }

  ghost predicate Separate(buckets: seq<ContainerBucket>)
    reads TablesOf(buckets)
  {
    && |buckets| > 0
    && (forall i | 0 <= i < |buckets| :: buckets[i].table.Valid())
    && (forall i, j | 0 <= i < j < |buckets| :: buckets[i].table != buckets[j].table)
  }

  lemma NothingIndexed(hash: Name -> nat, buckets: seq<ContainerBucket>)
    requires |buckets| > 0 && forall i | 0 <= i < |buckets| :: buckets[i].table.Contents() == map[]
    ensures Indexed(hash, MapsOf(buckets), 0) && Flat(MapsOf(buckets)) == map[]
  {
    var maps := MapsOf(buckets);
    assert forall i | 0 <= i < |buckets| :: maps[i] == map[];
    if Flat(maps) != map[] {
      var n :| n in Flat(maps);
      var i := FlatFrom(maps, n);
    }
  }

  /** Empty buckets, each with a table of its own. */
  method MakeBuckets(hash: Name -> nat, numBuckets: nat, numShards: nat) returns (buckets: seq<ContainerBucket>)
    requires numBuckets > 0 && numShards > 0
    ensures |buckets| == numBuckets && Separate(buckets) && fresh(TablesOf(buckets))
    ensures forall i | 0 <= i < |buckets| :: buckets[i].table.Contents() == map[]
  {
    buckets := [];
    while |buckets| < numBuckets
      invariant |buckets| <= numBuckets
      invariant forall i | 0 <= i < |buckets| :: fresh(buckets[i].table) && buckets[i].table.Valid()
      invariant forall i | 0 <= i < |buckets| :: buckets[i].table.Contents() == map[]
      invariant forall i, j | 0 <= i < j < |buckets| :: buckets[i].table != buckets[j].table
      decreases numBuckets - |buckets|
    {
      var b := new ContainerBucket(hash, numShards);
      buckets := buckets + [b];
    }
  }

  class Index {
    const hash: Name -> nat
    const buckets: seq<ContainerBucket>
    var count: nat

    /** The one map the two levels stand for. */
    ghost function Contents(): map<Name, StoredContainer>
      reads TablesOf(buckets)
    {
      Flat(MapsOf(buckets))
    }

    ghost predicate Valid()
      reads this, TablesOf(buckets)
    {
      Separate(buckets) && Indexed(hash, MapsOf(buckets), count)
    }

    constructor (hash: Name -> nat, shardHash: Name -> nat, numBuckets: nat, numShards: nat)
      requires numBuckets > 0 && numShards > 0
      ensures Valid() && fresh(TablesOf(buckets)) && Contents() == map[]
    {
      var bs := MakeBuckets(shardHash, numBuckets, numShards);
      this.hash, buckets, count := hash, bs, 0;
      new;
      NothingIndexed(hash, buckets);
      hide Indexed, Flat, Routed, MapsOf;
    }

    method InsertContainer(name: Name, instances: seq<Instance>) returns (status: Status)
      requires Valid()
      modifies this, TablesOf(buckets)
      ensures Valid()
      ensures status == if name in old(Contents()) then ContainerInsertionCollision else Success
      ensures status != Success ==> Contents() == old(Contents())
      ensures status == Success ==>
        && name in Contents() && Contents() == old(Contents())[name := Contents()[name]]
        && var c := Contents()[name]; fresh(c) && c.name == name && c.instances == instances && !c.deleted
    {
      hide Indexed, Flat, Routed;
      var i := Route(hash, |buckets|, name);
      ghost var maps := MapsOf(buckets);
      IndexedLookup(hash, maps, count, name);
      status := buckets[i].InsertContainer(name, instances);
      ghost var after := maps[i := buckets[i].table.Contents()];
      assert MapsOf(buckets) == after;
      if status == Success {
        IndexedInsert(hash, maps, count, buckets[i].table.Contents()[name]);
        count := count + 1;
      } else {
        assert after == maps;
      }
    }

    function GetContainer(name: Name): (container: StoredContainer?)
      requires Valid()
      reads this, TablesOf(buckets)
      ensures container == if name in Contents() then Contents()[name] else null
    {
      IndexedLookup(hash, MapsOf(buckets), count, name);
      buckets[Route(hash, |buckets|, name)].GetContainer(name)
    }

    function GetContainerExistenceStatus(name: Name): (status: Status)
      requires Valid()
      reads this, TablesOf(buckets), Contents().Values
      ensures status == ContainerNotExists <==> name !in Contents()
      ensures status == ContainerInDeletionProcess <==> name in Contents() && Contents()[name].deleted
      ensures status == ContainerAlreadyExists <==> name in Contents() && !Contents()[name].deleted
    {
      var container := GetContainer(name);
      if container == null then ContainerNotExists
      else if container.deleted then ContainerInDeletionProcess
      else ContainerAlreadyExists
    }

    method RemoveContainer(name: Name) returns (status: Status)
      requires Valid()
      modifies this, TablesOf(buckets)
      ensures Valid() && Contents() == old(Contents()) - {name}
      ensures status == if name in old(Contents()) then Success else ContainerNotExists
    {
      hide Indexed, Flat, Routed;
      var i := Route(hash, |buckets|, name);
      ghost var maps := MapsOf(buckets);
      IndexedLookup(hash, maps, count, name);
      status := buckets[i].RemoveContainer(name);
      ghost var after := maps[i := buckets[i].table.Contents()];
      assert MapsOf(buckets) == after;
      if status == Success {
        IndexedErase(hash, maps, count, name);
        count := count - 1;
      } else {
        assert maps[i] - {name} == maps[i];
        assert after == maps;
      }
    }

    method GetAllContainersFromBucket(i: nat) returns (containers: seq<StoredContainer>)
      requires Valid() && i < |buckets|
      ensures ListsContainers(containers, MapsOf(buckets)[i])
    {
      hide Indexed, Flat, Routed;
      IndexedNames(hash, MapsOf(buckets), count, i);
      assert MapsOf(buckets)[i] == buckets[i].table.Contents();
      containers := buckets[i].GetAllContainers();
    }

    /** The collector's way through the index, bucket by bucket: while nothing changes, it comes past
        each container exactly once. */
    method Sweep() returns (visited: seq<StoredContainer>)
      requires Valid()
      ensures ListsContainers(visited, Contents()) && |visited| == count
    {
      ghost var maps := MapsOf(buckets);
      SweepStart(hash, maps, count);
      hide Indexed, Flat, Routed, Apart, ListsContainers, Separate;
      visited := [];
      for i := 0 to |buckets|
        invariant Valid() && MapsOf(buckets) == maps && ListsContainers(visited, Flat(maps[..i]))
      {
        var containers := GetAllContainersFromBucket(i);
        assert MapsOf(buckets) == maps;
        SweepStep(maps, i, visited, containers);
        visited := visited + containers;
      }
      SweepEnd(hash, maps, count, visited);
    }
  }

  lemma SweepStart(hash: Name -> nat, maps: Maps, count: nat)
    requires Indexed(hash, maps, count)
    ensures Apart(maps) && ListsContainers([], Flat(maps[..0]))
  {
    RoutedApart(hash, maps);
    assert maps[..0] == [];
  }

  lemma SweepStep(maps: Maps, i: nat, visited: seq<StoredContainer>, containers: seq<StoredContainer>)
    requires Apart(maps) && i < |maps| && ListsContainers(visited, Flat(maps[..i]))
    requires ListsContainers(containers, maps[i])
    ensures ListsContainers(visited + containers, Flat(maps[..i + 1]))
  {
    PrefixApart(maps, i);
    ListsContainersMore(visited, Flat(maps[..i]), containers, maps[i]);
  }

  lemma SweepEnd(hash: Name -> nat, maps: Maps, count: nat, visited: seq<StoredContainer>)
    requires Indexed(hash, maps, count) && ListsContainers(visited, Flat(maps[..|maps|]))
    ensures ListsContainers(visited, Flat(maps)) && |visited| == count
  {
    assert maps[..|maps|] == maps;
    ListSize(visited, Flat(maps));
  }
}
