/** The frontline cache: which shard an object goes to and for which containers,
    over the real shards and the real index. */
module FrontlineCache {
  import opened Types
  import opened CacheSpec
  import opened CacheShard
  import opened ConcurrentMap
  import opened ContainerIndex

  /** The shards and their nodes. */
  ghost function ShardObjects(shards: seq<LruShard>): set<object>
    reads shards
  {
    (set i | 0 <= i < |shards| :: shards[i] as object)
      + (set i, j | 0 <= i < |shards| && 0 <= j < |shards[i].nodes| :: shards[i].nodes[j])
  }

  ghost predicate ShardsApart(limits: Limits, shards: seq<LruShard>)
    reads shards, ShardObjects(shards)
  {
    && |shards| > 0
    && (forall i | 0 <= i < |shards| :: shards[i].Valid() && shards[i].limits == limits)
    && (forall i, j | 0 <= i < j < |shards| :: shards[i] != shards[j])
    && (forall i, j, a, b | 0 <= i < j < |shards| && 0 <= a < |shards[i].nodes| && 0 <= b < |shards[j].nodes| ::
          shards[i].nodes[a] != shards[j].nodes[b])
  }

  ghost function ShardValues(shards: seq<LruShard>): (values: seq<Shard>)
    reads shards, ShardObjects(shards)
    ensures |values| == |shards|
  {
    seq(|shards|, i requires 0 <= i < |shards| reads shards, ShardObjects(shards) => shards[i].Contents())
  }

  /** The shards after a call on one of them, which may have given it new nodes. */
  lemma ShardsUpdated(limits: Limits, shards: seq<LruShard>, i: nat, values: seq<Shard>)
    requires i < |shards| && |values| == |shards|
    requires shards[i].Valid() && shards[i].limits == limits
    requires forall j | 0 <= j < |shards| && j != i ::
      shards[j].Valid() && shards[j].limits == limits && shards[j].Contents() == values[j]
    requires forall j, k | 0 <= j < k < |shards| :: shards[j] != shards[k]
    requires forall j, k, a, b | 0 <= j < k < |shards| && 0 <= a < |shards[j].nodes| && 0 <= b < |shards[k].nodes| ::
      shards[j].nodes[a] != shards[k].nodes[b]
    ensures ShardsApart(limits, shards) && ShardValues(shards) == values[i := shards[i].Contents()]
  {
  }

  lemma ShardAt(limits: Limits, shards: seq<LruShard>, i: nat)
    requires ShardsApart(limits, shards) && i < |shards|
    ensures shards[i].Valid() && shards[i].limits == limits
    ensures forall j | 0 <= j < |shards| :: ShardValues(shards)[j] == shards[j].Contents()
    ensures shards[i] in ShardObjects(shards) && forall n | n in shards[i].nodes :: n in ShardObjects(shards)
    ensures forall j, a, b | 0 <= j < |shards| && j != i && 0 <= a < |shards[j].nodes| && 0 <= b < |shards[i].nodes| ::
      shards[j] != shards[i] && shards[j].nodes[a] != shards[i].nodes[b]
  {
    forall j, a, b | 0 <= j < |shards| && j != i && 0 <= a < |shards[j].nodes| && 0 <= b < |shards[i].nodes|
      ensures shards[j] != shards[i] && shards[j].nodes[a] != shards[i].nodes[b]
    {
      if j < i {
        assert shards[j].nodes[a] != shards[i].nodes[b];
      } else {
        assert shards[i].nodes[b] != shards[j].nodes[a];
      }
    }
  }

  method PutAt(limits: Limits, shards: seq<LruShard>, i: nat, id: string, data: Bytes, container: string)
    returns (status: Status)
    requires ShardsApart(limits, shards) && i < |shards|
    modifies ShardObjects(shards)
    ensures ShardsApart(limits, shards) && fresh(ShardObjects(shards) - old(ShardObjects(shards)))
    ensures status == if |data| > limits.maxObject then ObjectDataSizeExceedsCacheLimit else Success
    ensures ShardValues(shards) ==
      old(ShardValues(shards))[i := CacheSpec.Put(limits, old(ShardValues(shards))[i], Key(container, id), data)]
  {
    hide LruShard.Valid, LruShard.Contents, CacheSpec.Put;
    ShardAt(limits, shards, i);
    ghost var values := ShardValues(shards);
    status := shards[i].Put(id, data, container);
    forall j | 0 <= j < |shards| && j != i
      ensures shards[j].Valid() && shards[j].limits == limits && shards[j].Contents() == values[j]
    {
      assert old(shards[j].Valid()) && values[j] == old(shards[j].Contents());
    }
    ShardsUpdated(limits, shards, i, values);
  }

  method GetAt(limits: Limits, shards: seq<LruShard>, i: nat, id: string, container: string)
      returns (data: Option<Bytes>)
    requires ShardsApart(limits, shards) && i < |shards|
    modifies ShardObjects(shards)
    ensures ShardsApart(limits, shards) && fresh(ShardObjects(shards) - old(ShardObjects(shards)))
    ensures data == Lookup(old(ShardValues(shards))[i], Key(container, id))
    ensures ShardValues(shards) ==
      old(ShardValues(shards))[i := CacheSpec.Get(old(ShardValues(shards))[i], Key(container, id))]
  {
    hide LruShard.Valid, LruShard.Contents, CacheSpec.Get;
    ShardAt(limits, shards, i);
    ghost var values := ShardValues(shards);
    data := shards[i].Get(id, container);
    forall j | 0 <= j < |shards| && j != i
      ensures shards[j].Valid() && shards[j].limits == limits && shards[j].Contents() == values[j]
    {
      assert old(shards[j].Valid()) && values[j] == old(shards[j].Contents());
    }
    ShardsUpdated(limits, shards, i, values);
  }

  method MakeShards(limits: Limits, number: nat) returns (shards: seq<LruShard>)
    requires limits.maxShard < SIZE_T && limits.maxObject < SIZE_T && number > 0
    ensures |shards| == number && ShardsApart(limits, shards) && fresh(ShardObjects(shards))
    ensures forall i | 0 <= i < |shards| :: ShardValues(shards)[i] == Shard([], 0)
  {
    shards := [];
    while |shards| < number
      invariant |shards| <= number && fresh(shards)
      invariant forall i | 0 <= i < |shards| :: shards[i].Valid() && shards[i].nodes == [] && shards[i].limits == limits
      invariant forall i | 0 <= i < |shards| :: shards[i].Contents() == Shard([], 0)
      invariant forall i, j | 0 <= i < j < |shards| :: shards[i] != shards[j]
      decreases number - |shards|
    {
      var shard := new LruShard(limits);
      shards := shards + [shard];
    }
  }

  /** Shards and nodes are no part of an index. */
  lemma IndexIsElsewhere(index: Index, shards: seq<LruShard>)
    ensures index !in ShardObjects(shards) && TablesOf(index.buckets) !! ShardObjects(shards)
    ensures forall n | n in index.Contents() :: index.Contents()[n] as object !in ShardObjects(shards)
  {
    hide Flat, MapsOf;
  }

  class Frontline {
    const limits: Limits
    const slot: string -> nat
    const shards: seq<LruShard>
    const index: Index

    ghost function Footprint(): set<object>
      reads shards
    {
      ShardObjects(shards)
    }

    ghost predicate Valid()
      reads index, TablesOf(index.buckets), shards, Footprint()
    {
      && ShardsApart(limits, shards) && |shards| > 0 && index.Valid()
    }

    ghost function Contents(): seq<Shard>
      reads shards, Footprint()
    {
      ShardValues(shards)
    }

    constructor (limits: Limits, slot: string -> nat, number: nat, index: Index)
      requires limits.maxShard < SIZE_T && limits.maxObject < SIZE_T && number > 0 && index.Valid()
      ensures Valid() && fresh(Footprint()) && this.limits == limits && this.slot == slot && this.index == index
      ensures |shards| == number && forall i | 0 <= i < number :: Contents()[i] == Shard([], 0)
    {
      hide LruShard.Valid, LruShard.Contents, Separate, Indexed, Flat;
      assert forall o | o in TablesOf(index.buckets) :: !fresh(o);
      var made := MakeShards(limits, number);
      this.limits, this.slot, this.index, shards := limits, slot, index, made;
    }

    /** Whether the index has the container and it is not waiting for deletion. */
    predicate IsLive(container: string)
      requires index.Valid()
      reads index, TablesOf(index.buckets), index.Contents().Values
      ensures IsLive(container) <==>
        NameOf(container) in index.Contents() && !index.Contents()[NameOf(container)].deleted
    {
      index.GetContainerExistenceStatus(NameOf(container)) == ContainerAlreadyExists
    }

    /** Objects of containers that are not live are refused; others go to the shard of their id. */
    method Put(id: string, data: Bytes, container: string) returns (status: Status)
      requires Valid()
      modifies Footprint()
      ensures Valid() && fresh(Footprint() - old(Footprint()))
      ensures !old(IsLive(container)) ==> status == old(index.GetContainerExistenceStatus(NameOf(container)))
      ensures old(IsLive(container)) ==>
        status == if |data| > limits.maxObject then ObjectDataSizeExceedsCacheLimit else Success
      ensures forall s :: IsLive(s) <==> old(IsLive(s))
      ensures var i := slot(id) % |shards|;
        Contents() == if !old(IsLive(container)) then old(Contents())
                      else old(Contents())[i := CacheSpec.Put(limits, old(Contents())[i], Key(container, id), data)]
    {
      hide Separate, Indexed, Flat, LruShard.Valid, CacheSpec.Put, NameOf;
      if !IsLive(container) {
        return index.GetContainerExistenceStatus(NameOf(container));
      }
      IndexIsElsewhere(index, shards);
      status := PutAt(limits, shards, slot(id) % |shards|, id, data, container);
    }

    /** A container that is not live has nothing in the cache, whatever the shard of the id still holds. */
    method Get(id: string, container: string) returns (data: Option<Bytes>)
      requires Valid()
      modifies Footprint()
      ensures Valid() && fresh(Footprint() - old(Footprint()))
      ensures var i := slot(id) % |shards|;
        && data == (if !old(IsLive(container)) then None else Lookup(old(Contents())[i], Key(container, id)))
        && Contents() == if !old(IsLive(container)) then old(Contents())
                         else old(Contents())[i := CacheSpec.Get(old(Contents())[i], Key(container, id))]
    {
      hide Separate, Indexed, Flat, LruShard.Valid;
      if !IsLive(container) {
        return None;
      }
      IndexIsElsewhere(index, shards);
      data := GetAt(limits, shards, slot(id) % |shards|, id, container);
    }
  }
}
