/** The thread of one partition that executes its writes, over the real cache. */
module WriteDispatcher {
  import opened Types
  import opened CacheSpec
  import opened ConcurrentMap
  import opened ContainerIndex
  import opened FrontlineCache
  import opened WritePath

  /** What a task does that others can see, with the engine and the cache as they are at that moment. */
  datatype Event =
    | CachePut(task: Task, store: Store)
    | Answer(task: Task, ok: bool, store: Store, shards: seq<Shard>)

  class WriteIoDispatcher {
    const cache: Frontline
    /** The queue keeps no order between its producers, so any task of it may be the next. */
    var queue: multiset<Task>
    var store: Store
    var answers: seq<(Task, bool)>
    ghost var events: seq<Event>

    constructor (cache: Frontline, store: Store)
      ensures this.cache == cache && this.store == store && queue == multiset{} && answers == [] && events == []
    {
      this.cache, this.store, queue, answers, events := cache, store, multiset{}, [], [];
    }

    ghost predicate Valid()
      reads cache.index, TablesOf(cache.index.buckets), cache.shards, cache.Footprint()
    {
      cache.Valid()
    }

    /** The configuration of the cache, whatever the hash for partitions. */
    ghost predicate Configured(c: Config) {
      c.limits == cache.limits && c.slot == cache.slot
    }

    /** `live` are, among the containers of the queue, the live ones. */
    ghost predicate AgreesOnAll(live: set<string>)
      requires cache.index.Valid()
      reads this, cache.index, TablesOf(cache.index.buckets), cache.index.Contents().Values
    {
      forall t | t in queue :: AgreesOn(live, t)
    }

    ghost predicate AgreesOn(live: set<string>, t: Task)
      requires cache.index.Valid()
      reads cache.index, TablesOf(cache.index.buckets), cache.index.Contents().Values
    {
      t.key.container in live <==> cache.IsLive(t.key.container)
    }

    /** This thread's own state is no part of cache and index. */
    lemma Elsewhere()
      ensures this !in cache.Footprint() && this !in TablesOf(cache.index.buckets)
      ensures forall n | n in cache.index.Contents() :: cache.index.Contents()[n] as object != this
    {
      hide Flat, MapsOf;
    }

    /** Whatever the dispatcher is at, a task more to do, and nothing else. */
    method EnqueueIoTask(task: Task, ghost live: set<string>)
      requires Valid() && AgreesOn(live, task) && AgreesOnAll(live)
      modifies this`queue
      ensures Valid() && queue == old(queue) + multiset{task} && AgreesOnAll(live)
      ensures cache.Footprint() == old(cache.Footprint()) && cache.Contents() == old(cache.Contents())
    {
      hide ShardsApart, ShardValues, Separate, Indexed, Flat, MapsOf, Index.GetContainerExistenceStatus;
      Elsewhere();
      queue := queue + multiset{task};
    }

    /** What became of the object in the cache nobody is told. */
    method InsertObjectIntoCache(task: Task, ghost c: Config, ghost live: set<string>)
      requires Valid() && Configured(c) && AgreesOn(live, task)
      modifies this`events, cache.Footprint()
      ensures Valid() && fresh(cache.Footprint() - old(cache.Footprint()))
      ensures cache.Contents() == ShardsAfter(c, live, old(cache.Contents()), task, true)
      ensures events == old(events) + [CachePut(task, store)]
      ensures forall s :: cache.IsLive(s) <==> old(cache.IsLive(s))
    {
      hide ShardsApart, ShardValues, Separate, Indexed, Flat, MapsOf, CacheSpec.Put, Index.GetContainerExistenceStatus;
      Elsewhere();
      events := events + [CachePut(task, store)];
      assert Valid() && AgreesOn(live, task);
      var status := cache.Put(task.key.id, task.data, task.key.container);
    }

    method SendResponse(task: Task, ok: bool)
      requires Valid()
      modifies this`answers, this`events
      ensures answers == old(answers) + [(task, ok)]
      ensures events == old(events) + [Answer(task, ok, store, cache.Contents())]
      ensures Valid() && cache.Footprint() == old(cache.Footprint()) && cache.Contents() == old(cache.Contents())
      ensures forall s :: cache.IsLive(s) <==> old(cache.IsLive(s))
    {
      hide ShardsApart, ShardValues, Separate, Indexed, Flat, MapsOf, Index.GetContainerExistenceStatus;
      Elsewhere();
      answers := answers + [(task, ok)];
      events := events + [Answer(task, ok, store, cache.Contents())];
    }

    /** The engine first, then the cache if that succeeded, then the answer. */
    method ExecuteWriteIoTask(task: Task, ok: bool, ghost c: Config, ghost live: set<string>)
      requires Valid() && Configured(c) && AgreesOn(live, task)
      modifies this`store, this`answers, this`events, cache.Footprint()
      ensures Valid() && fresh(cache.Footprint() - old(cache.Footprint()))
      ensures store == StoreAfter(old(store), task, ok)
      ensures cache.Contents() == ShardsAfter(c, live, old(cache.Contents()), task, ok)
      ensures answers == old(answers) + [(task, ok)]
      ensures events == old(events) +
        if ok then [CachePut(task, store), Answer(task, true, store, cache.Contents())]
        else [Answer(task, false, store, cache.Contents())]
      ensures forall s :: cache.IsLive(s) <==> old(cache.IsLive(s))
    {
      hide ShardsApart, ShardValues, Separate, Indexed, Flat, MapsOf, CacheSpec.Put, Executing,
        Index.GetContainerExistenceStatus;
      Elsewhere();
      if ok {
        store := Executing(store, task);
        InsertObjectIntoCache(task, c, live);
      }
      Elsewhere();
      SendResponse(task, ok);
    }

    method TakeNext(ghost live: set<string>) returns (task: Task)
      requires Valid() && queue != multiset{} && AgreesOnAll(live)
      modifies this`queue
      ensures Valid() && cache.Footprint() == old(cache.Footprint()) && cache.Contents() == old(cache.Contents())
      ensures task in old(queue) && queue == old(queue) - multiset{task}
      ensures AgreesOn(live, task) && AgreesOnAll(live)
      ensures forall s :: cache.IsLive(s) <==> old(cache.IsLive(s))
    {
      hide ShardsApart, ShardValues, Separate, Indexed, Flat, MapsOf, Index.GetContainerExistenceStatus;
      task :| task in queue;
      Elsewhere();
      queue := queue - multiset{task};
    }

    /** Take some task from the queue and execute it. */
    method DispatchNext(ok: bool, ghost c: Config, ghost live: set<string>) returns (task: Task)
      requires Valid() && Configured(c) && queue != multiset{} && AgreesOnAll(live)
      modifies this, cache.Footprint()
      ensures Valid() && fresh(cache.Footprint() - old(cache.Footprint()))
      ensures task in old(queue) && queue == old(queue) - multiset{task}
      ensures store == StoreAfter(old(store), task, ok)
      ensures cache.Contents() == ShardsAfter(c, live, old(cache.Contents()), task, ok)
      ensures answers == old(answers) + [(task, ok)]
      ensures events == old(events) +
        if ok then [CachePut(task, store), Answer(task, true, store, cache.Contents())]
        else [Answer(task, false, store, cache.Contents())]
      ensures AgreesOnAll(live)
    {
      hide ShardsApart, ShardValues, Separate, Indexed, Flat, MapsOf, ShardsAfter, StoreAfter, Frontline.IsLive;
      task := TakeNext(live);
      ExecuteWriteIoTask(task, ok, c, live);
    }

    /** The loop of the thread, over what is queued when it comes to it: in some order each task is executed
        and answered once, and engine and cache end up as after running them one after the other in that order. */
    method DispatchWriteIoTasks(oks: seq<bool>, ghost c: Config, ghost live: set<string>) returns (order: seq<Task>)
      requires Valid() && Configured(c) && |oks| == |queue|
      requires AgreesOnAll(live)
      modifies this, cache.Footprint()
      ensures Valid() && queue == multiset{} && multiset(order) == old(queue) && |order| == |oks|
      ensures store == AllStored(old(store), order, oks)
      ensures |old(cache.Contents())| > 0 && cache.Contents() == AllCached(c, live, old(cache.Contents()), order, oks)
      ensures answers == old(answers) + AnswersTo(order, oks)
    {
      hide ShardsApart, ShardValues, Separate, Indexed, Flat, MapsOf, Frontline.IsLive, AgreesOnAll,
        ShardsAfter, StoreAfter, AllStored, AllCached;
      order := [];
      NothingRun(c, live, store, cache.Contents());
      while queue != multiset{}
        invariant Valid() && fresh(cache.Footprint() - old(cache.Footprint()))
        invariant multiset(order) + queue == old(queue) && |order| + |queue| == |oks|
        invariant AgreesOnAll(live)
        invariant store == AllStored(old(store), order, oks[..|order|])
        invariant cache.Contents() == AllCached(c, live, old(cache.Contents()), order, oks[..|order|])
        invariant answers == old(answers) + AnswersTo(order, oks[..|order|])
        decreases |queue|
      {
        var i := |order|;
        assert oks[..i + 1] == oks[..i] + [oks[i]];
        var task := DispatchNext(oks[i], c, live);
        OneMore(c, live, old(store), old(cache.Contents()), order, oks[..i], task, oks[i]);
        order := order + [task];
      }
      assert oks[..|order|] == oks;
    }
  }

  lemma NothingRun(c: Config, live: set<string>, store: Store, shards: seq<Shard>)
    requires |shards| > 0
    ensures AllStored(store, [], []) == store && AllCached(c, live, shards, [], []) == shards
  {
  }

  function AnswersTo(ts: seq<Task>, oks: seq<bool>): (answers: seq<(Task, bool)>)
    requires |oks| == |ts|
    ensures |answers| == |ts|
  {
    seq(|ts|, i requires 0 <= i < |ts| => (ts[i], oks[i]))
  }
}
