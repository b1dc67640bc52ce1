/**
  * How objects are written: one dispatcher thread a partition, each taking a task from its
  * queue, calling the engine, putting the object into the cache and only then answering.
  * The queue promises nothing about order, the dispatchers interleave freely.
  */
module WritePath {
  import opened Types
  import opened CacheSpec

  datatype Kind = Insert | Delete

  /** A write request; its ticket tells it from every other. */
  datatype Task = Task(ticket: nat, kind: Kind, key: Key, data: Bytes)

  /** A dispatcher waits, has a task, has the engine's answer, has put the object into the cache. */
  datatype Dispatcher = Waiting | Dispatched(task: Task) | Executed(task: Task, ok: bool) | Cached(task: Task, ok: bool)

  type Store = map<Key, Bytes>

  /** A partition's queue, dispatcher and engine. `written` and `cached` record in which order its
      tasks succeeded in the engine and were handed to the cache, `lives` which of the latter found
      their container live. */
  datatype Partition = Partition(
    queue: multiset<Task>,
    pc: Dispatcher,
    store: Store,
    written: seq<Task>,
    cached: seq<Task>,
    lives: seq<bool>)

  /** `ops` records what was done to each cache shard and `sources` which task, if any, did it;
      `answered` the requests that were answered. */
  datatype State = State(
    parts: seq<Partition>,
    shards: seq<Shard>,
    ops: seq<seq<Op>>,
    sources: seq<seq<Option<Task>>>,
    live: set<string>,
    answered: set<(Task, bool)>)

  /** The sizes of a cache shard, and the two hashes of an object id: for its partition and for its shard. */
  datatype Config = Config(limits: Limits, collocation: string -> nat, slot: string -> nat)

  /** The partition of an object, of n. */
  function Home(c: Config, n: nat, k: Key): (p: nat)
    requires n > 0
    ensures p < n
  {
    c.collocation(k.id) % n
  }

  /** The cache shard of an object, of n. */
  function Slot(c: Config, n: nat, k: Key): (i: nat)
    requires n > 0
    ensures i < n
  {
    c.slot(k.id) % n
  }

  // ---------------------------------------------------------------- actions

  datatype Action =
    | Enqueue(task: Task)
    | Dequeue(p: nat, task: Task)
    | CallEngine(p: nat, ok: bool)
    | PutIntoCache(p: nat)
    | Respond(p: nat)
    | ClientGet(key: Key)
    | ReadDone(key: Key, payload: Bytes)
    | ContainerGone(name: string)
    | ContainerBack(name: string)

  predicate Sized(s: State) {
    |s.parts| > 0 && |s.shards| > 0 && |s.ops| == |s.shards| == |s.sources|
  }

  predicate Enabled(c: Config, s: State, a: Action)
    requires Sized(s)
  {
    match a
    case Enqueue(_) => true
    case Dequeue(p, t) => p < |s.parts| && s.parts[p].pc.Waiting? && t in s.parts[p].queue
    case CallEngine(p, _) => p < |s.parts| && s.parts[p].pc.Dispatched?
    case PutIntoCache(p) => p < |s.parts| && s.parts[p].pc.Executed?
    case Respond(p) => p < |s.parts| && s.parts[p].pc.Cached?
    case ClientGet(_) => true
    case ReadDone(k, _) => k in s.parts[Home(c, |s.parts|, k)].store
    case ContainerGone(_) => true
    case ContainerBack(_) => true
  }

  function Executing(store: Store, t: Task): Store {
    match t.kind
    case Insert => store[t.key := t.data]
    case Delete => store - {t.key}
  }

  /** The cache takes objects of live containers only, into the shard of their id. */
  function CacheOp(c: Config, s: State, op: Op, source: Option<Task>): State
    requires Sized(s)
  {
    if op.key.container in s.live then
      var i := Slot(c, |s.shards|, op.key);
      s.(shards := s.shards[i := Apply(c.limits, s.shards[i], op)],
         ops := s.ops[i := s.ops[i] + [op]], sources := s.sources[i := s.sources[i] + [source]])
    else s
  }

  function WithPart(s: State, p: nat, part: Partition): State
    requires p < |s.parts|
  {
    s.(parts := s.parts[p := part])
  }

  function Step(c: Config, s: State, a: Action): State
    requires Sized(s) && Enabled(c, s, a)
  {
    match a
    case Enqueue(t) =>
      var p := Home(c, |s.parts|, t.key);
      WithPart(s, p, s.parts[p].(queue := s.parts[p].queue + multiset{t}))
    case Dequeue(p, t) => WithPart(s, p, s.parts[p].(queue := s.parts[p].queue - multiset{t}, pc := Dispatched(t)))
    case CallEngine(p, ok) =>
      var part := s.parts[p];
      var t := part.pc.task;
      if ok then
        WithPart(s, p, part.(store := Executing(part.store, t), written := part.written + [t], pc := Executed(t, true)))
      else WithPart(s, p, part.(pc := Executed(t, false)))
    case PutIntoCache(p) =>
      var part := s.parts[p];
      var t := part.pc.task;
      if part.pc.ok then
        var live := t.key.container in s.live;
        WithPart(CacheOp(c, s, PutOp(t.key, t.data), Some(t)), p,
                 part.(cached := part.cached + [t], lives := part.lives + [live], pc := Cached(t, true)))
      else WithPart(s, p, part.(pc := Cached(t, false)))
    case Respond(p) =>
      var part := s.parts[p];
      WithPart(s, p, part.(pc := Waiting)).(answered := s.answered + {(part.pc.task, part.pc.ok)})
    case ClientGet(k) => CacheOp(c, s, GetOp(k), None)
    case ReadDone(k, payload) => CacheOp(c, s, PutOp(k, payload), None)
    case ContainerGone(n) => s.(live := s.live - {n})
    case ContainerBack(n) => s.(live := s.live + {n})
  }

  // ---------------------------------------------------------------- runs

  predicate StepAt(c: Config, ws: seq<State>, acts: seq<Action>, i: nat) {
    i < |acts| && i + 1 < |ws| && Sized(ws[i]) && Enabled(c, ws[i], acts[i]) && ws[i + 1] == Step(c, ws[i], acts[i])
  }

  /** A session begins with whatever the engines hold, nothing queued, and empty shards. */
  predicate Begins(s: State) {
    && Sized(s) && s.answered == {}
    && (forall i | 0 <= i < |s.shards| :: s.shards[i] == Shard([], 0) && s.ops[i] == [] && s.sources[i] == [])
    && (forall p | 0 <= p < |s.parts| ::
          && s.parts[p].queue == multiset{} && s.parts[p].pc == Waiting
          && s.parts[p].written == [] && s.parts[p].cached == [] && s.parts[p].lives == [])
  }

  predicate Run(c: Config, ws: seq<State>, acts: seq<Action>) {
    && |ws| == |acts| + 1
    && Begins(ws[0])
    && forall i | 0 <= i < |acts| :: StepAt(c, ws, acts, i)
  }

  // ---------------------------------------------------------------- the order of writes

  /** What is in the engine and not yet in the cache. */
  function Between(pc: Dispatcher): (ts: seq<Task>) {
    if pc.Executed? && pc.ok then [pc.task] else []
  }

  /** Everything a partition has to do with belongs to it, and it caches in the order in which it writes. */
  predicate PartOk(c: Config, n: nat, p: nat, part: Partition)
    requires n > 0
  {
    && part.written == part.cached + Between(part.pc) && |part.lives| == |part.cached|
    && (forall t | t in part.queue :: Home(c, n, t.key) == p)
    && (!part.pc.Waiting? ==> Home(c, n, part.pc.task.key) == p)
    && (forall i | 0 <= i < |part.written| :: Home(c, n, part.written[i].key) == p)
    && (part.pc.Cached? && part.pc.ok ==> part.pc.task in part.cached)
  }

  predicate PartsOk(c: Config, parts: seq<Partition>) {
    forall p | 0 <= p < |parts| :: PartOk(c, |parts|, p, parts[p])
  }

  predicate ShardsOk(c: Config, shards: seq<Shard>, ops: seq<seq<Op>>) {
    |ops| == |shards| && forall i | 0 <= i < |shards| :: shards[i] == After(c.limits, ops[i])
  }

  /** A task that was answered with success is among those put into the cache. */
  predicate AnsweredOk(c: Config, parts: seq<Partition>, answered: set<(Task, bool)>) {
    |parts| > 0 && forall e | e in answered && e.1 :: e.0 in parts[Home(c, |parts|, e.0.key)].cached
  }

  predicate Ordered(c: Config, s: State) {
    Sized(s) && PartsOk(c, s.parts) && ShardsOk(c, s.shards, s.ops) && AnsweredOk(c, s.parts, s.answered)
  }

  lemma CacheOpKeeps(c: Config, s: State, op: Op, source: Option<Task>)
    requires Sized(s) && ShardsOk(c, s.shards, s.ops)
    ensures var s' := CacheOp(c, s, op, source); |s'.shards| == |s.shards| && ShardsOk(c, s'.shards, s'.ops)
  {
    if op.key.container in s.live {
      var i := Slot(c, |s.shards|, op.key);
      assert (s.ops[i] + [op])[..|s.ops[i]|] == s.ops[i];
    }
  }

  lemma PartKeeps(c: Config, s: State, p: nat, part: Partition)
    requires Sized(s) && PartsOk(c, s.parts) && AnsweredOk(c, s.parts, s.answered) && p < |s.parts|
    requires PartOk(c, |s.parts|, p, part) && s.parts[p].cached <= part.cached
    ensures PartsOk(c, WithPart(s, p, part).parts) && AnsweredOk(c, WithPart(s, p, part).parts, s.answered)
  {
    var parts := WithPart(s, p, part).parts;
    forall e | e in s.answered && e.1 ensures e.0 in parts[Home(c, |parts|, e.0.key)].cached {
      var home := Home(c, |parts|, e.0.key);
      var i :| 0 <= i < |s.parts[home].cached| && s.parts[home].cached[i] == e.0;
      assert parts[home].cached[i] == e.0;
    }
  }

  /** What the partition of an action becomes. */
  predicate MovesPart(a: Action) {
    a.Enqueue? || a.Dequeue? || a.CallEngine? || a.PutIntoCache? || a.Respond?
  }

  function PartOf(c: Config, s: State, a: Action): (p: nat)
    requires Sized(s) && Enabled(c, s, a) && MovesPart(a)
    ensures p < |s.parts|
  {
    if a.Enqueue? then Home(c, |s.parts|, a.task.key) else a.p
  }

  /** The part of a partition is replaced by one that is in order, with all the tasks it had handed on. */
  predicate PartGoesOn(c: Config, s: State, p: nat, s': State)
    requires |s.parts| > 0
  {
    && p < |s.parts| && |s'.parts| == |s.parts|
    && s'.parts == s.parts[p := s'.parts[p]]
    && PartOk(c, |s.parts|, p, s'.parts[p])
    && s.parts[p].cached <= s'.parts[p].cached
  }

  lemma CachingPartStep(c: Config, s: State, p: nat)
    requires Sized(s) && PartsOk(c, s.parts) && Enabled(c, s, PutIntoCache(p))
    ensures PartGoesOn(c, s, p, Step(c, s, PutIntoCache(p)))
  {
    hide Apply, Executing, Home;
    assert PartOk(c, |s.parts|, p, s.parts[p]);
    assert s.parts[p].pc.task in s.parts[p].cached + [s.parts[p].pc.task];
  }

  lemma PartStep(c: Config, s: State, a: Action)
    requires Sized(s) && PartsOk(c, s.parts) && Enabled(c, s, a) && MovesPart(a)
    ensures PartGoesOn(c, s, PartOf(c, s, a), Step(c, s, a))
  {
    hide Apply, Executing, CacheOp;
    if a.PutIntoCache? {
      hide PartGoesOn, Step;
      CachingPartStep(c, s, a.p);
    } else {
      assert PartOk(c, |s.parts|, PartOf(c, s, a), s.parts[PartOf(c, s, a)]);
    }
  }

  lemma OrderedStep(c: Config, s: State, a: Action)
    requires Ordered(c, s) && Enabled(c, s, a)
    ensures Ordered(c, Step(c, s, a)) && |Step(c, s, a).parts| == |s.parts| && |Step(c, s, a).shards| == |s.shards|
  {
    if MovesPart(a) {
      var p := PartOf(c, s, a);
      PartStep(c, s, a);
      PartKeeps(c, s, p, Step(c, s, a).parts[p]);
      assert PartOk(c, |s.parts|, p, s.parts[p]);
    }
    hide PartOk, PartsOk, After, Apply;
    match a
    case PutIntoCache(p) =>
      var t := s.parts[p].pc.task;
      if s.parts[p].pc.ok { CacheOpKeeps(c, s, PutOp(t.key, t.data), Some(t)); }
    case ClientGet(k) => CacheOpKeeps(c, s, GetOp(k), None);
    case ReadDone(k, payload) => CacheOpKeeps(c, s, PutOp(k, payload), None);
    case _ =>
  }

  lemma {:induction false} OrderedAt(c: Config, ws: seq<State>, acts: seq<Action>, j: nat)
    requires Run(c, ws, acts) && j < |ws|
    ensures Ordered(c, ws[j]) && |ws[j].parts| == |ws[0].parts| && |ws[j].shards| == |ws[0].shards|
  {
    if j > 0 {
      OrderedAt(c, ws, acts, j - 1);
      assert StepAt(c, ws, acts, j - 1);
      OrderedStep(c, ws[j - 1], acts[j - 1]);
    }
  }

  /** Those of the writes that concern one object. */
  function Of(ts: seq<Task>, k: Key): (sub: seq<Task>) {
    if ts == [] then [] else Of(ts[..|ts| - 1], k) + if ts[|ts| - 1].key == k then [ts[|ts| - 1]] else []
  }

  lemma {:induction false} OfJoin(a: seq<Task>, b: seq<Task>, k: Key)
    ensures Of(a + b, k) == Of(a, k) + Of(b, k)
    decreases |b|
  {
    if b == [] {
      assert a + b == a;
    } else {
      OfJoin(a, b[..|b| - 1], k);
      assert (a + b)[..|a + b| - 1] == a + b[..|b| - 1];
    }
  }

  /** Those of the tasks handed to the cache that found the object's container live. */
  function Kept(cached: seq<Task>, lives: seq<bool>, k: Key): (kept: seq<Task>)
    requires |lives| == |cached|
  {
    if cached == [] then []
    else
      var last := |cached| - 1;
      Kept(cached[..last], lives[..last], k) + if lives[last] && cached[last].key == k then [cached[last]] else []
  }

  /** The tasks behind the operations of a shard that concern the object. */
  function PutBy(sources: seq<Option<Task>>, k: Key): (ts: seq<Task>) {
    if sources == [] then []
    else
      var last := |sources| - 1;
      PutBy(sources[..last], k)
        + if sources[last].Some? && sources[last].value.key == k then [sources[last].value] else []
  }

  /** Each task that a shard has an operation from is behind a put of just its object. */
  predicate Traced(ops: seq<Op>, sources: seq<Option<Task>>) {
    && |sources| == |ops|
    && forall i | 0 <= i < |ops| && sources[i].Some? :: ops[i] == PutOp(sources[i].value.key, sources[i].value.data)
  }

  /** The shard of k has had from the dispatchers just what the partition of k handed on while k's container
      was live. */
  predicate Fed(c: Config, s: State, k: Key)
    requires Sized(s)
  {
    var part, i := s.parts[Home(c, |s.parts|, k)], Slot(c, |s.shards|, k);
    && Traced(s.ops[i], s.sources[i])
    && |part.lives| == |part.cached| && PutBy(s.sources[i], k) == Kept(part.cached, part.lives, k)
  }

  lemma CacheOpFeeds(c: Config, s: State, op: Op, source: Option<Task>, k: Key)
    requires Sized(s) && (source.Some? ==> op == PutOp(source.value.key, source.value.data))
    requires Traced(s.ops[Slot(c, |s.shards|, k)], s.sources[Slot(c, |s.shards|, k)])
    ensures var s' := CacheOp(c, s, op, source); var i := Slot(c, |s.shards|, k);
      && |s'.shards| == |s.shards| && Sized(s') && Traced(s'.ops[i], s'.sources[i])
      && PutBy(s'.sources[i], k)
         == PutBy(s.sources[i], k) + if source.Some? && op.key == k && k.container in s.live then [source.value] else []
  {
    var i := Slot(c, |s.shards|, k);
    assert (s.sources[i] + [source])[..|s.sources[i]|] == s.sources[i];
  }

  lemma KeptMore(cached: seq<Task>, lives: seq<bool>, t: Task, live: bool, k: Key)
    requires |lives| == |cached|
    ensures Kept(cached + [t], lives + [live], k) == Kept(cached, lives, k) + if live && t.key == k then [t] else []
  {
    assert (cached + [t])[..|cached|] == cached && (lives + [live])[..|lives|] == lives;
  }

  lemma FedStep(c: Config, s: State, a: Action, k: Key)
    requires Sized(s) && PartsOk(c, s.parts) && Enabled(c, s, a) && Fed(c, s, k)
    ensures Sized(Step(c, s, a)) && Fed(c, Step(c, s, a), k)
  {
    hide PartsOk, PartOk, PutBy, Kept, Traced, Apply;
    match a
    case PutIntoCache(p) =>
      if s.parts[p].pc.ok {
        var t := s.parts[p].pc.task;
        assert Home(c, |s.parts|, t.key) == p && |s.parts[p].lives| == |s.parts[p].cached| by { AtHome(c, s.parts, p); }
        CacheOpFeeds(c, s, PutOp(t.key, t.data), Some(t), k);
        KeptMore(s.parts[p].cached, s.parts[p].lives, t, t.key.container in s.live, k);
      }
    case ClientGet(m) => CacheOpFeeds(c, s, GetOp(m), None, k);
    case ReadDone(m, payload) => CacheOpFeeds(c, s, PutOp(m, payload), None, k);
    case _ =>
  }

  lemma AtHome(c: Config, parts: seq<Partition>, p: nat)
    requires PartsOk(c, parts) && p < |parts|
    ensures !parts[p].pc.Waiting? ==> Home(c, |parts|, parts[p].pc.task.key) == p
    ensures |parts[p].lives| == |parts[p].cached|
  {
    assert PartOk(c, |parts|, p, parts[p]);
  }

  lemma {:induction false} FedAt(c: Config, ws: seq<State>, acts: seq<Action>, j: nat, k: Key)
    requires Run(c, ws, acts) && j < |ws|
    ensures Sized(ws[j]) && Fed(c, ws[j], k)
  {
    if j > 0 {
      FedAt(c, ws, acts, j - 1, k);
      OrderedAt(c, ws, acts, j - 1);
      assert StepAt(c, ws, acts, j - 1);
      hide Run, Step, Enabled, Fed, PartsOk;
      FedStep(c, ws[j - 1], acts[j - 1], k);
    }
  }

  /** In every run, with removes, failures and reads, under any interleaving and any order of the
      queues: all writes of an object succeed on one partition; they are handed to the cache in just the
      order in which they reached the engine, the last one perhaps still under way; and the object's shard
      was given, in that order, just those of them that found its container live. */
  lemma WritesKeepOrder(c: Config, ws: seq<State>, acts: seq<Action>, j: nat, p: nat, k: Key)
    requires Run(c, ws, acts) && j < |ws| && p < |ws[j].parts|
    ensures var part := ws[j].parts[p]; Of(part.written, k) == Of(part.cached, k) + Of(Between(part.pc), k)
    ensures p != c.collocation(k.id) % |ws[j].parts| ==> Of(ws[j].parts[p].written, k) == []
    ensures Sized(ws[j])
    ensures p == c.collocation(k.id) % |ws[j].parts| ==>
      var part, i := ws[j].parts[p], c.slot(k.id) % |ws[j].shards|;
      && |part.lives| == |part.cached| && Traced(ws[j].ops[i], ws[j].sources[i])
      && PutBy(ws[j].sources[i], k) == Kept(part.cached, part.lives, k)
  {
    OrderedAt(c, ws, acts, j);
    FedAt(c, ws, acts, j, k);
    var part := ws[j].parts[p];
    assert PartOk(c, |ws[j].parts|, p, part);
    OfJoin(part.cached, Between(part.pc), k);
    if p != Home(c, |ws[j].parts|, k) {
      NoneOf(part.written, k);
    }
  }

  lemma {:induction false} NoneOf(ts: seq<Task>, k: Key)
    requires forall i | 0 <= i < |ts| :: ts[i].key != k
    ensures Of(ts, k) == []
  {
    if ts != [] {
      NoneOf(ts[..|ts| - 1], k);
    }
  }

  // ---------------------------------------------------------------- coherence of cache and engine

  /** An insert the cache will take: not too large, and its container live. */
  predicate PlainTask(c: Config, live: set<string>, t: Task) {
    t.kind.Insert? && |t.data| <= c.limits.maxObject && t.key.container in live
  }

  /** Actions of a run in which of the object only such inserts are asked for, its container does not go,
      and no read of it comes back from the engine; with other objects anything may be done. */
  predicate Plain(c: Config, s: State, a: Action, k: Key) {
    && (a.Enqueue? && a.task.key == k ==> PlainTask(c, s.live, a.task))
    && !(a.ReadDone? && a.key == k) && a != ContainerGone(k.container)
  }

  predicate PlainRun(c: Config, ws: seq<State>, acts: seq<Action>, k: Key) {
    Run(c, ws, acts) && forall i | 0 <= i < |acts| :: Plain(c, ws[i], acts[i], k)
  }

  predicate PlainPart(c: Config, live: set<string>, part: Partition, k: Key) {
    && (forall t | t in part.queue && t.key == k :: PlainTask(c, live, t))
    && (!part.pc.Waiting? && part.pc.task.key == k ==> PlainTask(c, live, part.pc.task))
  }

  predicate PlainParts(c: Config, live: set<string>, parts: seq<Partition>, k: Key) {
    forall p | 0 <= p < |parts| :: PlainPart(c, live, parts[p], k)
  }

  /** The data of the last task on the object. */
  function LastOf(ts: seq<Task>, k: Key): Option<Bytes> {
    if ts == [] then None else if ts[|ts| - 1].key == k then Some(ts[|ts| - 1].data) else LastOf(ts[..|ts| - 1], k)
  }

  /** What the cache was last given is what the partition last put into it, and what the engine has is what
      was last written to it. */
  predicate KeyOk(c: Config, s: State, k: Key)
    requires Sized(s)
  {
    var part := s.parts[Home(c, |s.parts|, k)];
    && LastPut(c.limits, s.ops[Slot(c, |s.shards|, k)], k) == LastOf(part.cached, k)
    && (LastOf(part.written, k).Some? ==> k in part.store && Some(part.store[k]) == LastOf(part.written, k))
  }

  lemma LastOfMore(ts: seq<Task>, t: Task, k: Key)
    ensures LastOf(ts + [t], k) == if t.key == k then Some(t.data) else LastOf(ts, k)
  {
    assert (ts + [t])[..|ts|] == ts;
  }

  lemma CacheOpLast(c: Config, s: State, op: Op, source: Option<Task>, k: Key)
    requires Sized(s)
    ensures var s' := CacheOp(c, s, op, source); |s'.shards| == |s.shards| && |s'.ops| == |s.ops|
    ensures var i := Slot(c, |s.shards|, k);
      LastPut(c.limits, CacheOp(c, s, op, source).ops[i], k) ==
        if op.PutOp? && op.key == k && Accepted(c.limits, op) && k.container in s.live then Some(op.data)
        else LastPut(c.limits, s.ops[i], k)
  {
    var i := Slot(c, |s.shards|, op.key);
    assert (s.ops[i] + [op])[..|s.ops[i]|] == s.ops[i];
  }

  lemma EngineKeepsKey(c: Config, s: State, p: nat, ok: bool, k: Key)
    requires Sized(s) && PartsOk(c, s.parts) && PlainParts(c, s.live, s.parts, k) && KeyOk(c, s, k)
    requires Enabled(c, s, CallEngine(p, ok))
    ensures KeyOk(c, Step(c, s, CallEngine(p, ok)), k)
  {
    assert PartOk(c, |s.parts|, p, s.parts[p]) && PlainPart(c, s.live, s.parts[p], k);
    hide PartsOk, PlainParts, LastPut, LastOf;
    LastOfMore(s.parts[p].written, s.parts[p].pc.task, k);
  }

  lemma CacheKeepsKey(c: Config, s: State, p: nat, k: Key)
    requires Sized(s) && PartsOk(c, s.parts) && PlainParts(c, s.live, s.parts, k) && KeyOk(c, s, k)
    requires Enabled(c, s, PutIntoCache(p))
    ensures KeyOk(c, Step(c, s, PutIntoCache(p)), k)
  {
    hide PartsOk, LastPut, LastOf, Apply;
    AtHome(c, s.parts, p);
    assert PlainPart(c, s.live, s.parts[p], k);
    var t := s.parts[p].pc.task;
    CacheOpLast(c, s, PutOp(t.key, t.data), Some(t), k);
    LastOfMore(s.parts[p].cached, t, k);
  }

  lemma KeyStep(c: Config, s: State, a: Action, k: Key)
    requires Sized(s) && PartsOk(c, s.parts) && PlainParts(c, s.live, s.parts, k) && KeyOk(c, s, k)
    requires Enabled(c, s, a) && Plain(c, s, a, k)
    requires Sized(Step(c, s, a))
    ensures KeyOk(c, Step(c, s, a), k)
  {
    hide PartsOk, PlainParts, LastPut, LastOf;
    match a
    case CallEngine(p, ok) => EngineKeepsKey(c, s, p, ok, k);
    case PutIntoCache(p) => CacheKeepsKey(c, s, p, k);
    case ClientGet(m) => CacheOpLast(c, s, GetOp(m), None, k);
    case ReadDone(m, payload) => CacheOpLast(c, s, PutOp(m, payload), None, k);
    case _ =>
  }

  lemma PlainPartStep(c: Config, s: State, a: Action, k: Key)
    requires Sized(s) && Enabled(c, s, a) && MovesPart(a) && Plain(c, s, a, k)
    requires PlainPart(c, s.live, s.parts[PartOf(c, s, a)], k)
    ensures var p := PartOf(c, s, a); var s' := Step(c, s, a);
      s'.parts == s.parts[p := s'.parts[p]] && s'.live == s.live && PlainPart(c, s.live, s'.parts[p], k)
  {
    hide Apply, Executing, PlainTask;
  }

  lemma PlainStep(c: Config, s: State, a: Action, k: Key)
    requires Sized(s) && PlainParts(c, s.live, s.parts, k) && Enabled(c, s, a) && Plain(c, s, a, k)
    ensures PlainParts(c, Step(c, s, a).live, Step(c, s, a).parts, k)
  {
    if MovesPart(a) {
      hide PlainPart, Step, Plain, Enabled;
      PlainPartStep(c, s, a, k);
    } else {
      assert Step(c, s, a).parts == s.parts;
    }
  }

  lemma PlainBegins(c: Config, s: State, k: Key)
    requires Begins(s)
    ensures PlainParts(c, s.live, s.parts, k) && KeyOk(c, s, k)
  {
  }

  lemma {:induction false} PlainAt(c: Config, ws: seq<State>, acts: seq<Action>, j: nat, k: Key)
    requires PlainRun(c, ws, acts, k) && j < |ws|
    ensures Ordered(c, ws[j]) && PlainParts(c, ws[j].live, ws[j].parts, k) && KeyOk(c, ws[j], k)
  {
    OrderedAt(c, ws, acts, j);
    if j == 0 {
      PlainBegins(c, ws[0], k);
    } else {
      PlainAt(c, ws, acts, j - 1, k);
      assert StepAt(c, ws, acts, j - 1) && Plain(c, ws[j - 1], acts[j - 1], k);
      hide Run, Begins, StepAt, Plain, KeyOk, PlainParts, Step, Enabled, PartsOk, ShardsOk, AnsweredOk;
      PlainStep(c, ws[j - 1], acts[j - 1], k);
      KeyStep(c, ws[j - 1], acts[j - 1], k);
    }
  }

  /** What a client that asks the cache for the object is given. */
  function Hit(c: Config, s: State, k: Key): Option<Bytes>
    requires Sized(s)
  {
    Lookup(s.shards[Slot(c, |s.shards|, k)], k)
  }

  /** The object has been written and not yet put into the cache. */
  predicate InWindow(c: Config, s: State, k: Key)
    requires Sized(s)
  {
    var pc := s.parts[Home(c, |s.parts|, k)].pc;
    pc.Executed? && pc.ok && pc.task.key == k
  }

  /** In a run that is plain for the object, at every point outside the moment between engine write and cache put of the
      object, what the cache answers is what the engine has. */
  lemma HitIsStored(c: Config, ws: seq<State>, acts: seq<Action>, j: nat, k: Key)
    requires PlainRun(c, ws, acts, k) && j < |ws|
    ensures Sized(ws[j])
    ensures Hit(c, ws[j], k).Some? && !InWindow(c, ws[j], k) ==>
      var store := ws[j].parts[Home(c, |ws[j].parts|, k)].store; k in store && Hit(c, ws[j], k) == Some(store[k])
  {
    PlainAt(c, ws, acts, j, k);
    var s := ws[j];
    var p := Home(c, |s.parts|, k);
    assert PartOk(c, |s.parts|, p, s.parts[p]);
    HitIsLastPut(c.limits, s.ops[Slot(c, |s.shards|, k)], k);
    if s.parts[p].pc.Executed? && s.parts[p].pc.ok {
      LastOfMore(s.parts[p].cached, s.parts[p].pc.task, k);
    } else {
      assert s.parts[p].written == s.parts[p].cached;
    }
  }

  lemma {:induction false} LastOfAt(ts: seq<Task>, k: Key, n: nat) returns (m: nat)
    requires n < |ts| && ts[n].key == k
    ensures n <= m < |ts| && ts[m].key == k && LastOf(ts, k) == Some(ts[m].data)
    ensures forall i | m < i < |ts| :: ts[i].key != k
  {
    m := |ts| - 1;
    if ts[m].key != k {
      m := LastOfAt(ts[..m], k, n);
    }
  }

  lemma {:induction false} AnsweredStays(c: Config, ws: seq<State>, acts: seq<Action>, i: nat, j: nat)
    requires Run(c, ws, acts) && i <= j < |ws|
    ensures ws[i].answered <= ws[j].answered
  {
    if i < j {
      AnsweredStays(c, ws, acts, i, j - 1);
      assert StepAt(c, ws, acts, j - 1);
    }
  }

  /** Once an insert was acknowledged, a client that gets an answer from the cache gets that object or
      a newer one: the latest of the writes at or after it in the order in which the engine took them. */
  lemma AcknowledgedIsSeen(c: Config, ws: seq<State>, acts: seq<Action>, i: nat, j: nat, t: Task)
      returns (n: nat, m: nat)
    requires PlainRun(c, ws, acts, t.key) && i <= j < |ws| && (t, true) in ws[i].answered
    ensures Sized(ws[j])
    ensures var written := ws[j].parts[Home(c, |ws[j].parts|, t.key)].written;
      && n <= m < |written| && written[n] == t && written[m].key == t.key
      && (Hit(c, ws[j], t.key).Some? ==> Hit(c, ws[j], t.key) == Some(written[m].data))
      && (!InWindow(c, ws[j], t.key) ==> forall i | m < i < |written| :: written[i].key != t.key)
  {
    AnsweredStays(c, ws, acts, i, j);
    PlainAt(c, ws, acts, j, t.key);
    var s := ws[j];
    var p := Home(c, |s.parts|, t.key);
    assert PartOk(c, |s.parts|, p, s.parts[p]);
    assert (t, true) in s.answered && t in s.parts[p].cached;
    n :| 0 <= n < |s.parts[p].cached| && s.parts[p].cached[n] == t;
    m := LastOfAt(s.parts[p].cached, t.key, n);
    HitIsLastPut(c.limits, s.ops[Slot(c, |s.shards|, t.key)], t.key);
  }

  // ---------------------------------------------------------------- what one task does to coherence

  /** The engine's store after a task, if its call succeeds. */
  function StoreAfter(store: Store, t: Task, ok: bool): Store {
    if ok then Executing(store, t) else store
  }

  /** The shard of the object once a write has run. */
  function ShardAfter(l: Limits, live: bool, shard: Shard, t: Task, ok: bool): Shard {
    if ok && live then Put(l, shard, t.key, t.data) else shard
  }

  predicate Coherent(store: Store, shard: Shard, k: Key) {
    Lookup(shard, k).Some? ==> k in store && Lookup(shard, k) == Some(store[k])
  }

  /** The cache takes the payload of a write. */
  predicate Taken(l: Limits, live: bool, t: Task) {
    live && |t.data| <= l.maxObject
  }

  /** A put makes its own value the cached one, and other objects keep theirs or lose it. */
  lemma PutLookups(l: Limits, s: Shard, k: Key, data: Bytes, m: Key)
    requires Distinct(s.entries) && |data| <= l.maxObject
    ensures m == k ==> Lookup(Put(l, s, k, data), m) == Some(data)
    ensures m != k && Lookup(Put(l, s, k, data), m).Some? ==> Lookup(Put(l, s, k, data), m) == Lookup(s, m)
  {
    var after := Put(l, s, k, data).entries;
    if AtFront(s.entries, k) {
      assert after[0] == Entry(k, data) && after[1..] == s.entries[1..];
      if Has(after, m) && m != k { assert s.entries[Find(after, m)].key == m; UniqueAt(s.entries, m, Find(after, m)); }
    } else {
      var f := Forget(s, k);
      var p := EvictIsPrefix(f, |data|, l.maxShard);
      assert after == [Entry(k, data)] + f.entries[..p];
      if Has(after, m) && m != k {
        var i := Find(after, m);
        assert f.entries[i - 1] == after[i];
        if Has(s.entries, k) {
          var x := Find(s.entries, k);
          WithoutAt(s.entries, k, x);
          UniqueAt(s.entries, m, if i - 1 < x then i - 1 else i);
        } else {
          UniqueAt(s.entries, m, i - 1);
        }
      }
    }
    assert after[0] == Entry(k, data);
  }

  lemma UniqueAt(es: seq<Entry>, k: Key, i: nat)
    requires Distinct(es) && i < |es| && es[i].key == k
    ensures Has(es, k) && Find(es, k) == i
  {
  }

  /** The engine call failed, or it was an insert whose payload the cache took, or the cache took nothing and
      has nothing of the object (or has, by chance, what was inserted). */
  predicate LeavesCoherent(l: Limits, live: bool, shard: Shard, t: Task, ok: bool) {
    || !ok
    || (t.kind.Insert? && Taken(l, live, t))
    || (!Taken(l, live, t)
        && (Lookup(shard, t.key).None? || (t.kind.Insert? && Lookup(shard, t.key) == Some(t.data))))
  }

  /**
    * Full coherence is not what the write path gives: a remove whose payload is cached, and an insert that is
    * refused while an older value is cached, both leave a stale answer behind. Just these do.
    */
  lemma TaskCoherentIff(l: Limits, live: bool, store: Store, shard: Shard, t: Task, ok: bool)
    requires Distinct(shard.entries) && Coherent(store, shard, t.key)
    ensures Coherent(StoreAfter(store, t, ok), ShardAfter(l, live, shard, t, ok), t.key) <==>
      LeavesCoherent(l, live, shard, t, ok)
  {
    if |t.data| <= l.maxObject {
      PutLookups(l, shard, t.key, t.data, t.key);
    }
  }

  /** Other objects of the shard are not harmed. */
  lemma TaskKeepsOthers(l: Limits, live: bool, store: Store, shard: Shard, t: Task, ok: bool, m: Key)
    requires Distinct(shard.entries) && Coherent(store, shard, m) && m != t.key
    ensures Coherent(StoreAfter(store, t, ok), ShardAfter(l, live, shard, t, ok), m)
  {
    if |t.data| <= l.maxObject {
      PutLookups(l, shard, t.key, t.data, m);
    }
  }

  /** A read served by the engine puts the payload of its own request into the cache: that is coherent
      if and only if the cache refuses it or it happens to be the stored value. */
  lemma ReadCoherentIff(l: Limits, live: bool, store: Store, shard: Shard, k: Key, payload: Bytes)
    requires Distinct(shard.entries) && k in store && Coherent(store, shard, k)
    ensures Coherent(store, if live then Put(l, shard, k, payload) else shard, k) <==>
      !live || |payload| > l.maxObject || payload == store[k]
  {
    if |payload| <= l.maxObject {
      PutLookups(l, shard, k, payload, k);
    }
  }

  /** All shards once a write has run. */
  function ShardsAfter(c: Config, live: set<string>, shards: seq<Shard>, t: Task, ok: bool): (after: seq<Shard>)
    requires |shards| > 0
    ensures |after| == |shards|
  {
    var i := Slot(c, |shards|, t.key);
    shards[i := ShardAfter(c.limits, t.key.container in live, shards[i], t, ok)]
  }

  // ---------------------------------------------------------------- one task in a run

  /** The shard of the object. */
  function ShardOf(c: Config, s: State, k: Key): Shard
    requires Sized(s)
  {
    s.shards[Slot(c, |s.shards|, k)]
  }

  /** Of the object the shard has what it had, or nothing any more. */
  predicate KeptOrLost(before: Shard, after: Shard, k: Key) {
    Lookup(after, k).None? || Lookup(after, k) == Lookup(before, k)
  }

  lemma GetLookups(s: Shard, k: Key, m: Key)
    requires Distinct(s.entries)
    ensures Lookup(Get(s, k), m) == Lookup(s, m)
  {
    if Has(s.entries, k) {
      var x := Find(s.entries, k);
      WithoutAt(s.entries, k, x);
      var es := Get(s, k).entries;
      assert es == [s.entries[x]] + (s.entries[..x] + s.entries[x + 1..]);
      forall i | 0 <= i < |es| ensures es[i] == s.entries[if i == 0 then x else if i <= x then i - 1 else i] {
      }
      if Has(s.entries, m) {
        var i := Find(s.entries, m);
        UniqueAt(es, m, if i == x then 0 else if i < x then i + 1 else i);
      }
    }
  }

  lemma CacheOpKeepsOrLoses(c: Config, s: State, op: Op, source: Option<Task>, k: Key)
    requires Sized(s) && ShardsOk(c, s.shards, s.ops) && (op.PutOp? ==> op.key != k)
    ensures var s' := CacheOp(c, s, op, source);
      && Sized(s') && |s'.shards| == |s.shards|
      && KeptOrLost(ShardOf(c, s, k), ShardOf(c, s', k), k)
  {
    var i := Slot(c, |s.shards|, op.key);
    RecencyAfter(c.limits, s.ops[i]);
    if op.GetOp? {
      GetLookups(s.shards[i], op.key, k);
    } else if |op.data| <= c.limits.maxObject {
      PutLookups(c.limits, s.shards[i], op.key, op.data, k);
    }
  }

  /** The dispatcher of p is between the engine and the answer. */
  predicate UnderWay(s: State, p: nat) {
    p < |s.parts| && (s.parts[p].pc.Executed? || s.parts[p].pc.Cached?)
  }

  /** What others do meanwhile, reads of the object apart. */
  predicate Elsewhere(a: Action, p: nat, k: Key) {
    a != PutIntoCache(p) && a != Respond(p) && !(a.ReadDone? && a.key == k)
  }

  lemma MeanwhileStep(c: Config, s: State, a: Action, p: nat, k: Key)
    requires Ordered(c, s) && Enabled(c, s, a) && UnderWay(s, p) && p == Home(c, |s.parts|, k) && Elsewhere(a, p, k)
    ensures var s' := Step(c, s, a);
      && Sized(s') && |s'.parts| == |s.parts| && KeptOrLost(ShardOf(c, s, k), ShardOf(c, s', k), k)
      && s'.parts[p].pc == s.parts[p].pc && s'.parts[p].store == s.parts[p].store
  {
    hide PartsOk, ShardsOk, AnsweredOk, Lookup, Apply;
    match a
    case PutIntoCache(q) =>
      var t := s.parts[q].pc.task;
      AtHome(c, s.parts, q);
      CacheOpKeepsOrLoses(c, s, PutOp(t.key, t.data), Some(t), k);
    case ClientGet(m) => CacheOpKeepsOrLoses(c, s, GetOp(m), None, k);
    case ReadDone(m, payload) => CacheOpKeepsOrLoses(c, s, PutOp(m, payload), None, k);
    case _ =>
  }

  lemma {:induction false} Meanwhile(c: Config, ws: seq<State>, acts: seq<Action>, lo: nat, hi: nat, p: nat, k: Key)
    requires Run(c, ws, acts) && lo <= hi < |ws| && Sized(ws[lo]) && UnderWay(ws[lo], p)
    requires p == Home(c, |ws[lo].parts|, k) && forall m | lo <= m < hi :: Elsewhere(acts[m], p, k)
    ensures Sized(ws[hi]) && |ws[hi].parts| == |ws[lo].parts|
    ensures KeptOrLost(ShardOf(c, ws[lo], k), ShardOf(c, ws[hi], k), k)
    ensures ws[hi].parts[p].pc == ws[lo].parts[p].pc && ws[hi].parts[p].store == ws[lo].parts[p].store
  {
    assert |ws| == |acts| + 1;
    hide Run, Enabled, Step, Ordered, Lookup, Elsewhere;
    if lo < hi {
      Meanwhile(c, ws, acts, lo, hi - 1, p, k);
      OrderedAt(c, ws, acts, hi - 1);
      InRun(c, ws, acts, hi - 1);
      MeanwhileStep(c, ws[hi - 1], acts[hi - 1], p, k);
    }
  }

  lemma InRun(c: Config, ws: seq<State>, acts: seq<Action>, i: nat)
    requires Run(c, ws, acts) && i < |acts|
    ensures |ws| == |acts| + 1 && Sized(ws[i]) && Enabled(c, ws[i], acts[i]) && ws[i + 1] == Step(c, ws[i], acts[i])
  {
    assert StepAt(c, ws, acts, i);
  }

  /** Cache and engine agree on the object. */
  predicate CoherentAt(c: Config, s: State, k: Key)
    requires Sized(s)
  {
    Coherent(s.parts[Home(c, |s.parts|, k)].store, ShardOf(c, s, k), k)
  }

  /** The three steps of one task: in the engine at i, into the cache at j, answered at e, others in between. */
  predicate OneTask(acts: seq<Action>, i: nat, j: nat, e: nat, p: nat, k: Key) {
    && i < j < e < |acts|
    && acts[i].CallEngine? && acts[i].p == p && acts[j] == PutIntoCache(p) && acts[e] == Respond(p)
    && forall m | i < m < e && m != j :: Elsewhere(acts[m], p, k)
  }

  lemma EngineStep(c: Config, s: State, p: nat, ok: bool)
    requires Ordered(c, s) && Enabled(c, s, CallEngine(p, ok))
    ensures var t := s.parts[p].pc.task; var s' := Step(c, s, CallEngine(p, ok));
      && p == Home(c, |s.parts|, t.key) && Sized(s') && |s'.parts| == |s.parts| && s'.shards == s.shards
      && s'.parts[p].pc == Executed(t, ok) && s'.parts[p].store == StoreAfter(s.parts[p].store, t, ok)
  {
    AtHome(c, s.parts, p);
  }

  lemma CacheStep(c: Config, s: State, p: nat, store: Store)
    requires Ordered(c, s) && Enabled(c, s, PutIntoCache(p))
    requires var t, ok := s.parts[p].pc.task, s.parts[p].pc.ok;
      s.parts[p].store == StoreAfter(store, t, ok) && Coherent(store, ShardOf(c, s, t.key), t.key)
    ensures var t, ok := s.parts[p].pc.task, s.parts[p].pc.ok; var s' := Step(c, s, PutIntoCache(p));
      && p == Home(c, |s.parts|, t.key) && Sized(s') && |s'.parts| == |s.parts|
      && s'.parts[p].pc == Cached(t, ok) && s'.parts[p].store == s.parts[p].store
      && (CoherentAt(c, s', t.key) <==>
            LeavesCoherent(c.limits, t.key.container in s.live, ShardOf(c, s, t.key), t, ok))
  {
    hide LeavesCoherent, Lookup, Put;
    var t, ok := s.parts[p].pc.task, s.parts[p].pc.ok;
    var i := Slot(c, |s.shards|, t.key);
    AtHome(c, s.parts, p);
    RecencyAfter(c.limits, s.ops[i]);
    TaskCoherentIff(c.limits, t.key.container in s.live, store, s.shards[i], t, ok);
  }

  /**
    * In every run, whatever else goes on while a task is under way but reads of its object: if cache and engine
    * agreed on the object when the task came to the engine, then they agree on it when its client is answered if
    * and only if the condition held when it came to the cache, or the cache has lost the object since.
    */
  lemma TaskInRunCoherentIff(c: Config, ws: seq<State>, acts: seq<Action>, i: nat, j: nat, e: nat, p: nat, t: Task)
    requires Run(c, ws, acts) && OneTask(acts, i, j, e, p, t.key) && e < |acts|
    requires Sized(ws[i]) && p < |ws[i].parts| && ws[i].parts[p].pc == Dispatched(t) && CoherentAt(c, ws[i], t.key)
    ensures e + 1 < |ws| && Sized(ws[j]) && Sized(ws[e + 1])
    ensures CoherentAt(c, ws[e + 1], t.key) <==>
      || LeavesCoherent(c.limits, t.key.container in ws[j].live, ShardOf(c, ws[j], t.key), t, acts[i].ok)
      || Lookup(ShardOf(c, ws[e + 1], t.key), t.key).None?
  {
    assert |ws| == |acts| + 1;
    hide Run, Ordered, LeavesCoherent, Lookup, Elsewhere, Enabled;
    OrderedAt(c, ws, acts, i);
    InRun(c, ws, acts, i);
    EngineStep(c, ws[i], p, acts[i].ok);
    Meanwhile(c, ws, acts, i + 1, j, p, t.key);
    OrderedAt(c, ws, acts, j);
    InRun(c, ws, acts, j);
    CacheStep(c, ws[j], p, ws[i].parts[p].store);
    Meanwhile(c, ws, acts, j + 1, e, p, t.key);
    InRun(c, ws, acts, e);
  }

  /** In a run a read that comes back from the engine does to the agreement on its object just that. */
  lemma ReadInRunCoherentIff(c: Config, ws: seq<State>, acts: seq<Action>, j: nat, k: Key, payload: Bytes)
    requires Run(c, ws, acts) && j < |acts| && acts[j] == ReadDone(k, payload)
    requires Sized(ws[j]) && CoherentAt(c, ws[j], k)
    ensures j + 1 < |ws| && Sized(ws[j + 1])
    ensures var store := ws[j].parts[Home(c, |ws[j].parts|, k)].store;
      && k in store
      && (CoherentAt(c, ws[j + 1], k) <==>
            k.container !in ws[j].live || |payload| > c.limits.maxObject || payload == store[k])
  {
    OrderedAt(c, ws, acts, j);
    InRun(c, ws, acts, j);
    hide Run, Coherent;
    var s := ws[j];
    var i := Slot(c, |s.shards|, k);
    RecencyAfter(c.limits, s.ops[i]);
    ReadCoherentIff(c.limits, k.container in s.live, s.parts[Home(c, |s.parts|, k)].store, s.shards[i], k, payload);
  }

  /** Writes one after the other. */
  function AllStored(store: Store, ts: seq<Task>, oks: seq<bool>): Store
    requires |oks| == |ts|
  {
    if ts == [] then store
    else
      var last := |ts| - 1;
      StoreAfter(AllStored(store, ts[..last], oks[..last]), ts[last], oks[last])
  }

  function AllCached(c: Config, live: set<string>, shards: seq<Shard>, ts: seq<Task>,
                     oks: seq<bool>): (after: seq<Shard>)
    requires |oks| == |ts| && |shards| > 0
    ensures |after| == |shards|
  {
    if ts == [] then shards
    else
      var last := |ts| - 1;
      ShardsAfter(c, live, AllCached(c, live, shards, ts[..last], oks[..last]), ts[last], oks[last])
  }

  lemma OneMore(c: Config, live: set<string>, store: Store, shards: seq<Shard>, ts: seq<Task>, oks: seq<bool>,
                t: Task, ok: bool)
    requires |oks| == |ts| && |shards| > 0
    ensures AllStored(store, ts + [t], oks + [ok]) == StoreAfter(AllStored(store, ts, oks), t, ok)
    ensures AllCached(c, live, shards, ts + [t], oks + [ok]) ==
      ShardsAfter(c, live, AllCached(c, live, shards, ts, oks), t, ok)
  {
    assert (ts + [t])[..|ts|] == ts && (oks + [ok])[..|oks|] == oks;
  }
}
