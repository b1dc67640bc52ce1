/**
  * The bodies of the serializer's and the collector's work, statement by statement, when the
  * other threads stand still: each is a path of the step machine, and says what it comes to.
  */
module SingleThread {
  import opened Types
  import opened Lifecycle
  import opened Invariant
  import opened Runs
  import L = Limits
  import Gc = CollectorPreservation

  /** A running store. `start` and `acts` record the actions it has performed. */
  class Store {
    const k: nat
    var disk: Disk
    var session: Session
    ghost var start: World
    ghost var acts: seq<Action>

    ghost function Now(): World
      reads this
    {
      World(k, disk, Up(session))
    }

    /** Where the store is, is where its actions have led it. */
    ghost predicate Recorded()
      reads this
    {
      |disk.cfs| == k + 1 && Path(start, acts, Now())
    }

    ghost predicate Valid()
      reads this
    {
      Good(k, disk, session) && Recorded()
    }

    constructor (k: nat, disk: Disk, session: Session)
      requires Good(k, disk, session)
      ensures Valid() && this.k == k && this.disk == disk && this.session == session && start == Now() && acts == []
    {
      assert |disk.cfs| == k + 1;
      this.k, this.disk, this.session := k, disk, session;
      start, acts := World(k, disk, Up(session)), [];
    }

    /** An action of the serializer, be it the removal that breaks the invariant. */
    method Perform(a: Action)
      requires Recorded() && SerializerAction(a) && EnabledSerializer(k, session, a)
      modifies this
      ensures Recorded() && start == old(start) && acts == old(acts) + [a]
      ensures (disk, session) == old(StepSerializer(k, disk, session, a))
      ensures old(Good(k, disk, session)) && Clean(a) ==> Good(k, disk, session)
    {
      hide Good, Path, Enabled, Step, StepSerializer, EnabledSerializer;
      SerializerMove(k, disk, session, a);
      if Good(k, disk, session) && Clean(a) {
        SerializerStepKeeps(k, disk, session, a);
      }
      PathThen(start, acts, Now(), a);
      var r := StepSerializer(k, disk, session, a);
      disk, session := r.0, r.1;
      acts := acts + [a];
    }

    method Serialize(a: Action)
      requires Valid() && SerializerAction(a) && Clean(a) && EnabledSerializer(k, session, a)
      modifies this
      ensures Valid() && start == old(start) && acts == old(acts) + [a]
      ensures (disk, session) == old(StepSerializer(k, disk, session, a))
    {
      hide Good, Path, StepSerializer, EnabledSerializer;
      Perform(a);
    }

    /** A create passes the checks made before it is queued: the name is free and the limit not reached. */
    method Validate(name: Name, max: nat)
      requires Valid() && name !in session.index && session.count < max
      modifies this
      ensures Valid() && start == old(start) && acts == old(acts) + [ValidateCreate(name, max)]
      ensures disk == old(disk) && session == old(session).(pending := old(session.pending) + multiset{name})
    {
      assert |disk.cfs| == k + 1;
      HolderMove(k, disk, session, ValidateCreate(name, max));
      HolderStepKeeps(k, disk, session, ValidateCreate(name, max));
      hide Core, Ownership, Enabled, Step, EnabledHolder;
      PathThen(start, acts, Now(), ValidateCreate(name, max));
      session := session.(pending := session.pending + multiset{name});
      acts := acts + [ValidateCreate(name, max)];
    }

    method Collect(a: Action)
      requires Valid() && CollectorAction(a) && EnabledCollector(k, session, a)
      modifies this
      ensures Valid() && start == old(start) && acts == old(acts) + [a]
      ensures (disk, session) == old(StepCollector(k, disk, session, a))
    {
      hide Good, Path, Enabled, Step, StepCollector, EnabledCollector;
      CollectorMove(k, disk, session, a);
      CollectorStepKeeps(k, disk, session, a);
      PathThen(start, acts, Now(), a);
      var r := StepCollector(k, disk, session, a);
      disk, session := r.0, r.1;
      acts := acts + [a];
    }
  }

  /** Families of other names are untouched, and nothing else in the session but what is listed. */
  ghost predicate OtherNamesKept(k: nat, before: Families, after: Families, name: Name) {
    && |before| == k + 1 && |after| == k + 1
    && forall i, n | 0 <= i <= k && n != name :: n in after[i] <==> n in before[i]
  }

  /** The engine of partition i makes the family: it works and has none of that name. */
  predicate Makes(cfs: Families, i: nat, name: Name, faults: seq<bool>)
    requires i < |cfs| && i < |faults|
  {
    faults[i] && name !in cfs[i]
  }

  /** How many families a creation makes before the first engine that does not make its own. */
  function Made(cfs: Families, name: Name, faults: seq<bool>, k: nat): (made: nat)
    requires k <= |cfs| && k <= |faults|
    ensures made <= k
    ensures forall i | 0 <= i < made :: Makes(cfs, i, name, faults)
    ensures made < k ==> !Makes(cfs, made, name, faults)
  {
    if k == 0 then 0
    else
      var before := Made(cfs, name, faults, k - 1);
      if before == k - 1 && Makes(cfs, before, name, faults) then k else before
  }

  lemma MadeIs(cfs: Families, name: Name, faults: seq<bool>, k: nat, made: nat)
    requires k <= |cfs| && k <= |faults| && made <= k
    requires forall i | 0 <= i < made :: Makes(cfs, i, name, faults)
    requires made < k ==> !Makes(cfs, made, name, faults)
    ensures made == Made(cfs, name, faults, k)
  {
  }

  lemma Lengths(k: nat, d: Disk, s: Session)
    requires Good(k, d, s)
    ensures |d.cfs| == k + 1 && |s.approved| == k + 1
    ensures s.ser.Creating? ==> |s.ser.refs| <= k && forall i | 0 <= i < |s.ser.refs| :: s.ser.name in d.cfs[i]
    ensures s.ser.Creating? || s.ser.Approving? || s.ser.CheckingIndex? || s.ser.Inserting? ==>
      s.ser.name !in s.index && |s.ser.refs| <= k
    ensures s.ser.Approving? || s.ser.CheckingIndex? || s.ser.Inserting? ==> |s.ser.refs| == k
    ensures forall n | n in s.index :: s.index[n] in s.objs
  {
  }

  /** Create a family on one partition after the other; stop at the first that fails. */
  method CreateContainerInstances(store: Store, name: Name, faults: seq<bool>) returns (made: nat)
    requires store.Valid() && |faults| == store.k + 1
    requires store.session.ser == Creating(name, [])
    modifies store
    ensures store.Valid() && store.start == old(store.start) && old(store.acts) <= store.acts
    ensures |old(store.disk.cfs)| == store.k + 1 && made == Made(old(store.disk.cfs), name, faults, store.k)
    ensures OtherNamesKept(store.k, old(store.disk.cfs), store.disk.cfs, name)
    ensures forall i | 0 <= i < store.k :: name in store.disk.cfs[i] <==> i < made || name in old(store.disk.cfs)[i]
    ensures store.disk.records == old(store.disk.records)
    ensures store.session.index == old(store.session.index) && store.session.objs == old(store.session.objs)
    ensures store.session.count == old(store.session.count) && store.session.gc == old(store.session.gc)
    ensures store.session.pending == old(store.session.pending)
    ensures if made < store.k then store.session.ser == Replying(Create, name, ContainerCreationFailed)
            else store.session.ser.Creating? && store.session.ser.name == name && |store.session.ser.refs| == store.k
  {
    hide Good, Path;
    Lengths(store.k, store.disk, store.session);
    made := 0;
    while made < store.k
      invariant store.Valid() && store.start == old(store.start) && old(store.acts) <= store.acts
      invariant made <= store.k
      invariant store.session.ser.Creating? && store.session.ser.name == name && |store.session.ser.refs| == made
      invariant forall i | 0 <= i < made :: Makes(old(store.disk.cfs), i, name, faults)
      invariant OtherNamesKept(store.k, old(store.disk.cfs), store.disk.cfs, name)
      invariant forall i | 0 <= i < store.k :: name in store.disk.cfs[i] <==> i < made || name in old(store.disk.cfs)[i]
      invariant store.disk.records == old(store.disk.records)
      invariant store.session.index == old(store.session.index) && store.session.objs == old(store.session.objs)
      invariant store.session.count == old(store.session.count) && store.session.gc == old(store.session.gc)
      invariant store.session.pending == old(store.session.pending)
    {
      store.Serialize(CreateFamily(faults[made]));
      if store.session.ser.Replying? {
        MadeIs(old(store.disk.cfs), name, faults, store.k, made);
        return;
      }
      made := made + 1;
    }
    MadeIs(old(store.disk.cfs), name, faults, store.k, made);
  }

  /** Approve the handles one by one and index the container. */
  method ApproveAndIndex(store: Store)
    requires store.Valid() && store.session.ser.Approving? && store.session.ser.next == 0
    modifies store
    ensures store.Valid() && store.start == old(store.start) && old(store.acts) <= store.acts
    ensures store.disk == old(store.disk)
    ensures var n := old(store.session.ser.name);
      && store.session.ser == Replying(Create, n, Success)
      && n !in old(store.session.index)
      && (var c := Cid(n, old(store.session.gens));
          && store.session.index == old(store.session.index)[n := c]
          && store.session.objs ==
            old(store.session.objs)[c := Obj(SlotsOfRefs(old(store.session.ser.refs)), false, 0)])
      && store.session.count == old(store.session.count) + 1 && store.session.gc == old(store.session.gc)
      && store.session.pending == old(store.session.pending)
  {
    hide Good, Path;
    Lengths(store.k, store.disk, store.session);
    var n := store.session.ser.name;
    while store.session.ser.next < store.k
      invariant store.Valid() && store.start == old(store.start) && old(store.acts) <= store.acts
      invariant store.disk == old(store.disk)
      invariant store.session.ser.Approving? && store.session.ser.name == n
      invariant store.session.ser.refs == old(store.session.ser.refs) && store.session.ser.next <= store.k
      invariant store.session.index == old(store.session.index) && store.session.objs == old(store.session.objs)
      invariant store.session.count == old(store.session.count) && store.session.gc == old(store.session.gc)
      invariant store.session.gens == old(store.session.gens) && store.session.pending == old(store.session.pending)
      decreases store.k - store.session.ser.next
    {
      Lengths(store.k, store.disk, store.session);
      store.Serialize(Approve);
    }
    IndexApproved(store);
  }

  /** With all handles approved: check, insert, count. */
  method IndexApproved(store: Store)
    requires store.Valid() && store.session.ser.Approving? && store.session.ser.next == store.k
    modifies store
    ensures store.Valid() && store.start == old(store.start) && old(store.acts) <= store.acts
    ensures store.disk == old(store.disk)
    ensures var n := old(store.session.ser.name);
      && store.session.ser == Replying(Create, n, Success)
      && n !in old(store.session.index)
      && (var c := Cid(n, old(store.session.gens));
          && store.session.index == old(store.session.index)[n := c]
          && store.session.objs ==
            old(store.session.objs)[c := Obj(SlotsOfRefs(old(store.session.ser.refs)), false, 0)])
      && store.session.count == old(store.session.count) + 1 && store.session.gc == old(store.session.gc)
      && store.session.pending == old(store.session.pending)
  {
    hide Good, Path;
    Lengths(store.k, store.disk, store.session);
    store.Serialize(Approve);
    Lengths(store.k, store.disk, store.session);
    store.Serialize(CheckIndex);
    store.Serialize(InsertEntry);
    store.Serialize(CountUp);
  }

  /** All families are there: write the record, and if that works index the container. */
  method RecordAndIndex(store: Store, ok: bool)
    requires store.Valid() && store.session.ser.Creating? && |store.session.ser.refs| == store.k
    modifies store
    ensures store.Valid() && store.start == old(store.start) && old(store.acts) <= store.acts
    ensures store.session.ser ==
      Replying(Create, old(store.session.ser.name), if ok then Success else ObjectInsertionFailed)
    ensures store.session.gc == old(store.session.gc) && store.session.pending == old(store.session.pending)
    ensures !ok ==> store.disk == old(store.disk) && store.session == old(store.session).(ser := store.session.ser)
    ensures ok ==>
      var n := old(store.session.ser.name);
      && store.disk == old(store.disk).(records := old(store.disk).records + {n})
      && store.session.count == old(store.session.count) + 1
      && (var c := Cid(n, old(store.session.gens));
          && store.session.index == old(store.session.index)[n := c]
          && store.session.objs ==
            old(store.session.objs)[c := Obj(SlotsOfRefs(old(store.session.ser.refs)), false, 0)])
  {
    hide Good, Path;
    Lengths(store.k, store.disk, store.session);
    L.MetadataWritable(store.k, store.disk, store.session);
    store.Serialize(PutRecord(ok));
    if ok {
      ApproveAndIndex(store);
    }
  }

  /** What a creation of a free name answers. */
  function CreationStatus(cfs: Families, name: Name, faults: seq<bool>, k: nat): (status: Status)
    requires |cfs| == |faults| == k + 1
    ensures status == Success <==> (forall i | 0 <= i < k :: Makes(cfs, i, name, faults)) && faults[k]
    ensures status == ContainerCreationFailed <==> exists i | 0 <= i < k :: !Makes(cfs, i, name, faults)
    ensures status == ObjectInsertionFailed <==> (forall i | 0 <= i < k :: Makes(cfs, i, name, faults)) && !faults[k]
  {
    if Made(cfs, name, faults, k) < k then ContainerCreationFailed
    else if !faults[k] then ObjectInsertionFailed
    else Success
  }

  /** What a creation of the name leaves on disk and in the session. */
  ghost predicate CreationEffect(k: nat, d: Disk, s: Session, d': Disk, s': Session, name: Name, done: bool) {
    && OtherNamesKept(k, d.cfs, d'.cfs, name)
    && if done
       then d'.records == d.records + {name} && OnEvery(k, d'.cfs, name)
            && Live(s'.index, s'.objs, name) && s'.count == s.count + 1
            && s'.index.Keys == s.index.Keys + {name}
       else d'.records == d.records && s'.index == s.index && s'.objs == s.objs && s'.count == s.count
  }

  /** Just the families made before the first failure are new. */
  predicate FamiliesMade(k: nat, before: Families, after: Families, name: Name, faults: seq<bool>) {
    && |before| == k + 1 == |after| == |faults|
    && forall i | 0 <= i < k :: name in after[i] <==> i < Made(before, name, faults, k) || name in before[i]
  }

  /** The families, then the record, then the index: as far as it goes. */
  method CreateAndRecord(store: Store, name: Name, faults: seq<bool>)
    requires store.Valid() && |faults| == store.k + 1
    requires store.session.ser == Creating(name, [])
    modifies store
    ensures store.Valid() && store.start == old(store.start) && old(store.acts) <= store.acts
    ensures |old(store.disk.cfs)| == |store.disk.cfs| == store.k + 1
    ensures store.session.ser == Replying(Create, name, CreationStatus(old(store.disk.cfs), name, faults, store.k))
    ensures store.session.pending == old(store.session.pending)
    ensures FamiliesMade(store.k, old(store.disk.cfs), store.disk.cfs, name, faults)
    ensures CreationEffect(store.k, old(store.disk), old(store.session), store.disk, store.session, name,
                           store.session.ser.status == Success)
  {
    hide Good, Path;
    Lengths(store.k, store.disk, store.session);
    var made := CreateContainerInstances(store, name, faults);
    if made == store.k {
      RecordAndIndex(store, faults[store.k]);
    }
  }

  /** The answer goes out and the serializer is free. */
  method Respond(store: Store) returns (status: Status)
    requires store.Recorded() && store.session.ser.Replying?
    modifies store
    ensures store.Recorded() && store.start == old(store.start) && old(store.acts) <= store.acts
    ensures old(store.Valid()) ==> store.Valid()
    ensures status == old(store.session.ser.status)
    ensures store.disk == old(store.disk) && store.session == old(store.session).(ser := SerIdle)
  {
    hide Good, Path;
    status := store.session.ser.status;
    store.Perform(Reply);
  }

  /**
    * A creation from beginning to end. A name in the index is turned away. For a free one it succeeds
    * exactly if every engine makes its family and the record is written; then the name is recorded,
    * on every partition, live and counted. Otherwise the records and the index are as they were, and
    * just the families made before the failure stay behind for the next boot.
    */
  method HandleContainerCreation(store: Store, name: Name, faults: seq<bool>) returns (status: Status)
    requires store.Valid() && |faults| == store.k + 1
    requires store.session.ser.SerIdle? && name in store.session.pending
    modifies store
    ensures store.Valid() && store.start == old(store.start) && old(store.acts) <= store.acts
    ensures store.session.ser.SerIdle? && store.session.pending == old(store.session.pending) - multiset{name}
    ensures |old(store.disk.cfs)| == store.k + 1
    ensures name in old(store.session.index) ==> store.disk == old(store.disk)
    ensures old(Live(store.session.index, store.session.objs, name)) ==> status == ContainerAlreadyExists
    ensures old(SoftDeleted(store.session.index, store.session.objs, name)) ==> status == ContainerInDeletionProcess
    ensures name !in old(store.session.index) ==>
      && status == CreationStatus(old(store.disk.cfs), name, faults, store.k)
      && FamiliesMade(store.k, old(store.disk.cfs), store.disk.cfs, name, faults)
    ensures CreationEffect(store.k, old(store.disk), old(store.session), store.disk, store.session, name,
                           status == Success)
  {
    hide Good, Path, CreationStatus, FamiliesMade, OnEvery;
    Lengths(store.k, store.disk, store.session);
    store.Serialize(BeginCreate(name));
    if store.session.ser.Creating? {
      CreateAndRecord(store, name, faults);
    }
    status := Respond(store);
  }

  /** Names for new containers: each once, not in the index and without a family on any data partition. */
  ghost predicate AllNew(k: nat, cfs: Families, index: Index, names: seq<Name>) {
    && |cfs| == k + 1
    && (forall a, b | 0 <= a < b < |names| :: names[a] != names[b])
    && (forall a | 0 <= a < |names| :: names[a] !in index && forall i | 0 <= i < k :: names[a] !in cfs[i])
  }

  lemma RestNew(k: nat, before: Families, index: Index, after: Families, now: Index, names: seq<Name>)
    requires names != [] && AllNew(k, before, index, names)
    requires OtherNamesKept(k, before, after, names[0]) && now.Keys == index.Keys + {names[0]}
    ensures AllNew(k, after, now, names[1..])
  {
  }

  /** The names of a list. */
  ghost function NamesOf(names: seq<Name>): set<Name> {
    set a | 0 <= a < |names| :: names[a]
  }

  /** A create is turned away before it is queued if its name has an entry, live or waiting for deletion, or if the
      counter has reached the limit by then; creates already queued are not counted. */
  method ValidateContainerCreateRequest(store: Store, name: Name, max: nat) returns (status: Status)
    requires store.Valid()
    modifies store
    ensures store.Valid() && store.start == old(store.start) && old(store.acts) <= store.acts
    ensures old(Live(store.session.index, store.session.objs, name)) ==> status == ContainerAlreadyExists
    ensures old(SoftDeleted(store.session.index, store.session.objs, name)) ==> status == ContainerInDeletionProcess
    ensures name !in old(store.session.index) ==>
      status == if old(store.session.count) >= max then MaxNumberContainersReached else Success
    ensures store.disk == old(store.disk)
    ensures store.session ==
      if status == Success then old(store.session).(pending := old(store.session.pending) + multiset{name})
      else old(store.session)
  {
    hide Good, Path;
    Lengths(store.k, store.disk, store.session);
    status := ExistenceStatus(store.session, name);
    if status != ContainerNotExists {
      return;
    }
    if store.session.count >= max {
      return MaxNumberContainersReached;
    }
    store.Validate(name, max);
    return Success;
  }

  method ValidateAll(store: Store, names: seq<Name>, max: nat)
    requires store.Valid() && store.session.count < max
    requires forall a | 0 <= a < |names| :: names[a] !in store.session.index
    modifies store
    ensures store.Valid() && store.start == old(store.start) && old(store.acts) <= store.acts
    ensures store.disk == old(store.disk)
    ensures store.session == old(store.session).(pending := old(store.session.pending) + multiset(names))
  {
    hide Store.Valid;
    var i := 0;
    while i < |names|
      invariant i <= |names| && store.Valid() && store.start == old(store.start) && old(store.acts) <= store.acts
      invariant store.disk == old(store.disk)
      invariant store.session == old(store.session).(pending := old(store.session.pending) + multiset(names[..i]))
    {
      assert names[..i + 1] == names[..i] + [names[i]];
      var status := ValidateContainerCreateRequest(store, names[i], max);
      i := i + 1;
    }
    assert names[..i] == names;
  }

  /** A new name whose engine calls all work. */
  method CreateNext(store: Store, names: seq<Name>)
    requires store.Valid() && store.session.ser.SerIdle? && names != [] && names[0] in store.session.pending
    requires AllNew(store.k, store.disk.cfs, store.session.index, names)
    modifies store
    ensures store.Valid() && store.start == old(store.start) && old(store.acts) <= store.acts
    ensures store.session.ser.SerIdle?
    ensures store.session.pending == old(store.session.pending) - multiset{names[0]}
    ensures AllNew(store.k, store.disk.cfs, store.session.index, names[1..])
    ensures store.session.count == old(store.session.count) + 1
    ensures store.session.index.Keys == old(store.session.index.Keys) + {names[0]}
  {
    hide Store.Valid, Live, OnEvery, OtherNamesKept, FamiliesMade;
    ghost var cfs, index := store.disk.cfs, store.session.index;
    assert names[0] !in index && forall i | 0 <= i < store.k :: names[0] !in cfs[i];
    var status := HandleContainerCreation(store, names[0], seq(store.k + 1, _ => true));
    RestNew(store.k, cfs, index, store.disk.cfs, store.session.index, names);
  }

  lemma NamesSplit(names: seq<Name>)
    requires names != []
    ensures NamesOf(names) == {names[0]} + NamesOf(names[1..])
    ensures multiset(names) == multiset{names[0]} + multiset(names[1..])
  {
    assert names == [names[0]] + names[1..];
  }

  method CreateAll(store: Store, names: seq<Name>)
    requires store.Valid() && store.session.ser.SerIdle? && store.session.pending == multiset(names)
    requires AllNew(store.k, store.disk.cfs, store.session.index, names)
    modifies store
    ensures store.Valid() && store.start == old(store.start) && old(store.acts) <= store.acts
    ensures store.session.count == old(store.session.count) + |names|
    ensures store.session.index.Keys == old(store.session.index.Keys) + NamesOf(names)
    decreases |names|
  {
    hide Store.Valid, AllNew, NamesOf;
    if names == [] {
      assert NamesOf([]) == {} by { NoNames(); }
    } else {
      NamesSplit(names);
      CreateNext(store, names);
      CreateAll(store, names[1..]);
    }
  }

  lemma NoNames()
    ensures NamesOf([]) == {}
  {
  }

  /**
    * The bound on containers is attained: whatever number of creates is validated while one more
    * container is allowed, all of them succeed, and the limit is exceeded by all but one.
    */
  method ExceedLimit(store: Store, names: seq<Name>, max: nat)
    requires store.Valid() && store.session.ser.SerIdle? && store.session.pending == multiset{}
    requires store.session.count == max - 1
    requires AllNew(store.k, store.disk.cfs, store.session.index, names)
    modifies store
    ensures store.Valid() && store.start == old(store.start) && old(store.acts) <= store.acts
    ensures store.session.count == max - 1 + |names|
    ensures store.session.index.Keys == old(store.session.index.Keys) + NamesOf(names)
  {
    assert forall a | 0 <= a < |names| :: names[a] !in store.session.index;
    hide Store.Valid, AllNew, NamesOf;
    ValidateAll(store, names, max);
    CreateAll(store, names);
  }

  /** Look the container up and mark it deleted. */
  method SoftDelete(store: Store)
    requires store.Recorded() && store.session.ser.LookingUp?
    requires var n := store.session.ser.name; n in store.session.index ==> store.session.index[n] in store.session.objs
    modifies store
    ensures store.Recorded() && store.start == old(store.start) && old(store.acts) <= store.acts
    ensures old(store.Valid()) ==> store.Valid() && old(store.session.ser.name in store.session.index)
    ensures store.disk == old(store.disk)
    ensures var n := old(store.session.ser.name);
      store.session ==
        if n !in old(store.session.index) then old(store.session).(ser := Replying(Remove, n, ContainerNotExists))
        else
          var c := old(store.session.index)[n];
          old(store.session).(objs := old(store.session.objs)[c := old(store.session.objs)[c].(deleted := true)],
                              ser := Replying(Remove, n, Success))
  {
    hide Good, Path;
    if store.Valid() {
      LookingUpFacts(store.k, store.disk, store.session);
    }
    store.Perform(LookUp);
    if store.session.ser.Marking? {
      store.Perform(MarkDeleted);
    }
  }

  lemma LookingUpFacts(k: nat, d: Disk, s: Session)
    requires Good(k, d, s) && s.ser.LookingUp?
    ensures Live(s.index, s.objs, s.ser.name)
  {
    hide Ownership;
  }

  /** A live container's removal comes to its record, which is deleted if the engine does it. */
  lemma RemovalBegins(k: nat, d: Disk, s: Session, n: Name, ok: bool, s1: Session)
    requires Good(k, d, s) && s.ser.SerIdle? && s1 == s.(ser := Removing(n))
    ensures |d.cfs| == k + 1 && forall m | m in s.index :: s.index[m] in s.objs
    ensures EnabledSerializer(k, s, BeginRemove(n)) && StepSerializer(k, d, s, BeginRemove(n)) ==
      (d, if Live(s.index, s.objs, n) then s1 else s.(ser := Replying(Remove, n, ContainerNotExists)))
    ensures EnabledSerializer(k, s1, DeleteRecord(ok)) && StepSerializer(k, d, s1, DeleteRecord(ok)) ==
      if ok then (d.(records := d.records - {n}), s.(ser := LookingUp(n)))
      else (d, s.(ser := Replying(Remove, n, ObjectDeletionFailed)))
  {
    hide Good;
    Lengths(k, d, s);
    L.MetadataWritable(k, d, s);
    assert MetadataWriteStatus(k, d, s, ok, ObjectDeletionFailed)
        == MetadataWriteStatus(k, d, s1, ok, ObjectDeletionFailed);
    hide MetadataWriteStatus, ApproveNext, InsertNew, TakeHandle, BeginCreation, AddFamily, MarkObject;
  }

  /** A removal from beginning to end: it succeeds exactly if the container is live and its record can
      be deleted; then it is soft-deleted and unrecorded, and nothing else changes. */
  method HandleContainerRemoval(store: Store, name: Name, ok: bool) returns (status: Status)
    requires store.Valid() && store.session.ser.SerIdle?
    modifies store
    ensures store.Recorded() && store.start == old(store.start) && old(store.acts) <= store.acts
    ensures store.session.ser.SerIdle?
    ensures name != MetadataContainers ==> store.Valid()
    ensures !old(Live(store.session.index, store.session.objs, name)) ==> status == ContainerNotExists
    ensures old(Live(store.session.index, store.session.objs, name)) ==>
      status == if ok then Success else ObjectDeletionFailed
    ensures status != Success ==> store.disk == old(store.disk) && store.session == old(store.session)
    ensures status == Success ==>
      && SoftDeleted(store.session.index, store.session.objs, name)
      && store.disk == old(store.disk.(records := store.disk.records - {name}))
      && store.session == old(var c := store.session.index[name];
           store.session.(objs := store.session.objs[c := store.session.objs[c].(deleted := true)]))
  {
    hide Core, Ownership, Good, Path;
    RemovalBegins(store.k, store.disk, store.session, name, ok, store.session.(ser := Removing(name)));
    hide StepSerializer, EnabledSerializer;
    store.Perform(BeginRemove(name));
    if store.session.ser.Removing? {
      store.Perform(DeleteRecord(ok));
      if store.session.ser.LookingUp? {
        SoftDelete(store);
      }
    }
    status := Respond(store);
  }

  // ---------------------------------------------------------------- collection

  /** The engine drops the family of the slot: it is there, not "default", and the call works. */
  predicate Drops(cfs: Families, inst: Instance, ok: bool) {
    ok && inst.ref.Some? && OnDisk(cfs, inst.ref.value) && inst.ref.value.name != Default
  }

  /** How many of the first m slots are dropped before the first that cannot be. */
  function Dropped(cfs: Families, o: Obj, faults: seq<bool>, m: nat): (dropped: nat)
    requires m <= |o.instances| == |faults|
    ensures dropped <= m
    ensures forall j | 0 <= j < dropped :: Drops(cfs, o.instances[j], faults[j])
    ensures dropped < m ==> !Drops(cfs, o.instances[dropped], faults[dropped])
  {
    if m == 0 then 0
    else
      var before := Dropped(cfs, o, faults, m - 1);
      if before == m - 1 && Drops(cfs, o.instances[before], faults[before]) then m else before
  }

  lemma DroppedIs(cfs: Families, o: Obj, faults: seq<bool>, dropped: nat)
    requires dropped <= |o.instances| == |faults|
    requires forall j | 0 <= j < dropped :: Drops(cfs, o.instances[j], faults[j])
    requires dropped < |o.instances| ==> !Drops(cfs, o.instances[dropped], faults[dropped])
    ensures dropped == Dropped(cfs, o, faults, |o.instances|)
  {
  }

  /** Every slot of the container can be dropped: none null, none already gone. */
  predicate Droppable(cfs: Families, o: Obj, faults: seq<bool>) {
    |faults| == |o.instances| && forall j | 0 <= j < |o.instances| :: Drops(cfs, o.instances[j], faults[j])
  }

  /** The families of the name on the first `count` data partitions are gone; all others are as they were. */
  ghost predicate FreedUpTo(k: nat, before: Families, after: Families, name: Name, count: nat) {
    && |before| == k + 1 == |after| && after[k] == before[k]
    && forall i | 0 <= i < k :: after[i] == if i < count then before[i] - {name} else before[i]
  }

  /** A slot the engine drops is the next data partition's. */
  lemma DropFrees(k: nat, d: Disk, s: Session, start: Families, ok: bool)
    requires Good(k, d, s) && s.gc.Sweeping? && s.gc.phase.Dropping?
    requires var c := s.gc.phase.cid;
      FreedUpTo(k, start, d.cfs, c.name, s.gc.phase.next) && c in s.objs && s.gc.phase.next < |s.objs[c].instances|
    ensures EnabledCollector(k, s, DropInstance(ok)) && |d.cfs| == k + 1
    ensures var c, j := s.gc.phase.cid, s.gc.phase.next;
      var (d', s') := StepCollector(k, d, s, DropInstance(ok));
      && d'.records == d.records
      && if Drops(start, s.objs[c].instances[j], ok)
         then s' == EnterPhase(s, Dropping(c, j + 1)) && FreedUpTo(k, start, d'.cfs, c.name, j + 1)
         else s' == EnterPhase(s, Inspect) && d' == d
  {
    hide Good;
    Gc.DroppingKnown(k, d, s);
    var c, j := s.gc.phase.cid, s.gc.phase.next;
    var inst := s.objs[c].instances[j];
    if inst.ref.Some? {
      assert !Reserved(c.name) ==> OnDisk(d.cfs, inst.ref.value) == OnDisk(start, inst.ref.value);
    }
  }

  /** Drop one instance after the other; stop at the first that fails. The families dropped are those of
      the first data partitions, and on success of all. */
  method DeleteContainerInstances(store: Store, c: Cid, faults: seq<bool>) returns (dropped: bool)
    requires store.Valid() && store.session.gc.Sweeping? && store.session.gc.phase == Dropping(c, 0)
    requires c in store.session.objs && |faults| == |store.session.objs[c].instances|
    modifies store
    ensures store.Valid() && store.start == old(store.start) && old(store.acts) <= store.acts
    ensures dropped <==> Droppable(old(store.disk.cfs), old(store.session.objs[c]), faults)
    ensures store.session == old(store.session).(gc := store.session.gc)
    ensures store.disk.records == old(store.disk.records)
    ensures store.session.gc == old(store.session.gc).(phase := if dropped then CheckingEntry(c) else Inspect)
    ensures FreedUpTo(store.k, old(store.disk.cfs), store.disk.cfs, c.name,
                      old(Dropped(store.disk.cfs, store.session.objs[c], faults, |faults|)))
    ensures dropped ==> forall i | 0 <= i < store.k :: c.name !in store.disk.cfs[i]
  {
    hide Good, Path;
    ghost var cfs, o := store.disk.cfs, store.session.objs[c];
    Gc.DroppingKnown(store.k, store.disk, store.session);
    var n := |store.session.objs[c].instances|;
    var j := 0;
    while j < n
      invariant store.Valid() && store.start == old(store.start) && old(store.acts) <= store.acts
      invariant j <= n == |o.instances| && store.disk.records == old(store.disk.records)
      invariant store.session == old(store.session).(gc := old(store.session.gc).(phase := Dropping(c, j)))
      invariant forall i | 0 <= i < j :: Drops(cfs, o.instances[i], faults[i])
      invariant FreedUpTo(store.k, cfs, store.disk.cfs, c.name, j)
    {
      DropFrees(store.k, store.disk, store.session, cfs, faults[j]);
      hide StepCollector, EnabledCollector, FreedUpTo, Drops;
      store.Collect(DropInstance(faults[j]));
      if store.session.gc.phase.Inspect? {
        DroppedIs(cfs, o, faults, j);
        return false;
      }
      j := j + 1;
    }
    DroppedIs(cfs, o, faults, n);
    Gc.DroppingKnown(store.k, store.disk, store.session);
    store.Collect(DropInstance(true));
    return true;
  }

  /** A soft-deleted container whose every slot can be dropped. */
  predicate Cleaned(cfs: Families, objs: Objects, c: Cid, faults: seq<bool>) {
    c in objs && objs[c].deleted && Droppable(cfs, objs[c], faults)
  }

  /** How many families a sweep that comes to the container frees. */
  function Freed(cfs: Families, objs: Objects, c: Cid, faults: seq<bool>): nat {
    if c in objs && objs[c].deleted && |faults| == |objs[c].instances| then Dropped(cfs, objs[c], faults, |faults|)
      else 0
  }

  lemma SweepFacts(k: nat, d: Disk, s: Session)
    requires Good(k, d, s) && s.gc.Sweeping?
    ensures |d.cfs| == k + 1
    ensures forall c | c in s.gc.todo :: c in s.objs && c.name in s.index && s.index[c.name] == c
    ensures forall i, j | 0 <= i < j < |s.gc.todo| :: s.gc.todo[i].name != s.gc.todo[j].name
    ensures s.gc.phase.CheckingEntry? ==> s.gc.phase.cid.name in s.index
    ensures forall c, j | c in s.gc.todo && c in s.objs
                          && 0 <= j < |s.objs[c].instances| && s.objs[c].instances[j].ref.Some? ::
      var r := s.objs[c].instances[j].ref.value;
      r.part <= k && (r.name == c.name || r.name == Default)
  {
    forall c, j | c in s.gc.todo && c in s.objs && 0 <= j < |s.objs[c].instances| && s.objs[c].instances[j].ref.Some?
      ensures var r := s.objs[c].instances[j].ref.value;
        r.part <= k && (r.name == c.name || r.name == Default)
    {
      assert ShapeOk(k, d.next, c, s.objs[c]);
      assert SlotOk(k, d.next, c, j, s.objs[c].instances[j]);
    }
    forall i, j | 0 <= i < j < |s.gc.todo| ensures s.gc.todo[i].name != s.gc.todo[j].name {
      assert s.gc.todo[i] in s.gc.todo && s.gc.todo[j] in s.gc.todo;
    }
  }

  /** Dropping the families of one name decides nothing about a container of another. */
  lemma DropsElsewhere(k: nat, before: Families, after: Families, name: Name, count: nat, o: Obj, own: Name,
                       faults: seq<bool>)
    requires FreedUpTo(k, before, after, name, count) && own != name
    requires forall j | 0 <= j < |o.instances| && o.instances[j].ref.Some? ::
      && o.instances[j].ref.value.part <= k
      && (o.instances[j].ref.value.name == own || o.instances[j].ref.value.name == Default)
    ensures Droppable(before, o, faults) == Droppable(after, o, faults)
    ensures |faults| == |o.instances| ==> Dropped(before, o, faults, |faults|) == Dropped(after, o, faults, |faults|)
  {
    forall j | 0 <= j < |o.instances| && j < |faults|
      ensures Drops(before, o.instances[j], faults[j]) == Drops(after, o.instances[j], faults[j])
    {
    }
    if |faults| == |o.instances| {
      DroppedIs(after, o, faults, Dropped(before, o, faults, |faults|));
    }
  }

  /** The names of the containers of a list that a sweep cleans up. */
  ghost function CleanedNames(cfs: Families, objs: Objects, todo: seq<Cid>,
                              faults: map<Cid, seq<bool>>): (names: set<Name>) {
    set c | c in todo && c in faults && Cleaned(cfs, objs, c, faults[c]) :: c.name
  }

  /** The sweep of the list frees the family of n on data partition i. */
  ghost predicate FreedIn(cfs: Families, objs: Objects, todo: seq<Cid>, faults: map<Cid, seq<bool>>, n: Name, i: nat) {
    exists c :: c in todo && c in faults && c.name == n && i < Freed(cfs, objs, c, faults[c])
  }

  lemma CleanedNamesGrow(cfs: Families, objs: Objects, todo: seq<Cid>, faults: map<Cid, seq<bool>>, i: nat)
    requires i < |todo| && todo[i] in faults
    ensures CleanedNames(cfs, objs, todo[..i + 1], faults)
         == CleanedNames(cfs, objs, todo[..i], faults)
            + if Cleaned(cfs, objs, todo[i], faults[todo[i]]) then {todo[i].name} else {}
  {
    hide Cleaned;
    assert todo[..i + 1] == todo[..i] + [todo[i]];
  }

  lemma FreedGrows(cfs: Families, objs: Objects, todo: seq<Cid>, faults: map<Cid, seq<bool>>, i: nat, n: Name, p: nat)
    requires i < |todo| && todo[i] in faults
    ensures FreedIn(cfs, objs, todo[..i + 1], faults, n, p)
      <==> (|| FreedIn(cfs, objs, todo[..i], faults, n, p)
            || (n == todo[i].name && p < Freed(cfs, objs, todo[i], faults[todo[i]])))
  {
    hide Freed;
    assert todo[..i + 1] == todo[..i] + [todo[i]];
  }

  /** Whether a container still to come can be dropped, and how far, is what it was when the sweep began. */
  ghost predicate Undecided(before: Families, now: Families, objs: Objects, todo: seq<Cid>,
                            faults: map<Cid, seq<bool>>) {
    forall c | c in todo && c in objs && c in faults ::
      && Droppable(now, objs[c], faults[c]) == Droppable(before, objs[c], faults[c])
      && Freed(now, objs, c, faults[c]) == Freed(before, objs, c, faults[c])
  }

  lemma NextUndecided(k: nat, start: Families, d: Disk, s: Session, after: Families, count: nat,
                      faults: map<Cid, seq<bool>>)
    requires Good(k, d, s) && s.gc.Sweeping? && s.gc.todo != [] && Undecided(start, d.cfs, s.objs, s.gc.todo, faults)
    requires FreedUpTo(k, d.cfs, after, s.gc.todo[0].name, count)
    ensures Undecided(start, after, s.objs, s.gc.todo[1..], faults)
  {
    SweepFacts(k, d, s);
    hide Core, Ownership;
    forall c | c in s.gc.todo[1..] && c in s.objs && c in faults
      ensures Droppable(after, s.objs[c], faults[c]) == Droppable(start, s.objs[c], faults[c])
      ensures Freed(after, s.objs, c, faults[c]) == Freed(start, s.objs, c, faults[c])
    {
      DropsElsewhere(k, d.cfs, after, s.gc.todo[0].name, count, s.objs[c], c.name, faults[c]);
    }
  }

  /** One container of the bucket: passed over, dropped in vain, or dropped and taken out of the index. */
  method CleanupContainer(store: Store, faults: seq<bool>) returns (cleaned: bool)
    requires store.Valid() && store.session.gc.Sweeping? && store.session.gc.phase.Inspect?
    requires store.session.gc.todo != []
    requires store.session.gc.todo[0] in store.session.objs
    requires |faults| == |store.session.objs[store.session.gc.todo[0]].instances|
    modifies store
    ensures store.Valid() && store.start == old(store.start) && old(store.acts) <= store.acts
    ensures cleaned <==> old(Cleaned(store.disk.cfs, store.session.objs, store.session.gc.todo[0], faults))
    ensures store.session.gc == old(store.session.gc).(todo := old(store.session.gc.todo)[1..], phase := Inspect)
    ensures store.session.objs == old(store.session.objs) && store.disk.records == old(store.disk.records)
    ensures store.session.index ==
      if cleaned then old(store.session.index) - {old(store.session.gc.todo)[0].name} else old(store.session.index)
    ensures store.session.count == old(store.session.count) - if cleaned then 1 else 0
    ensures FreedUpTo(store.k, old(store.disk.cfs), store.disk.cfs, old(store.session.gc.todo)[0].name,
                      old(Freed(store.disk.cfs, store.session.objs, store.session.gc.todo[0], faults)))
    ensures cleaned ==> forall i | 0 <= i < store.k :: old(store.session.gc.todo)[0].name !in store.disk.cfs[i]
  {
    hide Good, Path;
    SweepFacts(store.k, store.disk, store.session);
    var c := store.session.gc.todo[0];
    store.Collect(InspectNext);
    if store.session.gc.phase.Inspect? {
      return false;
    }
    cleaned := DeleteContainerInstances(store, c, faults);
    if cleaned {
      SweepFacts(store.k, store.disk, store.session);
      store.Collect(CheckEntry);
      store.Collect(EraseEntry);
      store.Collect(CountDown);
    }
  }

  /** What a sweep of the list up to here has freed. */
  ghost predicate Swept(k: nat, before: Families, now: Families, objs: Objects, todo: seq<Cid>,
                        faults: map<Cid, seq<bool>>) {
    && |before| == k + 1 == |now| && now[k] == before[k]
    && forall i: nat, n | i < k :: n in now[i] <==> n in before[i] && !FreedIn(before, objs, todo, faults, n, i)
  }

  lemma SweptNext(k: nat, start: Families, before: Families, after: Families, objs: Objects, todo: seq<Cid>,
                  faults: map<Cid, seq<bool>>, i: nat)
    requires i < |todo| && todo[i] in faults && Swept(k, start, before, objs, todo[..i], faults)
    requires FreedUpTo(k, before, after, todo[i].name, Freed(start, objs, todo[i], faults[todo[i]]))
    ensures Swept(k, start, after, objs, todo[..i + 1], faults)
  {
    hide Freed, FreedIn;
    forall p: nat, n | p < k
      ensures n in after[p] <==> n in start[p] && !FreedIn(start, objs, todo[..i + 1], faults, n, p)
    {
      FreedGrows(start, objs, todo, faults, i, n, p);
    }
  }

  lemma UnindexedNext(index: Index, cfs: Families, objs: Objects, todo: seq<Cid>, faults: map<Cid, seq<bool>>, i: nat)
    requires i < |todo| && todo[i] in faults
    ensures var before := index - CleanedNames(cfs, objs, todo[..i], faults);
      index - CleanedNames(cfs, objs, todo[..i + 1], faults)
        == if Cleaned(cfs, objs, todo[i], faults[todo[i]]) then before - {todo[i].name} else before
  {
    hide Cleaned;
    CleanedNamesGrow(cfs, objs, todo, faults, i);
  }

  /** The sweep has come to entry i of its list, and the index and the families are as they should be there. */
  ghost predicate SweptTo(k: nat, start: Families, first: Index, todo: seq<Cid>, faults: map<Cid, seq<bool>>, i: nat,
                          cfs: Families, s: Session) {
    && i <= |todo| && s.gc.Sweeping? && s.gc.phase.Inspect? && s.gc.todo == todo[i..]
    && s.index == first - CleanedNames(start, s.objs, todo[..i], faults)
    && Undecided(start, cfs, s.objs, s.gc.todo, faults)
    && Swept(k, start, cfs, s.objs, todo[..i], faults)
  }

  /** What the sweep of the list's next container adds to all that. */
  lemma SweepAdvances(k: nat, start: Families, first: Index, todo: seq<Cid>, faults: map<Cid, seq<bool>>, i: nat,
                      d: Disk, s: Session, cfs': Families, s': Session)
    requires Good(k, d, s) && i < |todo| && SweptTo(k, start, first, todo, faults, i, d.cfs, s)
    requires todo[i] in s.objs && todo[i] in faults
    requires FreedUpTo(k, d.cfs, cfs', todo[i].name, Freed(d.cfs, s.objs, todo[i], faults[todo[i]]))
    requires s'.objs == s.objs && s'.gc == s.gc.(todo := s.gc.todo[1..])
    requires s'.index == if Cleaned(d.cfs, s.objs, todo[i], faults[todo[i]]) then s.index - {todo[i].name} else s.index
    ensures SweptTo(k, start, first, todo, faults, i + 1, cfs', s')
  {
    var c := todo[i];
    assert c == s.gc.todo[0] && c in s.gc.todo && s.gc.todo[1..] == todo[i + 1..];
    hide Good, Freed, FreedUpTo, Swept, CleanedNames;
    NextUndecided(k, start, d, s, cfs', Freed(d.cfs, s.objs, c, faults[c]), faults);
    SweptNext(k, start, d.cfs, cfs', s.objs, todo, faults, i);
    UnindexedNext(first, start, s.objs, todo, faults, i);
  }

  lemma SweepBegins(k: nat, cfs: Families, first: Index, todo: seq<Cid>, faults: map<Cid, seq<bool>>, s: Session)
    requires |cfs| == k + 1 && s.gc == Sweeping((set c | c in todo), todo, Inspect) && s.index == first
    ensures SweptTo(k, cfs, first, todo, faults, 0, cfs, s)
  {
    assert todo[..0] == [] && todo[0..] == todo;
    assert CleanedNames(cfs, s.objs, [], faults) == {};
  }

  lemma SweepEnds(k: nat, start: Families, first: Index, todo: seq<Cid>, faults: map<Cid, seq<bool>>, cfs: Families,
                  s: Session)
    requires SweptTo(k, start, first, todo, faults, |todo|, cfs, s)
    ensures Swept(k, start, cfs, s.objs, todo, faults) && s.index == first - CleanedNames(start, s.objs, todo, faults)
    ensures s.gc.Sweeping? && s.gc.phase.Inspect? && s.gc.todo == []
  {
    assert todo[..|todo|] == todo;
  }

  lemma AtEntry(k: nat, start: Families, first: Index, todo: seq<Cid>, faults: map<Cid, seq<bool>>, i: nat, d: Disk,
                s: Session)
    requires Good(k, d, s) && i < |todo| && SweptTo(k, start, first, todo, faults, i, d.cfs, s)
    ensures s.gc.Sweeping? && s.gc.phase.Inspect? && s.gc.todo != [] && s.gc.todo[0] == todo[i] && todo[i] in s.objs
  {
    SweepFacts(k, d, s);
    assert s.gc.todo[0] in s.gc.todo;
  }

  /** One step of the sweep's loop. */
  method CleanupNext(store: Store, ghost start: Families, ghost first: Index, todo: seq<Cid>,
                     faults: map<Cid, seq<bool>>, i: nat)
      returns (cleaned: bool)
    requires store.Valid() && i < |todo|
    requires SweptTo(store.k, start, first, todo, faults, i, store.disk.cfs, store.session)
    requires forall c | c in todo && c in store.session.objs ::
      c in faults && |faults[c]| == |store.session.objs[c].instances|
    modifies store
    ensures store.Valid() && store.start == old(store.start) && old(store.acts) <= store.acts
    ensures SweptTo(store.k, start, first, todo, faults, i + 1, store.disk.cfs, store.session)
    ensures store.session.objs == old(store.session.objs) && store.disk.records == old(store.disk.records)
    ensures store.session.count == old(store.session.count) - if cleaned then 1 else 0
  {
    hide Good, Path, FreedUpTo, Freed, Cleaned, CleanedNames, Swept, SweptTo;
    ghost var d, s := store.disk, store.session;
    AtEntry(store.k, start, first, todo, faults, i, d, s);
    cleaned := CleanupContainer(store, faults[todo[i]]);
    SweepAdvances(store.k, start, first, todo, faults, i, d, s, store.disk.cfs, store.session);
  }

  /**
    * A sweep of one bucket. Of each soft-deleted container it frees the families of the first
    * partitions, up to the first slot that is null, whose family is gone, or whose drop fails; and it
    * takes the container out of the index exactly if no slot is. So one that has lost its first family
    * already keeps all others, in this sweep and in every later one.
    */
  method CleanupOrphanedContainers(store: Store, todo: seq<Cid>, faults: map<Cid, seq<bool>>) returns (cleaned: nat)
    requires store.Valid() && EnabledCollector(store.k, store.session, Snapshot(todo))
    requires forall c | c in todo && c in store.session.objs ::
      c in faults && |faults[c]| == |store.session.objs[c].instances|
    modifies store
    ensures store.Valid() && store.start == old(store.start) && old(store.acts) <= store.acts
    ensures store.session.gc.GcIdle?
    ensures store.session.index ==
      old(store.session.index) - old(CleanedNames(store.disk.cfs, store.session.objs, todo, faults))
    ensures store.session.objs == old(store.session.objs) && store.disk.records == old(store.disk.records)
    ensures store.session.count == old(store.session.count) - cleaned
    ensures Swept(store.k, old(store.disk.cfs), store.disk.cfs, store.session.objs, todo, faults)
  {
    hide Good, Path, Step, FreedUpTo, Freed, Cleaned, CleanedNames, Swept, SweptTo, Droppable, Dropped;
    ghost var cfs, index := store.disk.cfs, store.session.index;
    Lengths(store.k, store.disk, store.session);
    store.Collect(Snapshot(todo));
    SweepBegins(store.k, cfs, index, todo, faults, store.session);
    cleaned := 0;
    var i := 0;
    while i < |todo|
      invariant i <= |todo| && store.Valid() && store.start == old(store.start) && old(store.acts) <= store.acts
      invariant SweptTo(store.k, cfs, index, todo, faults, i, store.disk.cfs, store.session)
      invariant store.session.objs == old(store.session.objs) && store.disk.records == old(store.disk.records)
      invariant store.session.count == old(store.session.count) - cleaned
    {
      var done := CleanupNext(store, cfs, index, todo, faults, i);
      i := i + 1;
      cleaned := cleaned + if done then 1 else 0;
    }
    SweepEnds(store.k, cfs, index, todo, faults, store.disk.cfs, store.session);
    store.Collect(EndSweep);
  }
}
