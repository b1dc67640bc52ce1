/**
  * The boot sequence, statement by statement: open every database, register what was found,
  * make the metadata container if there is none, fill the index. It is a path of the step
  * machine, and what it leaves in the index is the session the machine goes up with.
  */
module Bootstrap {
  import opened Types
  import opened Lifecycle
  import opened Invariant
  import opened Runs
  import opened ContainerIndex
  import opened ContainerRegistry
  import opened ContainerLoader
  import Boot = BootPreservation

  /** The handles of the families of partition i, by name. */
  function HandlesOf(cfs: Families, i: nat): map<Name, Ref>
    requires i < |cfs|
  {
    map n | n in cfs[i] :: Handle(cfs, i, n)
  }

  /** The handles an engine returns for the families it is asked to open, in that order. */
  function OpenedHandles(cfs: Families, i: nat, names: seq<Name>): (handles: seq<Ref>)
    requires i < |cfs| && forall n | n in names :: n in cfs[i]
    ensures |handles| == |names| && forall j | 0 <= j < |names| :: handles[j] == Handle(cfs, i, names[j])
  {
    seq(|names|, j requires 0 <= j < |names| => Handle(cfs, i, names[j]))
  }

  lemma AllHandlesOpened(d: Disk, i: nat, names: seq<Name>)
    requires i < |d.cfs| && forall n :: n in names <==> n in d.cfs[i]
    ensures (set h | h in OpenedHandles(d.cfs, i, names)) == OpenHandles(d, i)
  {
    forall h | h in OpenHandles(d, i) ensures h in OpenedHandles(d.cfs, i, names) {
      var j :| 0 <= j < |names| && names[j] == h.name;
      assert OpenedHandles(d.cfs, i, names)[j] == h;
    }
  }

  // ---------------------------------------------------------------- what the registry learns

  /** Every registration is the handle of a family of its name on its partition. */
  predicate LogSound(cfs: Families, log: seq<Registration>) {
    forall j | 0 <= j < |log| ::
      && log[j].ref.Some? && log[j].ref.value.part == log[j].slot && log[j].ref.value.name == log[j].name
      && OnDisk(cfs, log[j].ref.value)
  }

  /** The families of the first i partitions, and those in `names` of the i-th, are registered, and nothing else. */
  ghost predicate Registered(cfs: Families, log: seq<Registration>, i: nat, names: set<Name>) {
    forall j: nat, n :: Accepted(log, n, j) <==> (j < i && j < |cfs| && n in cfs[j]) || (j == i && n in names)
  }

  lemma AcceptedMore(log: seq<Registration>, r: Registration, n: Name, i: nat)
    ensures Accepted(log + [r], n, i) <==> (r.name == n && r.slot == i) || Accepted(log, n, i)
  {
    var more := log + [r];
    assert more[|log|] == r;
    if Accepted(log, n, i) {
      var j :| 0 <= j < |log| && log[j].name == n && log[j].slot == i;
      assert more[j].name == n && more[j].slot == i;
    }
  }

  lemma RegisteredMore(cfs: Families, log: seq<Registration>, i: nat, names: set<Name>, n: Name)
    requires i < |cfs| && n in cfs[i] && LogSound(cfs, log) && Registered(cfs, log, i, names)
    ensures var more := log + [Registration(n, i, Some(Handle(cfs, i, n)))];
      LogSound(cfs, more) && Registered(cfs, more, i, names + {n})
  {
    var r := Registration(n, i, Some(Handle(cfs, i, n)));
    forall j: nat, m
      ensures Accepted(log + [r], m, j) <==> (j < i && j < |cfs| && m in cfs[j]) || (j == i && m in names + {n})
    {
      AcceptedMore(log, r, m, j);
    }
  }

  /** A family that is not registered yet has a handle that is not either. */
  lemma NewHandle(cfs: Families, log: seq<Registration>, i: nat, names: set<Name>, n: Name)
    requires i < |cfs| && n in cfs[i] && n !in names && LogSound(cfs, log) && Registered(cfs, log, i, names)
    ensures forall j | 0 <= j < |log| :: log[j].ref != Some(Handle(cfs, i, n))
  {
    assert !Accepted(log, n, i);
  }

  /** Once all partitions are registered the registry shows the disk. */
  lemma RegisteredSlots(k: nat, cfs: Families, log: seq<Registration>, n: Name)
    requires |cfs| == k + 1 && LogSound(cfs, log) && Registered(cfs, log, k, {})
    ensures LoadedSlots(k, log, n) == Slots(k, cfs, n)
    ensures Knows(log, n) <==> n in DataNames(k, cfs)
    ensures ContainerRegistry.Intact(log, k, n) <==> OnEvery(k, cfs, n)
  {
    forall i | 0 <= i < k ensures SlotOf(log, n, i) == if n in cfs[i] then Some(Handle(cfs, i, n)) else None {
      FilledMeansAccepted(log, n, i);
      if SlotOf(log, n, i).Some? {
        var j := SlotFrom(log, n, i);
      }
    }
    if Knows(log, n) {
      var j :| 0 <= j < |log| && log[j].name == n;
      assert Accepted(log, n, log[j].slot);
    }
    if n in DataNames(k, cfs) {
      var i :| 0 <= i < k && n in cfs[i];
      assert Accepted(log, n, i);
    }
  }

  // ---------------------------------------------------------------- what the loader makes of it

  /** The engines of the data partitions when boot comes to load. */
  function Engines(k: nat, d: Disk): (engines: seq<set<Ref>>)
    requires |d.cfs| == k + 1
    ensures |engines| == k
  {
    Approvals(k, d)[..k]
  }

  lemma MetadataAsLoaded(k: nat, d: Disk, n: Name)
    requires |d.cfs| == k + 1 && n in MetadataEntries(k, HandlesOf(d.cfs, k))
    ensures exists m | m in d.cfs[k] :: IndexedAs(m) == n
    ensures MetadataEntries(k, HandlesOf(d.cfs, k))[n] == MetadataContainer(k, d, FamilyOf(k, d, n))
  {
    var refs := HandlesOf(d.cfs, k);
    EntryAt(k, refs, n);
    var m :| m in refs && IndexedAs(m) == n;
    assert m in d.cfs[k];
  }

  lemma MetadataKeys(k: nat, d: Disk)
    requires |d.cfs| == k + 1
    ensures MetadataEntries(k, HandlesOf(d.cfs, k)).Keys == set m | m in d.cfs[k] :: IndexedAs(m)
  {
    assert HandlesOf(d.cfs, k).Keys == d.cfs[k].Keys;
  }

  /** Where a name of the filled index comes from. */
  lemma FilledFrom(k: nat, refs: map<Name, Ref>, log: seq<Registration>, names: set<Name>, records: set<Name>, n: Name)
    requires records <= names && MetadataEntries(k, refs).Keys !! names
    ensures var filled := Filled(k, refs, log, names, records);
      && (n in filled <==> n in names || n in MetadataEntries(k, refs))
      && (n in names ==> filled[n] == Container(n, LoadedSlots(k, log, n), n !in records))
      && (n in MetadataEntries(k, refs) ==> filled[n] == MetadataEntries(k, refs)[n])
  {
    hide MetadataEntries, LoadedSlots;
  }

  /** Where a name the machine loads comes from. */
  lemma LoadedFrom(k: nat, d: Disk, n: Name)
    requires |d.cfs| == k + 1 && (set m | m in d.cfs[k] :: IndexedAs(m)) !! DataNames(k, d.cfs)
    ensures n in LoadedContainers(k, d) <==> n in DataNames(k, d.cfs) || n in set m | m in d.cfs[k] :: IndexedAs(m)
    ensures n in DataNames(k, d.cfs) ==> LoadedContainers(k, d)[n] == Container(n, Slots(k, d.cfs, n), n !in d.records)
    ensures n in (set m | m in d.cfs[k] :: IndexedAs(m)) ==>
      LoadedContainers(k, d)[n] == MetadataContainer(k, d, FamilyOf(k, d, n))
  {
    hide Slots, MetadataContainer;
  }

  /** Each container of the filled index is the one the machine's boot loads. */
  lemma FilledAt(k: nat, d: Disk, log: seq<Registration>, n: Name)
    requires |d.cfs| == k + 1 && LogSound(d.cfs, log) && Registered(d.cfs, log, k, {}) && Loadable(k, d)
    ensures var filled := Filled(k, HandlesOf(d.cfs, k), log, DataNames(k, d.cfs), d.records);
      && (n in filled <==> n in LoadedContainers(k, d))
      && (n in filled ==> filled[n] == LoadedContainers(k, d)[n])
  {
    MetadataKeys(k, d);
    RegisteredSlots(k, d.cfs, log, n);
    forall m | m in d.records ensures m in DataNames(k, d.cfs) {
      assert OnEvery(k, d.cfs, m) && m in d.cfs[0];
    }
    FilledFrom(k, HandlesOf(d.cfs, k), log, DataNames(k, d.cfs), d.records, n);
    LoadedFrom(k, d, n);
    if n in MetadataEntries(k, HandlesOf(d.cfs, k)) {
      MetadataAsLoaded(k, d, n);
    }
    hide Filled, LoadedContainers, MetadataEntries, LoadedSlots, Slots, LogSound, Registered;
  }

  lemma FilledAsLoaded(k: nat, d: Disk, log: seq<Registration>)
    requires |d.cfs| == k + 1 && LogSound(d.cfs, log) && Registered(d.cfs, log, k, {}) && Loadable(k, d)
    ensures Filled(k, HandlesOf(d.cfs, k), log, DataNames(k, d.cfs), d.records) == LoadedContainers(k, d)
  {
    var filled := Filled(k, HandlesOf(d.cfs, k), log, DataNames(k, d.cfs), d.records);
    forall n
      ensures n in filled <==> n in LoadedContainers(k, d)
      ensures n in filled ==> filled[n] == LoadedContainers(k, d)[n]
    {
      FilledAt(k, d, log, n);
    }
    assert filled.Keys == LoadedContainers(k, d).Keys;
  }

  /** The engine of a data partition has approved the handles of its own families and no other. */
  lemma EngineHas(k: nat, d: Disk, p: nat, r: Ref)
    requires |d.cfs| == k + 1 && p < k && OnDisk(d.cfs, r)
    ensures r in Engines(k, d)[p] <==> p == r.part
  {
    if p == r.part { assert r == Handle(d.cfs, p, r.name); }
  }

  /** A container made of handles on disk, each in the slot of its partition, is sound unless it lacks one and
      is live. */
  lemma HandlesSound(k: nat, d: Disk, c: Container)
    requires |d.cfs| == k + 1
    requires forall j | 0 <= j < |c.instances| && c.instances[j].ref.Some? ::
      OnDisk(d.cfs, c.instances[j].ref.value) && c.instances[j].ref.value.part == c.instances[j].part
    requires !c.deleted ==> forall j | 0 <= j < |c.instances| :: c.instances[j].ref.Some?
    ensures ContainerSound(c, Engines(k, d))
  {
    var slots := EngineSlots(c.instances);
    forall j | 0 <= j < |slots| ensures SlotSound(c.deleted, slots[j], Engines(k, d)) {
      if slots[j].ref.Some? {
        forall p | 0 <= p < k ensures EngineSound(slots[j], slots[j].ref.value, Engines(k, d), p) {
          EngineHas(k, d, p, slots[j].ref.value);
        }
      }
    }
    ContainerFaultIff(c.deleted, slots, Engines(k, d));
  }

  lemma SlotsSound(k: nat, d: Disk, n: Name)
    requires |d.cfs| == k + 1 && Loadable(k, d)
    ensures ContainerSound(Container(n, Slots(k, d.cfs, n), n !in d.records), Engines(k, d))
  {
    HandlesSound(k, d, Container(n, Slots(k, d.cfs, n), n !in d.records));
  }

  lemma MetadataSound(k: nat, d: Disk, m: Name)
    requires |d.cfs| == k + 1 && m in d.cfs[k]
    ensures ContainerSound(MetadataContainer(k, d, m), Engines(k, d))
  {
    HandlesSound(k, d, MetadataContainer(k, d, m));
  }

  lemma LoadedSound(k: nat, d: Disk, n: Name)
    requires |d.cfs| == k + 1 && Loadable(k, d) && n in LoadedContainers(k, d)
    ensures ContainerSound(LoadedContainers(k, d)[n], Engines(k, d))
  {
    hide ContainerSound, Loadable, Slots, MetadataContainer, Engines;
    SlotsSound(k, d, n);
    if n in set m | m in d.cfs[k] :: IndexedAs(m) {
      MetadataSound(k, d, FamilyOf(k, d, n));
    }
  }

  /** With no more than two families and the records' container among them, the loader accepts exactly
      the disks the machine calls loadable. */
  lemma AcceptsIffLoadable(k: nat, d: Disk, log: seq<Registration>)
    requires |d.cfs| == k + 1 && LogSound(d.cfs, log) && Registered(d.cfs, log, k, {})
    requires |d.cfs[k]| <= 2 && MetadataContainers in d.cfs[k]
    ensures Accepts(k, HandlesOf(d.cfs, k), log, DataNames(k, d.cfs), d.records, Engines(k, d)) <==> Loadable(k, d)
  {
    var refs := HandlesOf(d.cfs, k);
    MetadataKeys(k, d);
    if Loadable(k, d) {
      FilledAsLoaded(k, d, log);
      forall n | n in LoadedContainers(k, d) ensures ContainerSound(LoadedContainers(k, d)[n], Engines(k, d)) {
        LoadedSound(k, d, n);
      }
      forall n | n in d.records ensures RecordSound(k, log, MetadataEntries(k, refs).Keys, n) {
        RegisteredSlots(k, d.cfs, log, n);
        assert OnEvery(k, d.cfs, n) && n in d.cfs[0];
        assert n in DataNames(k, d.cfs);
      }
    }
    if Accepts(k, refs, log, DataNames(k, d.cfs), d.records, Engines(k, d)) {
      AcceptedIsLoadable(k, d, log);
    }
  }

  lemma AcceptedIsLoadable(k: nat, d: Disk, log: seq<Registration>)
    requires |d.cfs| == k + 1 && LogSound(d.cfs, log) && Registered(d.cfs, log, k, {})
    requires |d.cfs[k]| <= 2 && MetadataContainers in d.cfs[k]
    requires Accepts(k, HandlesOf(d.cfs, k), log, DataNames(k, d.cfs), d.records, Engines(k, d))
    ensures Loadable(k, d)
  {
    var refs := HandlesOf(d.cfs, k);
    MetadataKeys(k, d);
    forall n | n in d.records ensures OnEvery(k, d.cfs, n) && 0 < k && n !in MetadataEntries(k, refs).Keys {
      assert RecordSound(k, log, MetadataEntries(k, refs).Keys, n);
      RegisteredSlots(k, d.cfs, log, n);
    }
    forall n | n in d.cfs[k] ensures IndexedAs(n) !in DataNames(k, d.cfs) {
      assert IndexedAs(n) in MetadataEntries(k, refs).Keys;
    }
    assert |d.cfs[k]| > 0 by {
      if d.cfs[k] == map[] {
        assert false;
      }
    }
  }

  // ---------------------------------------------------------------- the sequence

  lemma AddedHandle(d: Disk, i: nat, n: Name)
    requires i < |d.cfs| && n !in d.cfs[i]
    ensures var d' := AddFamily(d, i, n);
      && OpenHandles(d', i) == OpenHandles(d, i) + {Handle(d'.cfs, i, n)}
      && HandlesOf(d'.cfs, i) == HandlesOf(d.cfs, i)[n := Handle(d'.cfs, i, n)]
      && forall j | 0 <= j < |d.cfs| && j != i :: OpenHandles(d', j) == OpenHandles(d, j)
  {
    var d' := AddFamily(d, i, n);
    forall m | m in d'.cfs[i] ensures Handle(d'.cfs, i, m) ==
      if m == n then Ref(i, n, d.next) else Handle(d.cfs, i, m) {
    }
    forall r | r in OpenHandles(d, i) ensures r in OpenHandles(d', i) {
      assert r == Handle(d'.cfs, i, r.name);
    }
    forall r | r in OpenHandles(d', i) ensures r in OpenHandles(d, i) + {Handle(d'.cfs, i, n)} {
      if r.name != n { assert r == Handle(d.cfs, i, r.name); }
    }
    assert Handle(d'.cfs, i, n) in OpenHandles(d', i);
  }

  /** A disk that comes past the first two checks of the loader. */
  ghost predicate HasRecords(k: nat, d: Disk) {
    |d.cfs| == k + 1 && |d.cfs[k]| <= 2 && MetadataContainers in d.cfs[k]
  }

  /** The metadata partition is new: it has "default" at most, and the family of the records is to be made. */
  ghost predicate FirstStart(k: nat, d: Disk)
    requires |d.cfs| == k + 1
  {
    |OpenedDisk(d, k).cfs[k]| == 1
  }

  /** On a disk the store left behind, that means that there are no records yet. */
  lemma FirstStartIff(k: nat, d: Disk)
    requires DiskOk(k, d)
    ensures FirstStart(k, d) <==> MetadataContainers !in d.cfs[k]
  {
    var w := World(k, d, Booting(Opening(0)));
    assert Inv(w);
    StepKeeps(w, OpenPartition(true));
    var after := Step(w, OpenPartition(true)).disk;
    assert after == OpenedDisk(d, k) && after.cfs[k] != map[];
    Boot.MetadataFamilies(k, after.cfs, after.next);
  }

  /** Opening partition i changes only partition i, and only by adding to it. */
  lemma OpenedKeeps(d: Disk, i: nat, log: seq<Registration>)
    requires i < |d.cfs| && LogSound(d.cfs, log) && Registered(d.cfs, log, i, {})
    ensures var d' := OpenedDisk(d, i); |d'.cfs| == |d.cfs| && LogSound(d'.cfs, log) && Registered(d'.cfs, log, i, {})
    ensures var d' := OpenedDisk(d, i); forall j | 0 <= j < |d.cfs| && j != i :: OpenHandles(d', j) == OpenHandles(d, j)
  {
    var d' := OpenedDisk(d, i);
    forall j | 0 <= j < |log| ensures OnDisk(d'.cfs, log[j].ref.value) {
      assert OnDisk(d.cfs, log[j].ref.value);
    }
  }

  /** The engines that have been opened have approved just the handles of their families. */
  ghost predicate ApprovedAfter(k: nat, d: Disk, approved: seq<set<Ref>>, done: nat) {
    && |d.cfs| == k + 1 == |approved| && done <= k + 1
    && (done > 0 ==> approved[k] == OpenHandles(d, k))
    && (forall i | 0 <= i < k :: approved[i] == if i + 1 < done then OpenHandles(d, i) else {})
    && (done == 0 ==> approved[k] == {})
  }

  /** Whether the engine of a partition can list its families, and then open them. */
  datatype Call = Call(lists: bool, opens: bool)

  function StartStatus(call: Call): Status {
    if !call.lists then FetchContainersFromDiskFailed
    else if !call.opens then StorageEngineStartupFailed
    else Success
  }

  /** The answer of the first call that fails. */
  function FirstFailure(calls: seq<Call>): (status: Status)
    ensures status == Success <==> forall i | 0 <= i < |calls| :: calls[i].lists && calls[i].opens
    ensures status != Success ==> exists i | 0 <= i < |calls| ::
      && status == (if calls[i].lists then StorageEngineStartupFailed else FetchContainersFromDiskFailed)
      && !(calls[i].lists && calls[i].opens) && forall j | 0 <= j < i :: calls[j].lists && calls[j].opens
  {
    if calls == [] then Success
    else if StartStatus(calls[0]) != Success then StartStatus(calls[0])
    else
      var rest := FirstFailure(calls[1..]);
      assert forall j | 0 <= j < |calls| - 1 :: calls[1..][j] == calls[j + 1];
      rest
  }

  lemma {:induction false} FirstFailureAt(calls: seq<Call>, i: nat)
    requires i < |calls| && StartStatus(calls[i]) != Success
    requires forall j | 0 <= j < i :: StartStatus(calls[j]) == Success
    ensures FirstFailure(calls) == StartStatus(calls[i])
  {
    if i > 0 { FirstFailureAt(calls[1..], i - 1); }
  }

  class PandoraDb {
    const k: nat
    const index: ContainerIndex.Index
    var disk: Disk
    var approved: seq<set<Ref>>
    /** What the step machine has come to. */
    ghost var world: World
    ghost var start: World
    ghost var acts: seq<Action>

    /** The program and the machine agree on the disk; the machine has come here from where it began. */
    ghost predicate Valid()
      reads this
    {
      && world.k == k && world.disk == disk && |approved| == k + 1 == |disk.cfs|
      && Path(start, acts, world) && AllClean(acts)
    }

    constructor (k: nat, disk: Disk, index: ContainerIndex.Index)
      requires |disk.cfs| == k + 1
      ensures Valid() && this.k == k && this.disk == disk && this.index == index
      ensures world == start == World(k, disk, Down) && acts == []
      ensures approved == seq(k + 1, _ => {})
    {
      this.k, this.disk, this.index := k, disk, index;
      approved := seq(k + 1, _ => {});
      world, start, acts := World(k, disk, Down), World(k, disk, Down), [];
    }

    /** The machine's side of what the program has just done. */
    ghost method Advance(a: Action)
      requires world.k == k && Path(start, acts, world) && AllClean(acts) && Enabled(world, a) && BootAction(a)
      modifies this`world, this`acts
      ensures world == Step(old(world), a) && Path(start, acts, world) && AllClean(acts) && world.k == k
    {
      hide Path;
      PathThen(start, acts, world, a);
      world, acts := Step(world, a), acts + [a];
    }

    /** The names of the families on disk, in some order; "default" for a database that does not exist. */
    method FetchContainersFromDisk(i: nat, listed: bool) returns (status: Status, names: seq<Name>)
      requires i < |disk.cfs|
      ensures status == if listed then Success else FetchContainersFromDiskFailed
      ensures listed && disk.cfs[i] == map[] ==> names == [Default]
      ensures listed && disk.cfs[i] != map[] ==> forall n :: n in names <==> n in disk.cfs[i]
    {
      names := [];
      if !listed {
        return FetchContainersFromDiskFailed, names;
      }
      var todo := disk.cfs[i].Keys;
      while todo != {}
        invariant todo <= disk.cfs[i].Keys
        invariant forall n :: n in names <==> n in disk.cfs[i] && n !in todo
        invariant disk.cfs[i] == map[] ==> names == []
        decreases |todo|
      {
        var n :| n in todo;
        names := names + [n];
        todo := todo - {n};
      }
      if names == [] {
        names := [Default];
      }
      return Success, names;
    }

    /** Open the database of partition i: its handles come back in the order of the names, all are approved,
        and each goes to its name. */
    method BootDataPartition(i: nat, call: Call) returns (status: Status, refs: map<Name, Ref>)
      requires |disk.cfs| == k + 1 && |approved| == k + 1 && i <= k
      modifies this`disk, this`approved
      ensures |disk.cfs| == k + 1 && |approved| == k + 1
      ensures status ==
        if !call.lists then FetchContainersFromDiskFailed
        else if !call.opens then StorageEngineStartupFailed
        else Success
      ensures status != Success ==> disk == old(disk) && approved == old(approved)
      ensures status == Success ==> disk == OpenedDisk(old(disk), i) && refs == HandlesOf(disk.cfs, i)
      ensures status == Success ==> approved == old(approved)[i := old(approved)[i] + OpenHandles(disk, i)]
    {
      refs := map[];
      var names;
      status, names := FetchContainersFromDisk(i, call.lists);
      if status != Success {
        return status, map[];
      }
      if !call.opens {
        return StorageEngineStartupFailed, map[];
      }
      disk := OpenedDisk(disk, i);
      assert forall n :: n in names <==> n in disk.cfs[i];
      var handles := OpenedHandles(disk.cfs, i, names);
      approved := approved[i := approved[i] + set h | h in handles];
      AllHandlesOpened(disk, i, names);
      for j := 0 to |names|
        invariant |disk.cfs| == k + 1
        invariant forall n | n in refs :: n in disk.cfs[i] && refs[n] == Handle(disk.cfs, i, n)
        invariant forall a | 0 <= a < j :: names[a] in refs
      {
        refs := refs[names[j] := handles[j]];
      }
      return Success, refs;
    }

    /** Partition i is the next to open. */
    ghost predicate OpensNext(done: nat)
      reads this
    {
      && Valid() && done <= k && world.mode == Booting(Opening(done)) && ApprovedAfter(k, disk, approved, done)
    }

    method OpenNext(i: nat, call: Call, ghost done: nat) returns (status: Status, refs: map<Name, Ref>)
      requires OpensNext(done) && i == BootOrder(k, done)
      modifies this
      ensures Valid() && start == old(start)
      ensures status == StartStatus(call)
      ensures status != Success ==> world.mode.Down?
      ensures status == Success ==>
        && disk == OpenedDisk(old(disk), i) && refs == HandlesOf(disk.cfs, i)
        && ApprovedAfter(k, disk, approved, done + 1)
        && world.mode ==
          Booting(if done < k then Opening(done + 1) else if |disk.cfs[k]| == 1 then CreatingMetadata else Loading)
    {
      hide Core, Ownership;
      status, refs := BootDataPartition(i, call);
      Advance(OpenPartition(status == Success));
    }

    /** Every handle of the partition is new to the registry. */
    method RegisterReferences(registry: Registry, i: nat, refs: map<Name, Ref>) returns (status: Status)
      requires registry.Valid() && registry.k == k && i < k < |disk.cfs| && refs == HandlesOf(disk.cfs, i)
      requires LogSound(disk.cfs, registry.log) && Registered(disk.cfs, registry.log, i, {})
      modifies registry
      ensures registry.Valid() && status == Success
      ensures LogSound(disk.cfs, registry.log) && Registered(disk.cfs, registry.log, i + 1, {})
    {
      hide Registry.Valid, LogSound, Registered;
      var todo := refs.Keys;
      ghost var names: set<Name> := {};
      while todo != {}
        invariant todo <= refs.Keys && names == refs.Keys - todo && registry.Valid()
        invariant LogSound(disk.cfs, registry.log) && Registered(disk.cfs, registry.log, i, names)
        decreases |todo|
      {
        var n :| n in todo;
        RegisteredMore(disk.cfs, registry.log, i, names, n);
        NewHandle(disk.cfs, registry.log, i, names, n);
        status := registry.RegisterContainerReference(n, i, Some(refs[n]));
        if status != Success {
          return;
        }
        todo := todo - {n};
        names := names + {n};
      }
      PartitionRegistered(disk.cfs, registry.log, i, names);
      return Success;
    }

    /** Open the data partitions one after the other and register what is on them. */
    method BootStructuredDataPartitions(calls: seq<Call>) returns (status: Status, registry: Registry)
      requires OpensNext(1) && k > 0 && |calls| == k
      modifies this
      ensures Valid() && start == old(start) && fresh(registry) && registry.Valid() && registry.k == k
      ensures status == FirstFailure(calls)
      ensures status != Success ==> world.mode.Down?
      ensures status == Success ==>
        && ApprovedAfter(k, disk, approved, k + 1)
        && LogSound(disk.cfs, registry.log) && Registered(disk.cfs, registry.log, k, {})
        && disk.cfs[k] == old(disk.cfs[k]) && disk.records == old(disk.records)
        && world.mode == Booting(if |disk.cfs[k]| == 1 then CreatingMetadata else Loading)
    {
      hide Registry.Valid, LogSound, Registered, Path;
      registry := new Registry(k);
      NothingYet(disk.cfs);
      var i := 0;
      while i < k
        invariant i <= k && fresh(registry) && registry.Valid() && registry.k == k && start == old(start)
        invariant if i < k then OpensNext(i + 1)
                  else Valid() && ApprovedAfter(k, disk, approved, k + 1)
                       && world.mode == Booting(if |disk.cfs[k]| == 1 then CreatingMetadata else Loading)
        invariant |disk.cfs| == k + 1 && disk.cfs[k] == old(disk.cfs[k]) && disk.records == old(disk.records)
        invariant forall j | 0 <= j < i :: StartStatus(calls[j]) == Success
        invariant LogSound(disk.cfs, registry.log) && Registered(disk.cfs, registry.log, i, {})
      {
        OpenedKeeps(disk, i, registry.log);
        var refs;
        status, refs := OpenNext(i, calls[i], i + 1);
        if status != Success {
          FirstFailureAt(calls, i);
          return;
        }
        status := RegisterReferences(registry, i, refs);
        if status != Success {
          return;
        }
        i := i + 1;
      }
      return Success, registry;
    }

    ghost method AdvanceCreate(ok: bool)
      requires Valid() && world.mode == Booting(CreatingMetadata) && MetadataContainers !in disk.cfs[k]
      modifies this`world, this`acts
      ensures world.k == k && |disk.cfs| == k + 1 && Path(start, acts, world) && AllClean(acts)
      ensures world == if ok then World(k, AddFamily(disk, k, MetadataContainers), Booting(SeedingMetadata))
        else World(k, disk, Down)
    {
      hide Core, Ownership;
      Advance(CreateMetadata(ok));
    }

    ghost method AdvanceSeed(ok: bool)
      requires Path(start, acts, world) && AllClean(acts) && world.k == k && world.disk == disk
      requires world.mode == Booting(SeedingMetadata)
      modifies this`world, this`acts
      ensures world.k == k && Path(start, acts, world) && AllClean(acts)
      ensures world ==
        if ok then World(k, disk.(records := disk.records + {Default}), Booting(Loading)) else World(k, disk, Down)
    {
      hide Core, Ownership;
      Advance(SeedMetadata(ok));
    }

    /** A first boot: make the family of the records, approve its handle, record "default". */
    method CreateContainerMetadataColumnFamily(refs: map<Name, Ref>, create: bool, seed: bool)
      returns (status: Status, found: map<Name, Ref>)
      requires Valid() && world.mode == Booting(CreatingMetadata) && ApprovedAfter(k, disk, approved, k + 1)
      requires MetadataContainers !in disk.cfs[k] && refs == HandlesOf(disk.cfs, k)
      modifies this
      ensures Valid() && start == old(start)
      ensures status == if !create then ContainerCreationFailed else if !seed then ObjectInsertionFailed else Success
      ensures status != Success ==> found == refs && world.mode.Down? && MetadataContainers !in refs
      ensures status == Success ==> |disk.cfs[k]| == |old(disk.cfs[k])| + 1
      ensures status == Success ==>
        && world.mode == Booting(Loading) && ApprovedAfter(k, disk, approved, k + 1)
        && disk.cfs == old(disk.cfs)[k := disk.cfs[k]] && found == HandlesOf(disk.cfs, k) && MetadataContainers in found
    {
      hide Inv, Path;
      AdvanceCreate(create);
      if !create {
        return ContainerCreationFailed, refs;
      }
      disk := AddFamily(disk, k, MetadataContainers);
      var handle := Handle(disk.cfs, k, MetadataContainers);
      approved := approved[k := approved[k] + {handle}];
      AddedHandle(old(disk), k, MetadataContainers);
      AdvanceSeed(seed);
      if !seed {
        return ObjectInsertionFailed, refs;
      }
      disk := disk.(records := disk.records + {Default});
      return Success, refs[MetadataContainers := handle];
    }

    /** This object is no part of the index. */
    lemma Elsewhere()
      ensures this !in TablesOf(index.buckets)
      ensures forall n | n in index.Contents() :: index.Contents()[n] as object != this
    {
      hide ConcurrentMap.Flat, MapsOf;
    }

    /** The loader accepts what it is given exactly if the machine can load the disk, and makes of it what
        the machine loads. */
    lemma LoadsAll(registry: Registry)
      requires registry.Valid() && registry.k == k && HasRecords(k, disk)
      requires LogSound(disk.cfs, registry.log) && Registered(disk.cfs, registry.log, k, {})
      requires ApprovedAfter(k, disk, approved, k + 1)
      ensures approved == Approvals(k, disk) && approved[..k] == Engines(k, disk)
      ensures registry.references.Keys == DataNames(k, disk.cfs)
      ensures Accepts(k, HandlesOf(disk.cfs, k), registry.log, registry.references.Keys, disk.records, approved[..k])
        <==> Loadable(k, disk)
      ensures Loadable(k, disk) ==>
        Filled(k, HandlesOf(disk.cfs, k), registry.log, registry.references.Keys, disk.records) ==
          LoadedContainers(k, disk)
    {
      assert approved == Approvals(k, disk);
      forall n ensures n in registry.references.Keys <==> n in DataNames(k, disk.cfs) {
        RegisteredSlots(k, disk.cfs, registry.log, n);
      }
      assert registry.references.Keys == DataNames(k, disk.cfs);
      AcceptsIffLoadable(k, disk, registry.log);
      if Loadable(k, disk) { FilledAsLoaded(k, disk, registry.log); }
    }

    /** The machine loads the index, or fails to read the records, or refuses what it finds. */
    ghost method AdvanceLoad(read: bool)
      requires Valid() && world.mode == Booting(Loading)
      modifies this`world, this`acts
      ensures Valid() && world.mode == (if read && Loadable(k, disk) then Up(FirstSession(k, disk)) else Down)
    {
      hide Loadable;
      Advance(LoadIndex(read));
    }

    /** The records are there: read them and fill the index. */
    method LoadRecorded(found: map<Name, Ref>, registry: Registry, read: bool) returns (status: Status)
      requires Empty(index) && registry.Valid() && registry.k == k && HasRecords(k, disk)
      requires ApprovedAfter(k, disk, approved, k + 1) && found == HandlesOf(disk.cfs, k)
      requires LogSound(disk.cfs, registry.log) && Registered(disk.cfs, registry.log, k, {})
      modifies index, TablesOf(index.buckets)
      ensures status == Success <==> read && Loadable(k, disk)
      ensures !read ==> status == ObjectRetrievalFailed
      ensures read && status != Success ==>
        FillFault(k, found, registry.log, DataNames(k, disk.cfs), disk.records, Engines(k, disk), status)
      ensures status == Success ==>
        approved == Approvals(k, disk) && index.Valid() && View(index) == LoadedContainers(k, disk)
    {
      if !read {
        return ObjectRetrievalFailed;
      }
      LoadsAll(registry);
      hide Empty, ContainerIndex.Index.Valid, Registry.Valid, LogSound, Registered, ApprovedAfter, Filled, Accepts,
        Approvals, LoadedContainers, View, Loadable, FillFault, Engines;
      status := FillContainerIndex(index, k, found, registry, disk.records, approved[..k]);
    }

    /** Fill the index from what was opened, whatever it is: that works exactly if the calls to the engines
        do and the machine can load the disk they leave. */
    method LoadContainerIndex(refs: map<Name, Ref>, registry: Registry, create: bool, seed: bool, read: bool)
      returns (status: Status)
      requires Valid() && Empty(index) && registry.Valid() && registry.k == k
      requires ApprovedAfter(k, disk, approved, k + 1) && refs == HandlesOf(disk.cfs, k)
      requires LogSound(disk.cfs, registry.log) && Registered(disk.cfs, registry.log, k, {})
      requires Default in disk.cfs[k]
      requires world.mode == Booting(if |disk.cfs[k]| == 1 then CreatingMetadata else Loading)
      modifies this, index, TablesOf(index.buckets)
      ensures Valid() && start == old(start) && |old(disk.cfs)| == k + 1
      ensures status == Success <==> (|old(disk.cfs[k])| == 1 ==> create && seed) && read && Loadable(k, disk)
      ensures status != Success ==> world.mode.Down?
      ensures |old(disk.cfs[k])| > 2 ==> status == UnexpectedMetadataPartitionNumberContainers
      ensures |old(disk.cfs[k])| == 1 && !(create && seed) ==> status == ContainersInternalMetadataLookupFailed
      ensures |old(disk.cfs[k])| == 2 && MetadataContainers !in old(disk.cfs[k]) ==>
        status == ContainersInternalMetadataLookupFailed
      ensures HasRecords(k, disk) && (|old(disk.cfs[k])| == 1 ==> create && seed) && status != Success ==>
        if !read then status == ObjectRetrievalFailed
        else FillFault(k, HandlesOf(disk.cfs, k), registry.log, DataNames(k, disk.cfs), disk.records, Engines(k, disk),
                       status)
      ensures Inv(start) && (|old(disk.cfs[k])| == 1 ==> create && seed) ==> Loadable(k, disk) && HasRecords(k, disk)
      ensures status == Success ==>
        && world.mode == Up(FirstSession(k, disk)) && approved == Approvals(k, disk)
        && index.Valid() && View(index) == LoadedContainers(k, disk)
    {
      hide Empty, Registry.Valid, LogSound, Registered, ApprovedAfter, View,
        FirstSession, LoadedContainers, Approvals, Inv, Loadable, Path;
      OneFamily(k, disk);
      Elsewhere();
      if |refs| == 0 || |refs| > 2 {
        if Inv(start) { InRuns(); }
        AdvanceLoad(read);
        return UnexpectedMetadataPartitionNumberContainers;
      }
      var found := refs;
      if |refs| == 1 {
        ghost var before := disk.cfs;
        var made;
        made, found := CreateContainerMetadataColumnFamily(refs, create, seed);
        if made == Success { MetadataAdded(k, before, disk.cfs, registry.log); }
      }
      if MetadataContainers !in found {
        if world.mode.Booting? {
          if Inv(start) { InRuns(); }
          AdvanceLoad(read);
        }
        return ContainersInternalMetadataLookupFailed;
      }
      if Inv(start) { InRuns(); }
      AdvanceLoad(read);
      status := LoadRecorded(found, registry, read);
    }

    ghost method AdvanceStart()
      requires Valid() && world.mode.Down? && ApprovedAfter(k, disk, approved, 0)
      modifies this`world, this`acts
      ensures OpensNext(0)
    {
      hide Core, Ownership;
      Advance(StartBoot);
    }

    /** Open the metadata partition, then the others. */
    method OpenDatabases(calls: seq<Call>) returns (status: Status, refs: map<Name, Ref>, registry: Registry)
      requires Valid() && k > 0 && world.mode.Down? && ApprovedAfter(k, disk, approved, 0) && |calls| == k + 1
      modifies this
      ensures Valid() && start == old(start) && |old(disk.cfs)| == k + 1
      ensures status == FirstFailure(calls)
      ensures status != Success ==> world.mode.Down?
      ensures fresh(registry) && registry.Valid() && registry.k == k
      ensures status == Success ==>
        && ApprovedAfter(k, disk, approved, k + 1) && refs == HandlesOf(disk.cfs, k)
        && LogSound(disk.cfs, registry.log) && Registered(disk.cfs, registry.log, k, {})
        && disk.cfs[k] == OpenedDisk(old(disk), k).cfs[k]
        && world.mode == Booting(if |disk.cfs[k]| == 1 then CreatingMetadata else Loading)
    {
      hide Path, ApprovedAfter, LogSound, Registered, Registry.Valid;
      registry := new Registry(k);
      AdvanceStart();
      status, refs := OpenNext(k, calls[0], 0);
      if status != Success {
        return;
      }
      status, registry := BootStructuredDataPartitions(calls[1..]);
    }

    /**
      * From any disk on which databases have their "default": boot succeeds if and only if the calls it
      * makes to the engines do and the machine can load what they leave; the answer is that of the first
      * call that failed. Then the index is what the machine's session starts with, the engines have
      * approved what it says, and what the program did is a path of the machine. On a disk that any point
      * of any run has left behind, the calls alone decide.
      */
    method BootstrapStorageState(calls: seq<Call>, create: bool, seed: bool, read: bool) returns (status: Status)
      requires Valid() && k > 0 && world.mode.Down? && ApprovedAfter(k, disk, approved, 0) && Empty(index)
      requires |calls| == k + 1
      requires disk.cfs[k] == map[] || Default in disk.cfs[k]
      modifies this, index, TablesOf(index.buckets)
      ensures Valid() && start == old(start) && |old(disk.cfs)| == k + 1
      ensures FirstFailure(calls) != Success ==> status == FirstFailure(calls)
      ensures status == Success <==>
        && FirstFailure(calls) == Success && (old(FirstStart(k, disk)) ==> create && seed) && read && Loadable(k, disk)
      ensures Inv(start) ==>
        && Inv(world)
        && status ==
          if FirstFailure(calls) != Success then FirstFailure(calls)
          else if MetadataContainers !in old(disk.cfs[k]) && !(create && seed) then
            ContainersInternalMetadataLookupFailed
          else if !read then ObjectRetrievalFailed
          else Success
      ensures status != Success ==> world.mode.Down?
      ensures status == Success ==>
        && world.mode == Up(FirstSession(k, disk)) && approved == Approvals(k, disk)
        && index.Valid() && View(index) == LoadedContainers(k, disk)
    {
      Elsewhere();
      if Inv(start) { InRuns(); }
      assert |OpenedDisk(disk, k).cfs| == k + 1 && Default in OpenedDisk(disk, k).cfs[k];
      hide OpenedDisk, Valid, Empty, FirstSession, LoadedContainers, Approvals, ApprovedAfter, LogSound, Registered,
        Registry.Valid, View, Loadable, Inv, FirstFailure, FillFault, HandlesOf, Engines;
      var refs, registry;
      status, refs, registry := OpenDatabases(calls);
      if status == Success {
        status := LoadContainerIndex(refs, registry, create, seed, read);
      }
      if Inv(start) { InRuns(); }
    }

    /** From a disk of a run, all this is part of one. */
    lemma InRuns()
      requires Valid() && Inv(start)
      ensures Inv(world)
      ensures FirstStart(k, disk) <==> MetadataContainers !in disk.cfs[k]
      ensures world.mode == Booting(Loading) ==> Loadable(k, disk)
    {
      PathKeeps(start, acts, world);
      FirstStartIff(k, disk);
      if world.mode == Booting(Loading) { Boot.ReachableIsLoadable(k, disk); }
    }
  }

  lemma OneFamily(k: nat, d: Disk)
    requires |d.cfs| == k + 1 && Default in d.cfs[k]
    ensures |HandlesOf(d.cfs, k)| == |d.cfs[k]|
    ensures |d.cfs[k]| == 1 ==> MetadataContainers !in d.cfs[k]
    ensures Loadable(k, d) ==> HasRecords(k, d)
  {
    assert HandlesOf(d.cfs, k).Keys == d.cfs[k].Keys;
    SameSize(HandlesOf(d.cfs, k), d.cfs[k]);
    if |d.cfs[k]| == 1 {
      assert {Default} <= d.cfs[k].Keys && |d.cfs[k].Keys| == 1;
      if MetadataContainers in d.cfs[k] {
        OneOnly(d.cfs[k].Keys, Default, MetadataContainers);
      }
    }
  }

  lemma OneOnly(names: set<Name>, a: Name, b: Name)
    requires |names| == 1 && a in names && b in names
    ensures a == b
  {
    assert |names - {a}| == 0;
    assert b !in names - {a};
  }

  lemma SameSize<K, V, W>(a: map<K, V>, b: map<K, W>)
    requires a.Keys == b.Keys
    ensures |a| == |b|
  {
    assert |a| == |a.Keys| && |b| == |b.Keys|;
  }

  /** A new family on the metadata partition is none of the registry's. */
  lemma MetadataAdded(k: nat, before: Families, after: Families, log: seq<Registration>)
    requires |before| == k + 1 == |after| && LogSound(before, log) && Registered(before, log, k, {})
    requires forall i | 0 <= i < k :: after[i] == before[i]
    ensures LogSound(after, log) && Registered(after, log, k, {})
  {
    forall j | 0 <= j < |log| ensures OnDisk(after, log[j].ref.value) {
      assert Accepted(log, log[j].name, log[j].slot);
    }
  }

  lemma PartitionRegistered(cfs: Families, log: seq<Registration>, i: nat, names: set<Name>)
    requires i < |cfs| && Registered(cfs, log, i, names) && names == cfs[i].Keys
    ensures Registered(cfs, log, i + 1, {})
  {
  }

  lemma NothingYet(cfs: Families)
    ensures LogSound(cfs, []) && Registered(cfs, [], 0, {})
  {
  }
}
