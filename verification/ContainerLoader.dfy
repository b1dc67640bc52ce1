/** How boot fills the container index from the metadata, the records and what was found on the data partitions. */
module ContainerLoader {
  import opened Types
  import opened Lifecycle
  import opened ConcurrentMap
  import opened ContainerIndex
  import opened ContainerRegistry

  // ---------------------------------------------------------------- validation of loaded references

  /** An instance as the validation sees it: its collocation, the engine baked into it and its reference. */
  datatype EngineSlot = EngineSlot(collocation: nat, engine: nat, ref: Option<Ref>)

  /** The first fault a comparison with the engines of the data partitions, from the p-th on, finds. */
  function EngineFault(s: EngineSlot, r: Ref, engines: seq<set<Ref>>, p: nat): Status
    requires p <= |engines|
    decreases |engines| - p
  {
    if p == |engines| then Success
    else if p == s.collocation then
      if r !in engines[p] then StorageEngineReferenceNotApproved
      else if s.engine != p then UnexpectedStorageEngine
      else EngineFault(s, r, engines, p + 1)
    else if r in engines[p] then StorageEngineReferenceUnexpectedlyApproved
    else EngineFault(s, r, engines, p + 1)
  }

  function SlotFault(deleted: bool, s: EngineSlot, engines: seq<set<Ref>>): Status {
    if s.ref.Some? then EngineFault(s, s.ref.value, engines, 0)
    else if deleted then Success
    else NullEngineReferenceNonOrphanedContainer
  }

  function ContainerFault(deleted: bool, slots: seq<EngineSlot>, engines: seq<set<Ref>>): Status {
    if slots == [] then Success
    else if SlotFault(deleted, slots[0], engines) != Success then SlotFault(deleted, slots[0], engines)
    else ContainerFault(deleted, slots[1..], engines)
  }

  /** A null slot belongs to a soft-deleted container; a reference is approved by the engine of its own
      partition, which is the engine of the instance, and by no other. */
  predicate SlotSound(deleted: bool, s: EngineSlot, engines: seq<set<Ref>>) {
    if s.ref.None? then deleted
    else forall p | 0 <= p < |engines| :: EngineSound(s, s.ref.value, engines, p)
  }

  predicate EngineSound(s: EngineSlot, r: Ref, engines: seq<set<Ref>>, p: nat)
    requires p < |engines|
  {
    (r in engines[p] <==> p == s.collocation) && (p == s.collocation ==> s.engine == p)
  }

  lemma {:induction false} EngineFaultIff(s: EngineSlot, r: Ref, engines: seq<set<Ref>>, p: nat)
    requires p <= |engines|
    ensures EngineFault(s, r, engines, p) == Success <==>
      forall q | p <= q < |engines| :: EngineSound(s, r, engines, q)
    decreases |engines| - p
  {
    if p < |engines| {
      var here := EngineSound(s, r, engines, p);
      EngineFaultIff(s, r, engines, p + 1);
    }
  }

  lemma SlotFaultIff(deleted: bool, s: EngineSlot, engines: seq<set<Ref>>)
    ensures SlotFault(deleted, s, engines) == Success <==> SlotSound(deleted, s, engines)
  {
    if s.ref.Some? { EngineFaultIff(s, s.ref.value, engines, 0); }
  }

  /** The validation of a container succeeds if and only if every one of its slots is sound. */
  lemma {:induction false} ContainerFaultIff(deleted: bool, slots: seq<EngineSlot>, engines: seq<set<Ref>>)
    ensures ContainerFault(deleted, slots, engines) == Success <==> forall j | 0 <= j < |slots| ::
      SlotSound(deleted, slots[j], engines)
  {
    if slots != [] {
      SlotFaultIff(deleted, slots[0], engines);
      ContainerFaultIff(deleted, slots[1..], engines);
      assert slots == [slots[0]] + slots[1..];
    }
  }

  lemma {:induction false} EngineFaultIs(s: EngineSlot, r: Ref, engines: seq<set<Ref>>, p: nat, q: nat)
    requires p <= q < |engines| && !EngineSound(s, r, engines, q)
    requires forall i | p <= i < q :: EngineSound(s, r, engines, i)
    ensures EngineFault(s, r, engines, p) ==
      if q != s.collocation then StorageEngineReferenceUnexpectedlyApproved
      else if r !in engines[q] then StorageEngineReferenceNotApproved
      else UnexpectedStorageEngine
    decreases q - p
  {
    if p < q {
      assert EngineSound(s, r, engines, p);
      EngineFaultIs(s, r, engines, p + 1, q);
    }
  }

  /** If one is not, the answer is for the first such slot j: it is null, or q is the first engine that should not
      accept its reference and does, or should and does not, or should and is not the instance's. */
  lemma {:induction false} ContainerFaultIs(deleted: bool, slots: seq<EngineSlot>, engines: seq<set<Ref>>, j: nat,
                                            q: nat)
    requires j < |slots| && !SlotSound(deleted, slots[j], engines)
    requires forall i | 0 <= i < j :: SlotSound(deleted, slots[i], engines)
    requires slots[j].ref.Some? ==>
      && q < |engines| && !EngineSound(slots[j], slots[j].ref.value, engines, q)
      && forall i | 0 <= i < q :: EngineSound(slots[j], slots[j].ref.value, engines, i)
    ensures ContainerFault(deleted, slots, engines) ==
      if slots[j].ref.None? then NullEngineReferenceNonOrphanedContainer
      else if q != slots[j].collocation then StorageEngineReferenceUnexpectedlyApproved
      else if slots[j].ref.value !in engines[q] then StorageEngineReferenceNotApproved
      else UnexpectedStorageEngine
    decreases j
  {
    SlotFaultIff(deleted, slots[0], engines);
    if j == 0 {
      if slots[0].ref.Some? { EngineFaultIs(slots[0], slots[0].ref.value, engines, 0, q); }
    } else {
      assert SlotSound(deleted, slots[0], engines);
      ContainerFaultIs(deleted, slots[1..], engines, j - 1, q);
    }
  }

  method ValidateContainerEngineReferences(deleted: bool, slots: seq<EngineSlot>, engines: seq<set<Ref>>)
    returns (status: Status)
    ensures status == ContainerFault(deleted, slots, engines)
  {
    var j := 0;
    assert slots[0..] == slots;
    while j < |slots|
      invariant j <= |slots| && ContainerFault(deleted, slots, engines) == ContainerFault(deleted, slots[j..], engines)
    {
      var s := slots[j];
      assert slots[j..][0] == s && slots[j..][1..] == slots[j + 1..];
      if s.ref == None {
        if !deleted {
          return NullEngineReferenceNonOrphanedContainer;
        }
      } else {
        var p := 0;
        while p < |engines|
          invariant p <= |engines| && SlotFault(deleted, s, engines) == EngineFault(s, s.ref.value, engines, p)
        {
          if p == s.collocation {
            if s.ref.value !in engines[p] {
              return StorageEngineReferenceNotApproved;
            }
            if s.engine != p {
              return UnexpectedStorageEngine;
            }
          } else if s.ref.value in engines[p] {
            return StorageEngineReferenceUnexpectedlyApproved;
          }
          p := p + 1;
        }
      }
      j := j + 1;
    }
    return Success;
  }

  // ---------------------------------------------------------------- the index as values

  function Value(c: StoredContainer): Container
    reads c
  {
    Container(c.name, c.instances, c.deleted)
  }

  ghost function Values(m: map<Name, StoredContainer>): map<Name, Container>
    reads m.Values
  {
    map n | n in m :: Value(m[n])
  }

  ghost function View(index: Index): map<Name, Container>
    reads TablesOf(index.buckets), index.Contents().Values
  {
    Values(index.Contents())
  }

  /** A container is no part of the index's own structure. */
  lemma Elsewhere(index: Index, c: StoredContainer)
    ensures c as object != index && c as object !in TablesOf(index.buckets)
  {
  }

  lemma InTable(table: ConcurrentFlatMap<Name, StoredContainer>, n: Name)
    requires table.Valid() && n in table.Contents()
    ensures allocated(table.Contents()[n])
  {
    FlatLookup(table.hash, table.shards, n);
    var c := table.shards[ConcurrentMap.Route(table.hash, |table.shards|, n)][n];
  }

  lemma InIndex(index: Index, n: Name)
    requires index.Valid() && n in index.Contents()
    ensures allocated(index.Contents()[n]) && index.Contents()[n].name == n
  {
    IndexedLookup(index.hash, MapsOf(index.buckets), index.count, n);
    var i := ConcurrentMap.Route(index.hash, |index.buckets|, n);
    assert MapsOf(index.buckets)[i] == index.buckets[i].table.Contents();
    InTable(index.buckets[i].table, n);
  }

  lemma AllElsewhere(index: Index)
    requires index.Valid()
    ensures forall n | n in index.Contents() ::
      var c := index.Contents()[n];
        c.name == n && c as object != index && c as object !in TablesOf(index.buckets) && allocated(c)
  {
    forall n | n in index.Contents()
      ensures var c := index.Contents()[n];
        c.name == n && c as object != index && c as object !in TablesOf(index.buckets) && allocated(c)
    {
      InIndex(index, n);
      Elsewhere(index, index.Contents()[n]);
    }
  }

  method InsertValue(index: Index, name: Name, instances: seq<Instance>) returns (status: Status)
    requires index.Valid()
    modifies index, TablesOf(index.buckets)
    ensures index.Valid()
    ensures status == if name in old(View(index)) then ContainerInsertionCollision else Success
    ensures View(index) ==
      if status == Success then old(View(index))[name := Container(name, instances, false)] else old(View(index))
    ensures status == Success ==> name in index.Contents() && fresh(index.Contents()[name])
  {
    hide Indexed, Flat, MapsOf, Separate;
    AllElsewhere(index);
    ghost var contents, before := index.Contents(), View(index);
    assert forall n | n in contents :: before[n] == Value(contents[n]);
    status := index.InsertContainer(name, instances);
    forall n | n in contents ensures Value(contents[n]) == before[n] {
    }
    if status == Success {
      assert Values(index.Contents()) == before[name := Value(index.Contents()[name])];
    } else {
      assert Values(index.Contents()) == before;
    }
  }

  method MarkOrphan(index: Index, name: Name)
    requires index.Valid() && name in index.Contents()
    modifies index.Contents()[name]
    ensures index.Valid() && View(index) == old(View(index))[name := old(View(index))[name].(deleted := true)]
  {
    hide Indexed, Flat, MapsOf, Separate;
    AllElsewhere(index);
    ghost var contents, before := index.Contents(), View(index);
    assert forall n | n in contents :: before[n] == Value(contents[n]);
    var container := index.GetContainer(name);
    container.MarkAsDeleted();
    forall n | n in contents ensures Value(contents[n]) ==
      if n == name then before[n].(deleted := true) else before[n] {
    }
    assert Values(index.Contents()) == before[name := before[name].(deleted := true)];
  }

  /** Insert a container and, if it is an orphan, mark it deleted. */
  method IndexContainer(index: Index, name: Name, instances: seq<Instance>, orphan: bool) returns (status: Status)
    requires index.Valid()
    modifies index, TablesOf(index.buckets)
    ensures index.Valid()
    ensures status == if name in old(View(index)) then ContainerInsertionCollision else Success
    ensures View(index) ==
      if status == Success then old(View(index))[name := Container(name, instances, orphan)] else old(View(index))
  {
    hide Indexed, Flat, MapsOf, Separate, Values;
    status := InsertValue(index, name, instances);
    if status == Success && orphan {
      MarkOrphan(index, name);
    }
  }

  // ---------------------------------------------------------------- the passes

  /** The family a metadata entry stands for. */
  function FamilyIn(refs: map<Name, Ref>, n: Name): (m: Name)
    requires exists m | m in refs :: IndexedAs(m) == n
    ensures m in refs && IndexedAs(m) == n
  {
    if n == MetadataDefault && Default in refs then Default else n
  }

  /** The containers of the metadata partition, under their names in the index. */
  function MetadataEntries(k: nat, refs: map<Name, Ref>): map<Name, Container> {
    map n | n in (set m | m in refs :: IndexedAs(m)) ::
      Container(n, [Instance(k, Some(refs[FamilyIn(refs, n)]))], false)
  }

  /** What the registry has for a name, as instances. */
  function LoadedSlots(k: nat, log: seq<Registration>, n: Name): (slots: seq<Instance>)
    ensures |slots| == k && forall i | 0 <= i < k :: slots[i] == Instance(i, SlotOf(log, n, i))
  {
    seq(k, i requires 0 <= i < k => Instance(i, SlotOf(log, n, i)))
  }

  function RegisteredEntries(k: nat, log: seq<Registration>, names: set<Name>, orphans: bool): map<Name, Container> {
    map n | n in names :: Container(n, LoadedSlots(k, log, n), orphans)
  }

  predicate NamesDistinct(refs: map<Name, Ref>) {
    forall m, n | m in refs && n in refs && m != n :: IndexedAs(m) != IndexedAs(n)
  }

  /** The names of the entries and what they stand for, with one family more. */
  lemma FamilyMore(k: nat, refs: map<Name, Ref>, m: Name, r: Ref, n: Name)
    requires m !in refs && IndexedAs(m) !in MetadataEntries(k, refs)
    ensures n in MetadataEntries(k, refs[m := r]) <==> n == IndexedAs(m) || n in MetadataEntries(k, refs)
    ensures n in MetadataEntries(k, refs[m := r]) ==>
      MetadataEntries(k, refs[m := r])[n] ==
        if n == IndexedAs(m) then Container(n, [Instance(k, Some(r))], false) else MetadataEntries(k, refs)[n]
  {
    var more := refs[m := r];
    EntryNames(k, refs);
    EntryNames(k, more);
    assert m in more;
    if n in MetadataEntries(k, refs) {
      var f :| f in refs && IndexedAs(f) == n;
      assert f in more;
    }
    if n in MetadataEntries(k, more) { EntryAt(k, more, n); }
    if n in MetadataEntries(k, refs) { EntryAt(k, refs, n); }
  }

  lemma MetadataEntryMore(k: nat, refs: map<Name, Ref>, m: Name, r: Ref)
    requires m !in refs && IndexedAs(m) !in MetadataEntries(k, refs)
    ensures MetadataEntries(k, refs[m := r]) ==
      MetadataEntries(k, refs)[IndexedAs(m) := Container(IndexedAs(m), [Instance(k, Some(r))], false)]
  {
    hide MetadataEntries, IndexedAs;
    forall n
      ensures n in MetadataEntries(k, refs[m := r]) <==> n == IndexedAs(m) || n in MetadataEntries(k, refs)
      ensures n in MetadataEntries(k, refs[m := r]) ==>
        MetadataEntries(k, refs[m := r])[n] ==
        if n == IndexedAs(m) then Container(n, [Instance(k, Some(r))], false) else MetadataEntries(k, refs)[n]
    {
      FamilyMore(k, refs, m, r, n);
    }
  }

  lemma EntryAt(k: nat, refs: map<Name, Ref>, n: Name)
    requires n in MetadataEntries(k, refs)
    ensures exists f | f in refs :: IndexedAs(f) == n
    ensures MetadataEntries(k, refs)[n] == Container(n, [Instance(k, Some(refs[FamilyIn(refs, n)]))], false)
  {
    EntryNames(k, refs);
  }

  method IndexContainersFromMetadataPartition(index: Index, k: nat, refs: map<Name, Ref>) returns (status: Status)
    requires index.Valid() && View(index) == map[]
    modifies index, TablesOf(index.buckets)
    ensures index.Valid()
    ensures status == if NamesDistinct(refs) then Success else ContainerInsertionCollision
    ensures status == Success ==> View(index) == MetadataEntries(k, refs)
  {
    hide Indexed, Flat, MapsOf, Separate, Values, MetadataEntries;
    var todo := refs.Keys;
    ghost var done: map<Name, Ref> := map[];
    assert MetadataEntries(k, map[]) == map[] by { NoEntries(k); }
    while todo != {}
      invariant todo <= refs.Keys && done == refs - todo && index.Valid()
      invariant NamesDistinct(done) && View(index) == MetadataEntries(k, done)
      decreases |todo|
    {
      var m :| m in todo;
      EntryNames(k, done);
      status := IndexContainer(index, IndexedAs(m), [Instance(k, Some(refs[m]))], false);
      if status != Success {
        return;
      }
      MetadataEntryMore(k, done, m, refs[m]);
      todo := todo - {m};
      done := done[m := refs[m]];
    }
    assert done == refs;
    return Success;
  }

  lemma NoEntries(k: nat)
    ensures MetadataEntries(k, map[]) == map[]
  {
  }

  lemma EntryNames(k: nat, refs: map<Name, Ref>)
    ensures forall n :: n in MetadataEntries(k, refs) <==> exists m | m in refs :: IndexedAs(m) == n
  {
  }

  method ConvertOrderedEngineReferences(slots: seq<Option<Ref>>) returns (instances: seq<Instance>)
    ensures |instances| == |slots| && forall i | 0 <= i < |slots| :: instances[i] == Instance(i, slots[i])
  {
    instances := [];
    for i := 0 to |slots|
      invariant |instances| == i && forall j | 0 <= j < i :: instances[j] == Instance(j, slots[j])
    {
      instances := instances + [Instance(i, slots[i])];
    }
  }

  /** A record whose container can be indexed. */
  predicate RecordSound(k: nat, log: seq<Registration>, taken: set<Name>, n: Name) {
    Knows(log, n) && Intact(log, k, n) && n !in taken
  }

  /** What indexing a record comes to: the first of three checks that fails. */
  function RecordStatus(k: nat, log: seq<Registration>, taken: set<Name>, n: Name): (status: Status)
    ensures status == Success <==> RecordSound(k, log, taken, n)
    ensures status == MissingContainerOnDataPartitions <==> !Knows(log, n)
    ensures status == InvalidNumberEngineReferences <==> Knows(log, n) && !Intact(log, k, n)
    ensures status == ContainerInsertionCollision <==> Knows(log, n) && Intact(log, k, n) && n in taken
  {
    if !Knows(log, n) then MissingContainerOnDataPartitions
    else if !Intact(log, k, n) then InvalidNumberEngineReferences
    else if n in taken then ContainerInsertionCollision
    else Success
  }

  /** The status is that of a record that cannot be indexed. */
  ghost predicate OfRecord(k: nat, log: seq<Registration>, taken: set<Name>, records: set<Name>, status: Status) {
    exists n :: n in records && RecordStatus(k, log, taken, n) == status != Success
  }

  lemma EntriesMore(base: map<Name, Container>, k: nat, log: seq<Registration>, names: set<Name>, n: Name,
                    orphans: bool)
    ensures base + RegisteredEntries(k, log, names + {n}, orphans)
         == (base + RegisteredEntries(k, log, names, orphans))[n := Container(n, LoadedSlots(k, log, n), orphans)]
  {
  }

  /** Nor is the registry part of the index. */
  lemma RegistryElsewhere(index: Index, registry: Registry)
    ensures registry as object != index && registry as object !in TablesOf(index.buckets)
  {
  }

  /** A container with a record: on every partition, and not indexed yet. */
  method IndexRecorded(index: Index, registry: Registry, n: Name) returns (status: Status)
    requires index.Valid() && registry.Valid()
    modifies index, TablesOf(index.buckets)
    ensures index.Valid() && registry.Valid()
    ensures status == RecordStatus(registry.k, registry.log, old(View(index)).Keys, n)
    ensures status == Success ==>
      View(index) == old(View(index))[n := Container(n, LoadedSlots(registry.k, registry.log, n), false)]
  {
    hide Indexed, Flat, MapsOf, Separate, Values, Intact, Knows;
    AllElsewhere(index);
    ghost var before := View(index);
    var slots := registry.GetReferences(n);
    if slots == None {
      return MissingContainerOnDataPartitions;
    }
    status := registry.ExecuteIntegrityValidation(n);
    if status != Success {
      return;
    }
    var instances := ConvertOrderedEngineReferences(slots.value);
    assert instances == LoadedSlots(registry.k, registry.log, n);
    assert View(index) == before;
    status := IndexContainer(index, n, instances, false);
  }

  method IndexContainersFromStructuredDataPartitions(index: Index, registry: Registry, records: set<Name>)
    returns (status: Status)
    requires index.Valid() && registry.Valid()
    modifies index, TablesOf(index.buckets)
    ensures index.Valid() && registry.Valid()
    ensures status == Success <==> forall n | n in records ::
      RecordSound(registry.k, registry.log, old(View(index)).Keys, n)
    ensures status == Success ==>
      View(index) == old(View(index)) + RegisteredEntries(registry.k, registry.log, records, false)
    ensures status != Success ==> OfRecord(registry.k, registry.log, old(View(index)).Keys, records, status)
  {
    RegistryElsewhere(index, registry);
    hide Index.Valid, Registry.Valid, View, RegisteredEntries, RecordSound, RecordStatus, LoadedSlots, TablesOf;
    ghost var base := View(index);
    ghost var k, log := registry.k, registry.log;
    var todo := records;
    ghost var done: set<Name> := {};
    NothingRegistered(k, log, false);
    while todo != {}
      invariant index.Valid() && registry.Valid() && registry.log == log
      invariant done + todo == records && done !! todo
      invariant forall n | n in done :: RecordSound(k, log, base.Keys, n)
      invariant View(index) == base + RegisteredEntries(k, log, done, false)
      decreases |todo|
    {
      var n :| n in todo;
      NextRecord(base, k, log, done, n);
      status := IndexRecorded(index, registry, n);
      if status != Success {
        return;
      }
      done, todo := done + {n}, todo - {n};
    }
    assert done == records;
    return Success;
  }

  /** With the records of other names indexed, a name is sound and free as it was before them. */
  lemma NextRecord(base: map<Name, Container>, k: nat, log: seq<Registration>, done: set<Name>, n: Name)
    requires n !in done
    ensures RecordStatus(k, log, (base + RegisteredEntries(k, log, done, false)).Keys, n) ==
      RecordStatus(k, log, base.Keys, n)
    ensures RecordStatus(k, log, base.Keys, n) == Success <==> RecordSound(k, log, base.Keys, n)
    ensures base + RegisteredEntries(k, log, done + {n}, false)
         == (base + RegisteredEntries(k, log, done, false))[n := Container(n, LoadedSlots(k, log, n), false)]
  {
    RegisteredNames(k, log, done, false);
    EntriesMore(base, k, log, done, n, false);
  }

  lemma NothingRegistered(k: nat, log: seq<Registration>, orphans: bool)
    ensures RegisteredEntries(k, log, {}, orphans) == map[]
  {
  }

  lemma RegisteredNames(k: nat, log: seq<Registration>, names: set<Name>, orphans: bool)
    ensures RegisteredEntries(k, log, names, orphans).Keys == names
  {
  }

  /** A container found on data partitions without a record. */
  method IndexOrphan(index: Index, registry: Registry, n: Name) returns (status: Status)
    requires index.Valid() && registry.Valid() && n in registry.references
    modifies index, TablesOf(index.buckets)
    ensures index.Valid() && registry.Valid()
    ensures status == if n in old(View(index)) then ContainerInsertionCollision else Success
    ensures status == Success ==>
      View(index) == old(View(index))[n := Container(n, LoadedSlots(registry.k, registry.log, n), true)]
  {
    hide Indexed, Flat, MapsOf, Separate, Values, Knows;
    AllElsewhere(index);
    ghost var before := View(index);
    var instances := ConvertOrderedEngineReferences(registry.references[n]);
    assert instances == LoadedSlots(registry.k, registry.log, n);
    assert View(index) == before;
    status := IndexContainer(index, n, instances, true);
  }

  method ScanAndIndexOrphanedContainers(index: Index, registry: Registry, records: set<Name>) returns (status: Status)
    requires index.Valid() && registry.Valid()
    modifies index, TablesOf(index.buckets)
    ensures index.Valid() && registry.Valid()
    ensures status ==
      if registry.references.Keys - records !! old(View(index)).Keys then Success else ContainerInsertionCollision
    ensures status == Success ==>
      View(index) ==
        old(View(index)) + RegisteredEntries(registry.k, registry.log, registry.references.Keys - records, true)
  {
    RegistryElsewhere(index, registry);
    hide Index.Valid, Registry.Valid, View, RegisteredEntries, LoadedSlots, TablesOf;
    ghost var base := View(index);
    ghost var k, log := registry.k, registry.log;
    var names := registry.references.Keys;
    var todo := names;
    ghost var done: set<Name> := {};
    NothingRegistered(k, log, true);
    while todo != {}
      invariant names == registry.references.Keys && index.Valid() && registry.Valid() && registry.log == log
      invariant todo <= names && done <= names - records && done !! todo && names - records <= done + todo
      invariant done !! base.Keys && View(index) == base + RegisteredEntries(k, log, done, true)
      decreases |todo|
    {
      var n :| n in todo;
      if n !in records {
        RegisteredNames(k, log, done, true);
        EntriesMore(base, k, log, done, n, true);
        status := IndexOrphan(index, registry, n);
        if status != Success {
          assert n in names - records && n in base.Keys;
          return;
        }
        done := done + {n};
      }
      todo := todo - {n};
    }
    assert done == names - records;
    return Success;
  }

  function EngineSlots(instances: seq<Instance>): (slots: seq<EngineSlot>)
    ensures |slots| == |instances| && forall j | 0 <= j < |slots| ::
      slots[j] == EngineSlot(instances[j].part, instances[j].part, instances[j].ref)
  {
    seq(|instances|, j requires 0 <= j < |instances| =>
      EngineSlot(instances[j].part, instances[j].part, instances[j].ref))
  }

  /** What the validation of the container says. */
  function Fault(c: Container, engines: seq<set<Ref>>): Status {
    ContainerFault(c.deleted, EngineSlots(c.instances), engines)
  }

  predicate ContainerSound(c: Container, engines: seq<set<Ref>>) {
    Fault(c, engines) == Success
  }

  /** The status is that of a container that is not sound. */
  ghost predicate OfContainer(view: map<Name, Container>, engines: seq<set<Ref>>, status: Status) {
    exists n :: n in view && Fault(view[n], engines) == status != Success
  }

  lemma TablesAllocated(index: Index)
    ensures forall o | o in TablesOf(index.buckets) :: allocated(o)
  {
  }

  /** The containers of one bucket. */
  method ValidateBucket(index: Index, i: nat, engines: seq<set<Ref>>) returns (status: Status)
    requires index.Valid() && i < |index.buckets|
    ensures index.Valid()
    ensures status == Success <==> forall n | n in MapsOf(index.buckets)[i] ::
      ContainerSound(Value(MapsOf(index.buckets)[i][n]), engines)
    ensures status != Success ==> exists n ::
      n in MapsOf(index.buckets)[i] && Fault(Value(MapsOf(index.buckets)[i][n]), engines) == status
  {
    hide Indexed, ContainerFault;
    ghost var maps := MapsOf(index.buckets);
    TablesAllocated(index);
    var containers := index.GetAllContainersFromBucket(i);
    ghost var m := maps[i];
    assert MapsOf(index.buckets) == maps && index.Valid();
    for j := 0 to |containers|
      invariant index.Valid() && MapsOf(index.buckets) == maps
      invariant forall a | 0 <= a < j :: ContainerSound(Value(containers[a]), engines)
    {
      TablesAllocated(index);
      status := ValidateContainerEngineReferences(containers[j].deleted, EngineSlots(containers[j].instances), engines);
      assert index.Valid() && MapsOf(index.buckets) == maps;
      if status != Success {
        assert !ContainerSound(Value(containers[j]), engines) && m[containers[j].name] == containers[j];
        return;
      }
    }
    forall n | n in m ensures ContainerSound(Value(m[n]), engines) {
      var a :| 0 <= a < |containers| && containers[a] == m[n];
    }
    return Success;
  }

  method ValidateLoadedEngineReferences(index: Index, engines: seq<set<Ref>>) returns (status: Status)
    requires index.Valid()
    ensures index.Valid() && View(index) == old(View(index))
    ensures status == Success <==> forall n | n in View(index) :: ContainerSound(View(index)[n], engines)
    ensures status != Success ==> OfContainer(View(index), engines, status)
  {
    hide Indexed, ContainerFault, Fault, ContainerSound, Value;
    AllElsewhere(index);
    ghost var maps, view := MapsOf(index.buckets), View(index);
    for i := 0 to |index.buckets|
      invariant index.Valid() && MapsOf(index.buckets) == maps && View(index) == view
      invariant forall b, n | 0 <= b < i && n in maps[b] :: n in view && ContainerSound(view[n], engines)
    {
      AllElsewhere(index);
      TablesAllocated(index);
      status := ValidateBucket(index, i, engines);
      assert index.Valid() && MapsOf(index.buckets) == maps && View(index) == view;
      BucketView(index, i);
      if status != Success {
        return;
      }
    }
    forall n | n in view ensures ContainerSound(view[n], engines) {
      IndexedLookup(index.hash, maps, index.count, n);
    }
    return Success;
  }

  lemma BucketView(index: Index, i: nat)
    requires index.Valid() && i < |index.buckets|
    ensures forall n | n in MapsOf(index.buckets)[i] ::
      n in View(index) && View(index)[n] == Value(MapsOf(index.buckets)[i][n])
  {
    var maps := MapsOf(index.buckets);
    forall n | n in maps[i] ensures n in View(index) && View(index)[n] == Value(maps[i][n]) {
      IndexedLookup(index.hash, maps, index.count, n);
      assert ConcurrentMap.Route(index.hash, |maps|, n) == i;
    }
  }

  /** What the index holds in the end. */
  function Filled(k: nat, refs: map<Name, Ref>, log: seq<Registration>, names: set<Name>,
                  records: set<Name>): map<Name, Container> {
    MetadataEntries(k, refs)
      + RegisteredEntries(k, log, records, false) + RegisteredEntries(k, log, names - records, true)
  }

  /** What the passes and the final validation insist on. */
  predicate Accepts(k: nat, refs: map<Name, Ref>, log: seq<Registration>, names: set<Name>, records: set<Name>,
                    engines: seq<set<Ref>>) {
    && NamesDistinct(refs)
    && (forall n | n in records :: RecordSound(k, log, MetadataEntries(k, refs).Keys, n))
    && names - records !! MetadataEntries(k, refs).Keys
    && forall n | n in Filled(k, refs, log, names, records) ::
      ContainerSound(Filled(k, refs, log, names, records)[n], engines)
  }

  /** What they say if they refuse: the first of them that fails decides, and within it some name that it fails for. */
  ghost predicate FillFault(k: nat, refs: map<Name, Ref>, log: seq<Registration>, names: set<Name>, records: set<Name>,
                            engines: seq<set<Ref>>, status: Status) {
    var base := MetadataEntries(k, refs);
    if !NamesDistinct(refs) then status == ContainerInsertionCollision
    else if exists n | n in records :: !RecordSound(k, log, base.Keys, n) then
      OfRecord(k, log, base.Keys, records, status)
    else if !(names - records !! base.Keys) then status == ContainerInsertionCollision
    else OfContainer(Filled(k, refs, log, names, records), engines, status)
  }

  ghost predicate Empty(index: Index)
    reads index, TablesOf(index.buckets)
  {
    index.Valid() && index.Contents() == map[]
  }

  lemma EmptyView(index: Index)
    requires Empty(index)
    ensures index.Valid() && View(index) == map[]
  {
  }

  /** The passes find between them what the loader insists on. */
  lemma PassesDecide(k: nat, refs: map<Name, Ref>, log: seq<Registration>, names: set<Name>, records: set<Name>,
                     engines: seq<set<Ref>>)
    ensures var base := MetadataEntries(k, refs);
      Accepts(k, refs, log, names, records, engines) <==>
      && NamesDistinct(refs)
      && (forall n | n in records :: RecordSound(k, log, base.Keys, n))
      && names - records !! (base + RegisteredEntries(k, log, records, false)).Keys
      && (forall n | n in Filled(k, refs, log, names, records) ::
            ContainerSound(Filled(k, refs, log, names, records)[n], engines))
  {
    RegisteredNames(k, log, records, false);
    hide RegisteredEntries, MetadataEntries, ContainerSound, RecordSound, NamesDistinct, Filled;
    var base := MetadataEntries(k, refs);
    assert (base + RegisteredEntries(k, log, records, false)).Keys == base.Keys + records;
  }

  /** The pass that fails after those before it have not. */
  lemma Refused(k: nat, refs: map<Name, Ref>, log: seq<Registration>, names: set<Name>, records: set<Name>,
                engines: seq<set<Ref>>, status: Status)
    requires var base := MetadataEntries(k, refs).Keys;
      if !NamesDistinct(refs) then status == ContainerInsertionCollision
      else
        || OfRecord(k, log, base, records, status)
        || (&& (forall n | n in records :: RecordSound(k, log, base, n))
            && if names - records !! base then OfContainer(Filled(k, refs, log, names, records), engines, status)
               else status == ContainerInsertionCollision)
    ensures FillFault(k, refs, log, names, records, engines, status)
  {
    hide MetadataEntries, NamesDistinct, OfContainer, Filled, Knows, ContainerRegistry.Intact;
  }

  /** From the metadata partition, the records and the registry to the index. */
  method FillContainerIndex(index: Index, k: nat, refs: map<Name, Ref>, registry: Registry, records: set<Name>,
                            engines: seq<set<Ref>>)
    returns (status: Status)
    requires Empty(index) && registry.Valid() && registry.k == k
    modifies index, TablesOf(index.buckets)
    ensures index.Valid() && registry.Valid()
    ensures status == Success <==> Accepts(k, refs, registry.log, registry.references.Keys, records, engines)
    ensures status == Success ==> View(index) == Filled(k, refs, registry.log, registry.references.Keys, records)
    ensures status != Success ==>
      FillFault(k, refs, registry.log, registry.references.Keys, records, engines, status)
  {
    EmptyView(index);
    RegistryElsewhere(index, registry);
    PassesDecide(k, refs, registry.log, registry.references.Keys, records, engines);
    hide Accepts, Index.Valid, Index.Contents, TablesOf, Registry.Valid, View, RegisteredEntries, MetadataEntries,
      ContainerSound, RecordSound, NamesDistinct, OfRecord, OfContainer, FillFault;
    ghost var log, names := registry.log, registry.references.Keys;
    status := IndexContainersFromMetadataPartition(index, k, refs);
    assert registry.log == log && registry.references.Keys == names && registry.Valid();
    if status != Success {
      Refused(k, refs, log, names, records, engines, status);
      return;
    }
    status := IndexContainersFromStructuredDataPartitions(index, registry, records);
    assert registry.log == log && registry.references.Keys == names;
    if status != Success {
      Refused(k, refs, log, names, records, engines, status);
      return;
    }
    status := ScanAndIndexOrphanedContainers(index, registry, records);
    assert registry.log == log && registry.references.Keys == names;
    if status != Success {
      Refused(k, refs, log, names, records, engines, status);
      return;
    }
    assert View(index) == Filled(k, refs, log, names, records);
    status := ValidateLoadedEngineReferences(index, engines);
    assert registry.log == log && registry.references.Keys == names;
    if status != Success {
      Refused(k, refs, log, names, records, engines, status);
    }
  }
}
