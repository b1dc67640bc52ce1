/** What every action keeps, on disk and in memory. */
module Invariant {
  import opened Types
  import opened Lifecycle

  // ---------------------------------------------------------------- disk

  /** Every name with a metadata record has its family on all data partitions. */
  ghost predicate CrashSafe(k: nat, d: Disk) {
    |d.cfs| == k + 1 && forall n | n in d.records :: OnEvery(k, d.cfs, n)
  }

  ghost predicate Opened(k: nat, cfs: Families) {
    |cfs| == k + 1 && forall i | 0 <= i <= k :: Default in cfs[i]
  }

  /** Families have numbers already used; no database but an empty one lacks "default"; the two
      reserved names are never families of a data partition, nor other names of the metadata one. */
  ghost predicate FamiliesOk(k: nat, cfs: Families, next: int) {
    && |cfs| == k + 1
    && (forall i, n | 0 <= i <= k && n in cfs[i] :: cfs[i][n] < next)
    && (forall i, n | 0 <= i <= k && n in cfs[i] :: Default in cfs[i])
    && (forall n | n in cfs[k] :: n == Default || n == MetadataContainers)
    && (forall i, n | 0 <= i < k && n in cfs[i] :: !Reserved(n))
    && (MetadataContainers in cfs[k] ==> Opened(k, cfs))
  }

  ghost predicate DiskOk(k: nat, d: Disk) {
    && k > 0
    && FamiliesOk(k, d.cfs, d.next)
    && CrashSafe(k, d)
    && (d.records != {} ==> MetadataContainers in d.cfs[k])
  }

  ghost predicate BootOk(k: nat, cfs: Families, records: set<Name>, pc: BootPc)
    requires |cfs| == k + 1
  {
    match pc
    case Opening(done) => done <= k && forall j | 0 <= j < done :: Default in cfs[BootOrder(k, j)]
    case CreatingMetadata => Opened(k, cfs) && MetadataContainers !in cfs[k]
    case SeedingMetadata => Opened(k, cfs) && MetadataContainers in cfs[k] && records == {}
    case Loading => Opened(k, cfs) && MetadataContainers in cfs[k]
  }

  // ---------------------------------------------------------------- names, index and the two threads

  type Index = map<Name, Cid>
  type Objects = map<Cid, Obj>

  ghost predicate Entry(index: Index, objs: Objects, c: Cid) {
    c.name in index && index[c.name] == c && c in objs
  }

  ghost predicate Live(index: Index, objs: Objects, n: Name) {
    n in index && index[n] in objs && !objs[index[n]].deleted
  }

  ghost predicate SoftDeleted(index: Index, objs: Objects, n: Name) {
    n in index && index[n] in objs && objs[index[n]].deleted
  }

  /** The slots of an indexed data container agree with the disk: whatever family of its name exists
      is its own, and if it is live, all of them exist. */
  ghost predicate EntryOk(k: nat, cfs: Families, n: Name, o: Obj) {
    && |cfs| == k + 1
    && |o.instances| == k
    && (forall i | 0 <= i < k && n in cfs[i] :: o.instances[i].ref == Some(Handle(cfs, i, n)))
    && (!o.deleted ==> OnEvery(k, cfs, n))
  }

  ghost predicate IndexOk(k: nat, cfs: Families, index: Index, objs: Objects) {
    && (forall n | n in index :: index[n].name == n && index[n] in objs)
    && (forall n | n in index && index[n] in objs && !Reserved(n) :: EntryOk(k, cfs, n, objs[index[n]]))
    && (forall c | c in objs && !objs[c].deleted :: Entry(index, objs, c))
    && Default in index
  }

  /** From slot `from` on, the families of n form a prefix. */
  ghost predicate NoGapFrom(k: nat, cfs: Families, n: Name, from: nat) {
    |cfs| == k + 1 && forall q, p | from <= q < p < k && n !in cfs[q] :: n !in cfs[p]
  }

  /** A name without an entry has families on the first partitions only: a creation makes them in order. */
  ghost predicate UnindexedOk(k: nat, cfs: Families, index: Index) {
    forall n | n !in index :: NoGapFrom(k, cfs, n, 0)
  }

  ghost predicate MetadataEntryOk(k: nat, cfs: Families, index: Index, objs: Objects, n: Name, family: Name) {
    && n in index && index[n] in objs
    && |cfs| == k + 1 && family in cfs[k]
    && objs[index[n]].instances == [Instance(k, Some(Handle(cfs, k, family)))]
  }

  ghost predicate MetadataEntriesOk(k: nat, cfs: Families, index: Index, objs: Objects) {
    && Live(index, objs, MetadataContainers)
    && MetadataEntryOk(k, cfs, index, objs, MetadataContainers, MetadataContainers)
    && MetadataEntryOk(k, cfs, index, objs, MetadataDefault, Default)
  }

  /** Between writing a record and indexing the container. */
  predicate Publishing(ser: Serializer, n: Name) {
    (ser.Approving? || ser.CheckingIndex? || ser.Inserting?) && ser.name == n
  }

  /** Between deleting a record and marking the container. */
  predicate Retiring(ser: Serializer, n: Name) {
    (ser.LookingUp? || ser.Marking?) && ser.name == n
  }

  /** Records and live data containers are the same names, but for the one in the serializer's hands. */
  ghost predicate RecordsOk(records: set<Name>, index: Index, objs: Objects, ser: Serializer) {
    && (forall n | n in records :: Live(index, objs, n) || Publishing(ser, n))
    && (forall n | Live(index, objs, n) && !Reserved(n) :: n in records || Retiring(ser, n))
    && (forall n | n in records :: !SoftDeleted(index, objs, n))
  }

  ghost predicate FreshRefs(k: nat, cfs: Families, n: Name, refs: seq<Ref>) {
    && |cfs| == k + 1
    && |refs| <= k
    && forall i | 0 <= i < |refs| :: n in cfs[i] && refs[i] == Handle(cfs, i, n)
  }

  ghost predicate SerializerOk(k: nat, cfs: Families, records: set<Name>, index: Index, objs: Objects,
                               ser: Serializer) {
    match ser
    case SerIdle => true
    case Creating(n, refs) => n !in index && n !in records && FreshRefs(k, cfs, n, refs)
    case Approving(n, refs, next) =>
      n !in index && n in records && |refs| == k && FreshRefs(k, cfs, n, refs) && next <= k
    case CheckingIndex(n, refs) => n !in index && n in records && |refs| == k && FreshRefs(k, cfs, n, refs)
    case Inserting(n, refs) => n !in index && n in records && |refs| == k && FreshRefs(k, cfs, n, refs)
    case CountingUp(n) => n in records
    case Removing(n) => Live(index, objs, n) && n != MetadataContainers
    case LookingUp(n) => Live(index, objs, n) && n !in records && n != MetadataContainers
    case Marking(n, c) =>
      n == c.name && Entry(index, objs, c) && !objs[c].deleted && n !in records && n != MetadataContainers
    case Replying(op, n, st) =>
      && st != ContainerInsertionCollision
      && (op == Create && st == Success ==> n in records)
      && (op == Remove && st == Success ==> n !in records)
  }

  /** The first `next` families of a container under collection are gone. */
  ghost predicate DroppedUpTo(k: nat, cfs: Families, index: Index, objs: Objects, c: Cid, next: nat) {
    && Entry(index, objs, c) && objs[c].deleted
    && |cfs| == k + 1
    && next <= |objs[c].instances|
    && (Reserved(c.name) ==> next == 0)
    && (forall i | 0 <= i < next && i < k :: c.name !in cfs[i])
  }

  ghost predicate CollectorOk(k: nat, cfs: Families, index: Index, objs: Objects, gc: Collector) {
    gc.Sweeping? ==>
      && (forall c | c in gc.todo :: c in gc.snap && Entry(index, objs, c))
      && (forall i, j | 0 <= i < j < |gc.todo| :: gc.todo[i] != gc.todo[j])
      && (gc.phase.Dropping? || gc.phase.CheckingEntry? || gc.phase.Erasing? ==>
            && gc.phase.cid in gc.snap && gc.phase.cid !in gc.todo
            && DroppedUpTo(k, cfs, index, objs, gc.phase.cid, if gc.phase.Dropping? then gc.phase.next else k)
            && (!gc.phase.Dropping? ==> !Reserved(gc.phase.cid.name)))
  }

  predicate CountOk(count: int, index: Index, ser: Serializer, gc: Collector) {
    count == |index| - (if ser.CountingUp? then 1 else 0) + (if gc.Sweeping? && gc.phase.CountingDown? then 1 else 0)
  }

  ghost predicate Core(k: nat, d: Disk, s: Session) {
    && DiskOk(k, d)
    && Opened(k, d.cfs)
    && IndexOk(k, d.cfs, s.index, s.objs)
    && UnindexedOk(k, d.cfs, s.index)
    && MetadataEntriesOk(k, d.cfs, s.index, s.objs)
    && RecordsOk(d.records, s.index, s.objs, s.ser)
    && SerializerOk(k, d.cfs, d.records, s.index, s.objs, s.ser)
    && CollectorOk(k, d.cfs, s.index, s.objs, s.gc)
    && CountOk(s.count, s.index, s.ser, s.gc)
  }

  // ---------------------------------------------------------------- handles

  /** Where an object keeps its handle for partition i: metadata containers have a single slot. */
  function SlotIndex(n: Name, i: nat): nat {
    if Reserved(n) then 0 else i
  }

  /** The object that took handle r still has it: its destructor has not come to that slot. */
  ghost predicate Owned(objs: Objects, owner: map<Ref, Cid>, r: Ref) {
    && r in owner && owner[r] in objs
    && var o, j := objs[owner[r]], SlotIndex(owner[r].name, r.part);
       o.closed <= j < |o.instances| && o.instances[j] == Instance(r.part, Some(r))
  }

  /** Approved by the serializer for a container it has not indexed yet. */
  predicate InWindow(ser: Serializer, r: Ref) {
    || (ser.Approving? && r.part < ser.next && r.part < |ser.refs| && ser.refs[r.part] == r)
    || ((ser.CheckingIndex? || ser.Inserting?) && r.part < |ser.refs| && ser.refs[r.part] == r)
  }

  predicate SlotOk(k: nat, next: int, c: Cid, j: nat, inst: Instance) {
    && inst.part == (if Reserved(c.name) then k else j)
    && (inst.ref.Some? ==>
          && inst.ref.value.part == inst.part
          && inst.ref.value.cf < next
          && inst.ref.value.name == (if c.name == MetadataDefault then Default else c.name))
  }

  ghost predicate ShapeOk(k: nat, next: int, c: Cid, o: Obj) {
    && o.closed <= |o.instances|
    && |o.instances| == (if Reserved(c.name) then 1 else k)
    && (forall j | 0 <= j < |o.instances| :: SlotOk(k, next, c, j, o.instances[j]))
  }

  ghost predicate ShapesOk(k: nat, next: int, objs: Objects, gens: nat) {
    forall c | c in objs :: c.gen < gens && ShapeOk(k, next, c, objs[c])
  }

  ghost predicate Intact(objs: Objects, c: Cid) {
    c in objs && objs[c].closed == 0
  }

  /** What somebody holds has not begun to be destroyed. */
  ghost predicate HeldIntact(objs: Objects, index: Index, gc: Collector, ser: Serializer, holds: map<nat, Hold>) {
    && (forall n | n in index :: Intact(objs, index[n]))
    && (gc.Sweeping? ==> forall c | c in gc.snap :: Intact(objs, c))
    && (ser.Marking? ==> Intact(objs, ser.cid))
    && (forall t | t in holds :: Intact(objs, holds[t].cid))
  }

  /** A slot's handle is its object's, and approved. */
  ghost predicate SlotApproved(k: nat, owner: map<Ref, Cid>, approved: seq<set<Ref>>, leaked: set<Ref>, c: Cid,
                               r: Ref) {
    && r in owner && owner[r] == c
    && r.part <= k && r.part < |approved| && r in approved[r.part]
    && r !in leaked
  }

  ghost predicate SlotsApproved(k: nat, objs: Objects, owner: map<Ref, Cid>, approved: seq<set<Ref>>,
                                leaked: set<Ref>) {
    forall c, j | c in objs && objs[c].closed <= j < |objs[c].instances| && objs[c].instances[j].ref.Some? ::
      SlotApproved(k, owner, approved, leaked, c, objs[c].instances[j].ref.value)
  }

  ghost predicate WindowOk(next: int, ser: Serializer, open: set<Ref>, leaked: set<Ref>, owner: map<Ref, Cid>,
                           approved: seq<set<Ref>>) {
    AtCreation(ser) ==>
      forall i | 0 <= i < |ser.refs| ::
        var r := ser.refs[i];
        && r.part == i && r.name == ser.name && r.cf < next
        && r in open && r !in leaked && r !in owner
        && (InWindow(ser, r) ==> i < |approved| && r in approved[i])
  }

  /** An engine approves only open handles of its own partition that some container object still has,
      that are about to be indexed, or whose close failed. */
  ghost predicate ApprovedOk(k: nat, approved: seq<set<Ref>>, open: set<Ref>, leaked: set<Ref>, ser: Serializer,
                             objs: Objects, owner: map<Ref, Cid>) {
    && |approved| == k + 1
    && (forall i, r | 0 <= i <= k && r in approved[i] ::
          r.part == i && r in open && (r in leaked || InWindow(ser, r) || Owned(objs, owner, r)))
  }

  ghost predicate NumbersOk(next: int, open: set<Ref>, owner: map<Ref, Cid>) {
    && (forall r | r in open :: r.cf < next)
    && (forall r | r in owner :: r.cf < next)
  }

  ghost predicate LeakedOk(k: nat, next: int, leaked: set<Ref>, approved: seq<set<Ref>>) {
    forall r | r in leaked :: r.cf < next && r.part <= k && r.part < |approved| && r in approved[r.part]
  }

  predicate TaskOk(k: nat, c: Cid, o: Obj, st: Stage) {
    && (st.Queued? ==> st.part < k && (!Reserved(c.name) ==> st.part < |o.instances| && o.instances[st.part].ref.Some?))
    && (st.InEngine? ==> st.part < k && !Reserved(c.name) && st.part < |o.instances| && o.instances[st.part].ref.Some?)
  }

  /** A queued task on a data container has a handle for its partition; one inside the engine has passed the fence. */
  ghost predicate HoldsOk(k: nat, objs: Objects, holds: map<nat, Hold>) {
    forall t | t in holds && holds[t].cid in objs :: TaskOk(k, holds[t].cid, objs[holds[t].cid], holds[t].stage)
  }

  ghost predicate Ownership(k: nat, next: int, s: Session) {
    && ShapesOk(k, next, s.objs, s.gens)
    && HeldIntact(s.objs, s.index, s.gc, s.ser, s.holds)
    && SlotsApproved(k, s.objs, s.owner, s.approved, s.leaked)
    && WindowOk(next, s.ser, s.open, s.leaked, s.owner, s.approved)
    && ApprovedOk(k, s.approved, s.open, s.leaked, s.ser, s.objs, s.owner)
    && NumbersOk(next, s.open, s.owner)
    && LeakedOk(k, next, s.leaked, s.approved)
    && HoldsOk(k, s.objs, s.holds)
  }

  /** The invariant of a session. */
  ghost predicate Good(k: nat, d: Disk, s: Session) {
    Core(k, d, s) && Ownership(k, d.next, s)
  }

  lemma GoodShape(k: nat, d: Disk, s: Session)
    requires Good(k, d, s)
    ensures |d.cfs| == k + 1
  {
    hide Ownership, IndexOk, UnindexedOk, MetadataEntriesOk, RecordsOk, SerializerOk, CollectorOk;
  }

  ghost predicate Inv(w: World) {
    && DiskOk(w.k, w.disk)
    && match w.mode
       case Down => true
       case Booting(pc) => BootOk(w.k, w.disk.cfs, w.disk.records, pc)
       case Up(s) => Good(w.k, w.disk, s)
  }

  /** Not the one request that durability does not survive. */
  predicate Clean(a: Action) {
    a != BeginRemove(MetadataContainers)
  }

  /** A new family keeps the disk in order if the rules for names allow it on its partition. */
  lemma AddFamilyKeepsDisk(k: nat, d: Disk, i: nat, n: Name)
    requires DiskOk(k, d) && i <= k && n !in d.cfs[i]
    requires n == Default || Default in d.cfs[i]
    requires if i == k then n == Default || (n == MetadataContainers && Opened(k, d.cfs)) else !Reserved(n)
    ensures DiskOk(k, AddFamily(d, i, n))
    ensures Opened(k, d.cfs) ==> Opened(k, AddFamily(d, i, n).cfs)
  {
    var d' := AddFamily(d, i, n);
    forall m | m in d'.records ensures OnEvery(k, d'.cfs, m) {
      assert OnEvery(k, d.cfs, m);
    }
  }
}
