/** Boot keeps the disk in order at every one of its steps, and the session it builds satisfies the invariant. */
module BootPreservation {
  import opened Types
  import opened Lifecycle
  import opened Invariant

  /** An opened metadata partition with one family is new; with two it has the family of the records. */
  lemma MetadataFamilies(k: nat, cfs: Families, next: int)
    requires FamiliesOk(k, cfs, next) && Default in cfs[k]
    ensures |cfs[k]| == 1 <==> MetadataContainers !in cfs[k]
    ensures 1 <= |cfs[k]| <= 2
  {
    var ns := cfs[k].Keys;
    if MetadataContainers in cfs[k] {
      assert ns == {Default, MetadataContainers};
    } else {
      assert ns == {Default};
    }
  }

  lemma OpenPartitionKeeps(w: World, ok: bool)
    requires Inv(w) && Enabled(w, OpenPartition(ok))
    ensures Inv(Step(w, OpenPartition(ok)))
  {
    var done := w.mode.pc.done;
    var d := OpenedDisk(w.disk, BootOrder(w.k, done));
    if w.disk.cfs[BootOrder(w.k, done)] == map[] {
      AddFamilyKeepsDisk(w.k, w.disk, BootOrder(w.k, done), Default);
    } else {
      var n :| n in w.disk.cfs[BootOrder(w.k, done)];
    }
    if done == w.k {
      forall j | 0 <= j <= w.k ensures Default in d.cfs[j] {
        assert j == BootOrder(w.k, if j == w.k then 0 else j + 1);
      }
      MetadataFamilies(w.k, d.cfs, d.next);
    }
  }

  /** A disk with which boot can come to load. */
  ghost predicate Bootable(k: nat, d: Disk) {
    DiskOk(k, d) && Opened(k, d.cfs) && MetadataContainers in d.cfs[k]
  }

  /** Whatever the boot sequence can reach, the loader accepts. */
  lemma ReachableIsLoadable(k: nat, d: Disk)
    requires Bootable(k, d)
    ensures Loadable(k, d)
  {
    MetadataFamilies(k, d.cfs, d.next);
    forall n | n in d.cfs[k] ensures IndexedAs(n) !in DataNames(k, d.cfs) {
      assert Reserved(IndexedAs(n));
    }
  }

  /** What boot loads, name by name. */
  ghost predicate Loads(k: nat, d: Disk, l: map<Name, Container>)
    requires Opened(k, d.cfs) && MetadataContainers in d.cfs[k]
  {
    && (forall n :: n in l <==> n in DataNames(k, d.cfs) || Reserved(n))
    && (forall n | n in DataNames(k, d.cfs) :: n in l && l[n] == Container(n, Slots(k, d.cfs, n), n !in d.records))
    && l[MetadataDefault] == MetadataContainer(k, d, Default)
    && l[MetadataContainers] == MetadataContainer(k, d, MetadataContainers)
  }

  lemma LoadedEntries(k: nat, d: Disk)
    requires Bootable(k, d)
    ensures Loads(k, d, LoadedContainers(k, d))
  {
    var ns := set m | m in d.cfs[k] :: IndexedAs(m);
    assert IndexedAs(Default) == MetadataDefault && IndexedAs(MetadataContainers) == MetadataContainers;
    assert ns == {MetadataDefault, MetadataContainers};
    forall n | n in DataNames(k, d.cfs) ensures !Reserved(n) {
      var i :| 0 <= i < k && n in d.cfs[i];
    }
  }

  ghost predicate NamesAsLoaded(k: nat, d: Disk, index: Index, objs: Objects)
    requires Opened(k, d.cfs) && MetadataContainers in d.cfs[k]
  {
    && (forall n :: n in index <==> n in DataNames(k, d.cfs) || Reserved(n))
    && (forall n | n in index :: index[n] == Cid(n, 0) && Cid(n, 0) in objs)
    && (forall c :: c in objs <==> c.gen == 0 && c.name in index)
    && (forall n | n in DataNames(k, d.cfs) && Cid(n, 0) in objs ::
          objs[Cid(n, 0)] == Obj(Slots(k, d.cfs, n), n !in d.records, 0))
    && objs[Cid(MetadataDefault, 0)] == Obj([Instance(k, Some(Handle(d.cfs, k, Default)))], false, 0)
    && objs[Cid(MetadataContainers, 0)] == Obj([Instance(k, Some(Handle(d.cfs, k, MetadataContainers)))], false, 0)
  }

  ghost predicate HandlesAsLoaded(k: nat, cfs: Families, approved: seq<set<Ref>>, open: set<Ref>,
                                  owner: map<Ref, Cid>) {
    && |approved| == k + 1
    && (forall i, r | 0 <= i <= k :: r in approved[i] <==> r.part == i && OnDisk(cfs, r))
    && (forall r :: r in open <==> OnDisk(cfs, r))
    && (forall r :: r in owner <==> OnDisk(cfs, r))
    && (forall r | r in owner :: owner[r] == Cid(if r.part == k then IndexedAs(r.name) else r.name, 0))
  }

  /** A session as boot leaves it, name by name and handle by handle. */
  ghost predicate AsLoaded(k: nat, d: Disk, s: Session)
    requires Opened(k, d.cfs) && MetadataContainers in d.cfs[k]
  {
    && NamesAsLoaded(k, d, s.index, s.objs)
    && HandlesAsLoaded(k, d.cfs, s.approved, s.open, s.owner)
    && s.count == |s.index|
    && s.leaked == {} && s.holds == map[] && s.ser == SerIdle && s.gc == GcIdle && s.gens == 1
    && s.pending == multiset{}
  }

  lemma FirstSessionHandles(k: nat, d: Disk)
    requires |d.cfs| == k + 1
    ensures |Approvals(k, d)| == k + 1
    ensures forall i, r | 0 <= i <= k :: r in Approvals(k, d)[i] <==> r.part == i && OnDisk(d.cfs, r)
    ensures forall r :: r in AllHandles(d) <==> OnDisk(d.cfs, r)
    ensures LoadedOwners(k, d).Keys == AllHandles(d)
  {
    forall r | OnDisk(d.cfs, r) ensures r in AllHandles(d) && r in OpenHandles(d, r.part) {
      assert r == Handle(d.cfs, r.part, r.name);
    }
  }

  lemma FirstSessionAsLoaded(k: nat, d: Disk)
    requires Bootable(k, d)
    ensures AsLoaded(k, d, FirstSession(k, d))
  {
    hide DiskOk, LoadedContainers, Approvals, AllHandles, DataNames, Slots, OnDisk;
    LoadedEntries(k, d);
    FirstSessionHandles(k, d);
    var l := LoadedContainers(k, d);
    assert (map n | n in l :: Cid(n, 0)).Keys == l.Keys;
    assert IndexedAs(Default) == MetadataDefault && IndexedAs(MetadataContainers) == MetadataContainers;
  }

  lemma LoadedCore(k: nat, d: Disk, s: Session)
    requires Bootable(k, d) && AsLoaded(k, d, s)
    ensures Core(k, d, s)
  {
    hide HandlesAsLoaded;
    assert Default in d.cfs[0];
    forall n | n in s.index && !Reserved(n) ensures EntryOk(k, d.cfs, n, s.objs[s.index[n]]) {
      assert n in DataNames(k, d.cfs);
    }
    forall n | n in d.records ensures Live(s.index, s.objs, n) {
      assert OnEvery(k, d.cfs, n) && n in d.cfs[0];
    }
  }

  /** The slots of a container object are those of its families, and it owns their handles. */
  ghost predicate SlotsAsLoaded(k: nat, d: Disk, s: Session, c: Cid)
    requires c in s.objs
  {
    && s.objs[c].closed == 0 && ShapeOk(k, d.next, c, s.objs[c])
    && forall j | 0 <= j < |s.objs[c].instances| && s.objs[c].instances[j].ref.Some? ::
         var r := s.objs[c].instances[j].ref.value; OnDisk(d.cfs, r) && r.part <= k && r in s.owner && s.owner[r] == c
  }

  lemma LoadedShape(k: nat, d: Disk, s: Session, c: Cid)
    requires Bootable(k, d) && AsLoaded(k, d, s) && c in s.objs
    ensures SlotsAsLoaded(k, d, s, c)
  {
    assert c == Cid(c.name, 0) && c.name in s.index;
    if Reserved(c.name) {
      var m := if c.name == MetadataDefault then Default else MetadataContainers;
      assert s.objs[c] == Obj([Instance(k, Some(Handle(d.cfs, k, m)))], false, 0) && IndexedAs(m) == c.name;
    } else {
      assert s.objs[c] == Obj(Slots(k, d.cfs, c.name), c.name !in d.records, 0);
    }
  }

  lemma LoadedOwner(k: nat, d: Disk, s: Session, r: Ref)
    requires Bootable(k, d) && AsLoaded(k, d, s) && OnDisk(d.cfs, r)
    ensures Owned(s.objs, s.owner, r) && r.cf < d.next
  {
    assert r == Handle(d.cfs, r.part, r.name);
    if r.part < k {
      assert r.name in DataNames(k, d.cfs);
      assert s.objs[Cid(r.name, 0)].instances == Slots(k, d.cfs, r.name);
    }
  }

  lemma LoadedShapes(k: nat, d: Disk, s: Session)
    requires Bootable(k, d) && AsLoaded(k, d, s)
    ensures ShapesOk(k, d.next, s.objs, s.gens)
    ensures HeldIntact(s.objs, s.index, s.gc, s.ser, s.holds)
    ensures SlotsApproved(k, s.objs, s.owner, s.approved, s.leaked)
  {
    hide Bootable, DiskOk, Opened, ShapeOk;
    forall c | c in s.objs ensures SlotsAsLoaded(k, d, s, c) {
      LoadedShape(k, d, s, c);
    }
  }

  lemma LoadedOwnership(k: nat, d: Disk, s: Session)
    requires Bootable(k, d) && AsLoaded(k, d, s)
    ensures Ownership(k, d.next, s)
  {
    hide Bootable, NamesAsLoaded, OnDisk, Owned, ShapesOk, HeldIntact, SlotsApproved;
    LoadedShapes(k, d, s);
    forall r | r in s.open || r in s.owner ensures Owned(s.objs, s.owner, r) && r.cf < d.next {
      LoadedOwner(k, d, s, r);
    }
  }

  /** The session a boot starts with satisfies the invariant. */
  lemma FirstSessionKeeps(k: nat, d: Disk)
    requires Bootable(k, d)
    ensures Good(k, d, FirstSession(k, d))
  {
    hide Core, Ownership, AsLoaded, FirstSession;
    FirstSessionAsLoaded(k, d);
    LoadedCore(k, d, FirstSession(k, d));
    LoadedOwnership(k, d, FirstSession(k, d));
  }

}
