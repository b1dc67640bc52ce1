/** What each action of the garbage collector thread keeps, while it drops families and takes entries out. */
module CollectorPreservation {
  import opened Types
  import opened Lifecycle
  import opened Invariant

  lemma RemovalShrinks<K, V>(m: map<K, V>, key: K)
    requires key in m
    ensures |m - {key}| == |m| - 1
  {
    assert (m - {key}).Keys == m.Keys - {key};
  }

  // ---------------------------------------------------------------- the collector alone moves

  /** Where the collector goes on to is in order, and it holds nothing that has begun to be destroyed. */
  ghost predicate GoesOnTo(k: nat, d: Disk, s: Session, s': Session) {
    && s' == s.(gc := s'.gc, count := s'.count)
    && CollectorOk(k, d.cfs, s.index, s.objs, s'.gc)
    && CountOk(s'.count, s.index, s.ser, s'.gc)
    && (s'.gc.Sweeping? ==> forall c | c in s'.gc.snap :: Intact(s.objs, c))
  }

  lemma GoingOnKeeps(k: nat, d: Disk, s: Session, s': Session)
    requires Good(k, d, s) && GoesOnTo(k, d, s, s')
    ensures Good(k, d, s')
  {
    hide DiskOk, IndexOk, MetadataEntriesOk, RecordsOk, SerializerOk, UnindexedOk, ShapesOk, SlotsApproved, WindowOk,
      ApprovedOk, NumbersOk, LeakedOk, HoldsOk;
  }

  /** The step drops a family. */
  predicate Frees(k: nat, d: Disk, s: Session, a: Action)
    requires CollectorAction(a) && EnabledCollector(k, s, a)
  {
    a.DropInstance?
    && var o, j := s.objs[s.gc.phase.cid], s.gc.phase.next;
       j < |o.instances| && DropStatus(d, s, o.instances[j], a.ok) == Success
  }

  /** A snapshot lists entries, and its next container is looked at. */
  lemma LooksOn(k: nat, d: Disk, s: Session, a: Action)
    requires Good(k, d, s) && (a.Snapshot? || a.InspectNext?) && EnabledCollector(k, s, a) && |d.cfs| == k + 1
    ensures GoesOnTo(k, d, s, StepCollector(k, d, s, a).1)
  {
    hide DiskOk, Opened, MetadataEntriesOk, RecordsOk, SerializerOk, UnindexedOk, ShapesOk, SlotsApproved, WindowOk,
      ApprovedOk, NumbersOk, LeakedOk, HoldsOk, EntryOk;
    if a.Snapshot? { hide DroppedUpTo; }
  }

  /** Checks, the counter and the end. */
  lemma MovesOn(k: nat, d: Disk, s: Session, a: Action)
    requires Good(k, d, s) && (a.CheckEntry? || a.CountDown? || a.EndSweep?) && EnabledCollector(k, s, a)
    requires |d.cfs| == k + 1
    ensures GoesOnTo(k, d, s, StepCollector(k, d, s, a).1)
  {
    hide DiskOk, Opened, IndexOk, MetadataEntriesOk, RecordsOk, SerializerOk, UnindexedOk, ShapesOk, SlotsApproved,
      WindowOk, ApprovedOk, NumbersOk, LeakedOk, HoldsOk;
  }

  /** A drop that fails, and the end of all drops. */
  lemma DropMovesOn(k: nat, d: Disk, s: Session, a: Action)
    requires Good(k, d, s) && a.DropInstance? && EnabledCollector(k, s, a) && |d.cfs| == k + 1 && !Frees(k, d, s, a)
    ensures StepCollector(k, d, s, a).0 == d && GoesOnTo(k, d, s, StepCollector(k, d, s, a).1)
  {
    hide DiskOk, IndexOk, MetadataEntriesOk, RecordsOk, SerializerOk, UnindexedOk, SlotsApproved, WindowOk, ApprovedOk,
      NumbersOk, LeakedOk, HoldsOk;
  }

  // ---------------------------------------------------------------- dropping a family

  /** What is known of the container that is being dropped: its entry, its slots, and its families so far. */
  ghost predicate BeingDropped(k: nat, d: Disk, s: Session)
    requires s.gc.Sweeping? && s.gc.phase.Dropping?
  {
    var c, next := s.gc.phase.cid, s.gc.phase.next;
    && |d.cfs| == k + 1 && Opened(k, d.cfs) && Default in s.index
    && (forall i, n | 0 <= i < k && n in d.cfs[i] :: !Reserved(n))
    && Entry(s.index, s.objs, c) && s.objs[c].deleted && c.name !in d.records && c.name != MetadataContainers
    && next <= |s.objs[c].instances| == (if Reserved(c.name) then 1 else k)
    && (next > 0 ==> !Reserved(c.name))
    && (forall i | 0 <= i < next && i < k :: c.name !in d.cfs[i])
    && (forall j | 0 <= j < |s.objs[c].instances| && s.objs[c].instances[j].ref.Some? ::
          var inst := s.objs[c].instances[j];
          && Fence(s, inst.part, inst.ref) && inst.ref.value.part == inst.part == (if Reserved(c.name) then k else j)
          && inst.ref.value.name == (if c.name == MetadataDefault then Default else c.name))
    && (!Reserved(c.name) ==> forall j | 0 <= j < k && c.name in d.cfs[j] ::
          s.objs[c].instances[j] == Instance(j, Some(Handle(d.cfs, j, c.name))))
  }

  lemma DroppingKnown(k: nat, d: Disk, s: Session)
    requires Good(k, d, s) && s.gc.Sweeping? && s.gc.phase.Dropping?
    ensures BeingDropped(k, d, s)
  {
    hide MetadataEntryOk, SerializerOk, UnindexedOk, WindowOk, ApprovedOk, NumbersOk, LeakedOk, HoldsOk;
    var c := s.gc.phase.cid;
    assert DroppedUpTo(k, d.cfs, s.index, s.objs, c, s.gc.phase.next) && SoftDeleted(s.index, s.objs, c.name);
    assert Intact(s.objs, c) && ShapeOk(k, d.next, c, s.objs[c]);
    forall j | 0 <= j < |s.objs[c].instances| && s.objs[c].instances[j].ref.Some?
      ensures SlotOk(k, d.next, c, j, s.objs[c].instances[j])
      ensures SlotApproved(k, s.owner, s.approved, s.leaked, c, s.objs[c].instances[j].ref.value)
    {
    }
    assert !Reserved(c.name) ==> EntryOk(k, d.cfs, c.name, s.objs[c]);
    forall j | 0 <= j < |s.objs[c].instances| ensures SlotOk(k, d.next, c, j, s.objs[c].instances[j]) {
    }
  }

  /** Dropping a family of a soft-deleted container touches no other name. */
  lemma DropKeepsFamilies(k: nat, d: Disk, r: Ref)
    requires DiskOk(k, d) && OnDisk(d.cfs, r) && r.name != Default && r.name !in d.records && r.part < k
    ensures DiskOk(k, DropFamily(d, r))
    ensures Opened(k, d.cfs) ==> Opened(k, DropFamily(d, r).cfs)
    ensures forall i, n | 0 <= i <= k && n != r.name :: n in d.cfs[i] <==> n in DropFamily(d, r).cfs[i]
    ensures forall i, n | 0 <= i <= k && n in DropFamily(d, r).cfs[i] ::
      n in d.cfs[i] && DropFamily(d, r).cfs[i][n] == d.cfs[i][n]
  {
    var d' := DropFamily(d, r);
    forall n | n in d'.records ensures OnEvery(k, d'.cfs, n) {
      assert OnEvery(k, d.cfs, n);
    }
  }

  lemma DropKeepsIndex(k: nat, d: Disk, s: Session, r: Ref)
    requires Core(k, d, s) && OnDisk(d.cfs, r) && r.name != Default && r.part < k
    requires SoftDeleted(s.index, s.objs, r.name)
    ensures IndexOk(k, DropFamily(d, r).cfs, s.index, s.objs)
    ensures MetadataEntriesOk(k, DropFamily(d, r).cfs, s.index, s.objs)
    ensures UnindexedOk(k, DropFamily(d, r).cfs, s.index)
  {
    var d' := DropFamily(d, r);
    DropKeepsFamilies(k, d, r);
    forall n | n !in s.index ensures NoGapFrom(k, d'.cfs, n, 0) {
      assert NoGapFrom(k, d.cfs, n, 0);
    }
    forall n | n in s.index && s.index[n] in s.objs && !Reserved(n) ensures EntryOk(k, d'.cfs, n, s.objs[s.index[n]]) {
      assert EntryOk(k, d.cfs, n, s.objs[s.index[n]]);
      if !s.objs[s.index[n]].deleted { assert OnEvery(k, d.cfs, n); }
    }
  }

  lemma DropKeepsThreads(k: nat, d: Disk, s: Session, r: Ref)
    requires Core(k, d, s) && s.gc.Sweeping? && s.gc.phase.Dropping? && BeingDropped(k, d, s)
    requires !Reserved(r.name) && r.name != Default && r.name == s.gc.phase.cid.name && r.part == s.gc.phase.next < k
    requires OnDisk(d.cfs, r)
    ensures var d' := DropFamily(d, r);
      && SerializerOk(k, d'.cfs, d'.records, s.index, s.objs, s.ser)
      && CollectorOk(k, d'.cfs, s.index, s.objs, s.gc.(phase := Dropping(s.gc.phase.cid, s.gc.phase.next + 1)))
  {
    DropKeepsFamilies(k, d, r);
  }

  lemma DropKeepsCore(k: nat, d: Disk, s: Session, ok: bool)
    requires Good(k, d, s) && EnabledCollector(k, s, DropInstance(ok)) && |d.cfs| == k + 1
    requires Frees(k, d, s, DropInstance(ok))
    ensures var (d', s') := StepCollector(k, d, s, DropInstance(ok)); Core(k, d', s')
  {
    hide DiskOk, Opened, IndexOk, MetadataEntriesOk, RecordsOk, SerializerOk, CollectorOk, UnindexedOk, Ownership;
    DroppingKnown(k, d, s);
    var r := s.objs[s.gc.phase.cid].instances[s.gc.phase.next].ref.value;
    DropKeepsFamilies(k, d, r);
    DropKeepsIndex(k, d, s, r);
    DropKeepsThreads(k, d, s, r);
  }

  lemma DropKeepsRecords(k: nat, d: Disk, s: Session, a: Action)
    requires Good(k, d, s) && a.DropInstance? && EnabledCollector(k, s, a) && |d.cfs| == k + 1
    ensures StepCollector(k, d, s, a).0.records == d.records
  {
    hide Good;
    DroppingKnown(k, d, s);
  }

  lemma DropKeepsHandles(k: nat, next: int, s: Session, ph: Phase)
    requires Ownership(k, next, s) && s.gc.Sweeping?
    ensures Ownership(k, next, EnterPhase(s, ph))
  {
    hide ShapesOk, SlotsApproved, WindowOk, ApprovedOk, NumbersOk, LeakedOk, HoldsOk;
  }

  // ---------------------------------------------------------------- taking an entry out

  lemma EraseKeepsIndex(k: nat, d: Disk, s: Session)
    requires Core(k, d, s) && s.gc.Sweeping? && s.gc.phase.Erasing?
    ensures s.gc.phase.cid.name in s.index
    ensures var s' := EraseByName(s);
      && IndexOk(k, d.cfs, s'.index, s'.objs)
      && MetadataEntriesOk(k, d.cfs, s'.index, s'.objs)
      && RecordsOk(d.records, s'.index, s'.objs, s'.ser)
      && UnindexedOk(k, d.cfs, s'.index)
  {
    hide SerializerOk;
    var n := s.gc.phase.cid.name;
    assert NoGapFrom(k, d.cfs, n, 0);
    assert n !in d.cfs[0] && Default in d.cfs[0];
  }

  lemma EraseKeepsThreads(k: nat, d: Disk, s: Session)
    requires Core(k, d, s) && s.gc.Sweeping? && s.gc.phase.Erasing?
    ensures var s' := EraseByName(s);
      && SerializerOk(k, d.cfs, d.records, s'.index, s'.objs, s'.ser)
      && CollectorOk(k, d.cfs, s'.index, s'.objs, s'.gc)
  {
  }

  lemma EraseKeeps(k: nat, d: Disk, s: Session)
    requires Good(k, d, s) && EnabledCollector(k, s, EraseEntry)
    ensures Good(k, d, EraseByName(s))
  {
    hide IndexOk, MetadataEntriesOk, RecordsOk, SerializerOk, CollectorOk, UnindexedOk, DiskOk, Opened,
      ShapesOk, SlotsApproved, WindowOk, ApprovedOk, NumbersOk, LeakedOk, HoldsOk;
    EraseKeepsIndex(k, d, s);
    EraseKeepsThreads(k, d, s);
    RemovalShrinks(s.index, s.gc.phase.cid.name);
  }
}
