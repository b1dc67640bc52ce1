/** What each action of the serializer thread keeps: records, index and families, and the approved handles. */
module SerializerPreservation {
  import opened Types
  import opened Lifecycle
  import opened Invariant

  // ---------------------------------------------------------------- the serializer alone moves

  /** The serializer goes on with what it has in its hands, and the counter is right for where it is then. */
  ghost predicate GoesOnTo(k: nat, d: Disk, s: Session, s': Session) {
    var ser := s'.ser;
    && s' == s.(ser := ser, count := s'.count, pending := s'.pending)
    && SerializerOk(k, d.cfs, d.records, s.index, s.objs, ser)
    && CountOk(s'.count, s.index, ser, s.gc)
    && (forall n :: Publishing(s.ser, n) ==> Publishing(ser, n))
    && (forall n :: Retiring(s.ser, n) ==> Retiring(ser, n))
    && (AtCreation(ser) && ser.refs != [] ==>
          AtCreation(s.ser) && s.ser.refs == ser.refs && s.ser.name == ser.name)
    && (forall r :: InWindow(ser, r) <==> InWindow(s.ser, r))
    && (ser.Marking? ==> Intact(s.objs, ser.cid))
  }

  lemma GoingOnKeeps(k: nat, d: Disk, s: Session, s': Session)
    requires Good(k, d, s) && GoesOnTo(k, d, s, s')
    ensures Good(k, d, s')
  {
    hide DiskOk, IndexOk, MetadataEntriesOk, CollectorOk, UnindexedOk, ShapesOk, SlotsApproved, NumbersOk,
      LeakedOk, HoldsOk, Owned, Live, SoftDeleted, Opened;
  }

  lemma CreationMovesOn(k: nat, d: Disk, s: Session, a: Action)
    requires a.BeginCreate? || a.Approve? || a.CheckIndex? || a.CountUp?
    requires Good(k, d, s) && EnabledSerializer(k, s, a) && |d.cfs| == k + 1
    requires a.Approve? ==> s.ser.next == |s.ser.refs|
    ensures StepSerializer(k, d, s, a).0 == d && GoesOnTo(k, d, s, StepSerializer(k, d, s, a).1)
  {
    hide DiskOk, Opened, IndexOk, MetadataEntriesOk, CollectorOk, UnindexedOk, Ownership, SlotsOfRefs;
  }

  lemma CallsMoveOn(k: nat, d: Disk, s: Session, a: Action)
    requires a.CreateFamily? || a.PutRecord? || a.DeleteRecord?
    requires Good(k, d, s) && EnabledSerializer(k, s, a) && |d.cfs| == k + 1 && StepSerializer(k, d, s, a).0 == d
    ensures GoesOnTo(k, d, s, StepSerializer(k, d, s, a).1)
  {
    hide DiskOk, Opened, IndexOk, MetadataEntriesOk, CollectorOk, UnindexedOk, RecordsOk, Ownership, FreshRefs;
    if a.PutRecord? { assert s.ser.name in d.records + {s.ser.name}; }
    if a.DeleteRecord? { assert s.ser.name !in d.records - {s.ser.name}; }
  }

  lemma RequestMovesOn(k: nat, d: Disk, s: Session, a: Action)
    requires a.BeginRemove? || a.Reply?
    requires Good(k, d, s) && Clean(a) && EnabledSerializer(k, s, a) && |d.cfs| == k + 1
    ensures GoesOnTo(k, d, s, StepSerializer(k, d, s, a).1)
  {
    hide DiskOk, Opened, IndexOk, MetadataEntriesOk, CollectorOk, UnindexedOk, RecordsOk, Ownership;
  }

  lemma LookUpMovesOn(k: nat, d: Disk, s: Session)
    requires Good(k, d, s) && EnabledSerializer(k, s, LookUp) && |d.cfs| == k + 1
    ensures GoesOnTo(k, d, s, StepSerializer(k, d, s, LookUp).1)
  {
    hide DiskOk, Opened, EntryOk, MetadataEntriesOk, CollectorOk, UnindexedOk, RecordsOk, ShapesOk, SlotsApproved,
      WindowOk, ApprovedOk, NumbersOk, LeakedOk, HoldsOk;
  }

  // ---------------------------------------------------------------- a family of a new container

  lemma CreateKeepsHandles(k: nat, next: int, s: Session, r: Ref)
    requires Ownership(k, next, s) && s.ser.Creating? && r == Ref(|s.ser.refs|, s.ser.name, next)
    ensures Ownership(k, next + 1, TakeHandle(s, r))
  {
    assert r !in s.open && r !in s.owner && r !in s.leaked;
  }

  lemma CreateKeepsIndex(k: nat, d: Disk, s: Session, i: nat, n: Name)
    requires |d.cfs| == k + 1 && i < k && n !in d.cfs[i] && n !in s.index
    requires IndexOk(k, d.cfs, s.index, s.objs) && MetadataEntriesOk(k, d.cfs, s.index, s.objs)
    requires CollectorOk(k, d.cfs, s.index, s.objs, s.gc)
    ensures var cfs := AddFamily(d, i, n).cfs;
      && IndexOk(k, cfs, s.index, s.objs) && MetadataEntriesOk(k, cfs, s.index, s.objs)
      && CollectorOk(k, cfs, s.index, s.objs, s.gc)
  {
    var cfs := AddFamily(d, i, n).cfs;
    forall m | m in s.index && s.index[m] in s.objs && !Reserved(m) ensures EntryOk(k, cfs, m, s.objs[s.index[m]]) {
      assert EntryOk(k, d.cfs, m, s.objs[s.index[m]]);
      if !s.objs[s.index[m]].deleted { assert OnEvery(k, d.cfs, m); }
    }
  }

  lemma CreateKeepsCore(k: nat, d: Disk, s: Session)
    requires Core(k, d, s) && s.ser.Creating? && |s.ser.refs| < k && s.ser.name !in d.cfs[|s.ser.refs|]
    ensures Core(k, AddFamily(d, |s.ser.refs|, s.ser.name), TakeHandle(s, Ref(|s.ser.refs|, s.ser.name, d.next)))
  {
    assert !Reserved(s.ser.name);
    hide MetadataEntriesOk, IndexOk, CollectorOk;
    var n, i := s.ser.name, |s.ser.refs|;
    assert NoGapFrom(k, d.cfs, n, 0);
    AddFamilyKeepsDisk(k, d, i, n);
    CreateKeepsIndex(k, d, s, i, n);
  }

  // ---------------------------------------------------------------- its record and its handles

  /** The record comes when all families are there. */
  lemma PutRecordKeepsCore(k: nat, d: Disk, s: Session)
    requires Core(k, d, s) && s.ser.Creating? && |s.ser.refs| == k
    ensures Core(k, d.(records := d.records + {s.ser.name}), s.(ser := Approving(s.ser.name, s.ser.refs, 0)))
  {
    hide EntryOk, CollectorOk, UnindexedOk;
  }

  /** And it goes before the container is marked. */
  lemma DeleteRecordKeepsCore(k: nat, d: Disk, s: Session)
    requires Core(k, d, s) && s.ser.Removing?
    ensures Core(k, d.(records := d.records - {s.ser.name}), s.(ser := LookingUp(s.ser.name)))
  {
    hide EntryOk, CollectorOk, UnindexedOk;
  }

  lemma WritesKeepHandles(k: nat, d: Disk, s: Session, a: Action)
    requires Good(k, d, s) && (a.PutRecord? || a.DeleteRecord?) && EnabledSerializer(k, s, a) && |d.cfs| == k + 1
    ensures var (d', s') := StepSerializer(k, d, s, a); Ownership(k, d'.next, s')
  {
    hide Core, ShapesOk, SlotsApproved, NumbersOk, LeakedOk, HoldsOk, Owned, MetadataWriteStatus, HasMetadataRef;
    var (d', s') := StepSerializer(k, d, s, a);
    assert s' == s.(ser := s'.ser) && d'.next == d.next;
  }

  lemma ApproveKeepsHandles(k: nat, next: int, s: Session)
    requires Ownership(k, next, s) && s.ser.Approving? && s.ser.next < |s.ser.refs| == k
    ensures Ownership(k, next, ApproveNext(s))
  {
    hide HoldsOk, ShapesOk, NumbersOk, Owned;
    var s', i := ApproveNext(s), s.ser.next;
    var r0 := s.ser.refs[i];
    assert r0.part == i && r0 in s.open;
    assert forall j | 0 <= j <= k :: s.approved[j] <= s'.approved[j];
    assert forall r | InWindow(s.ser, r) :: InWindow(s'.ser, r);
    assert forall j, r | 0 <= j <= k && r in s'.approved[j] :: r in s.approved[j] || (j == i && r == r0);
  }

  lemma ApproveKeepsCore(k: nat, d: Disk, s: Session)
    requires Core(k, d, s) && s.ser.Approving? && s.ser.next < |s.ser.refs| <= |s.approved|
    ensures |s.ser.refs| == k && Core(k, d, ApproveNext(s))
  {
    hide IndexOk, MetadataEntriesOk, CollectorOk, DiskOk, Opened, UnindexedOk;
  }

  // ---------------------------------------------------------------- its entry

  lemma InsertKeepsIndex(k: nat, d: Disk, s: Session)
    requires s.ser.Inserting? && s.ser.name !in s.index && !Reserved(s.ser.name)
    requires FreshRefs(k, d.cfs, s.ser.name, s.ser.refs) && |s.ser.refs| == k
    requires IndexOk(k, d.cfs, s.index, s.objs) && MetadataEntriesOk(k, d.cfs, s.index, s.objs)
    requires forall c | c in s.objs :: c.gen < s.gens
    ensures var s' := InsertNew(s);
      IndexOk(k, d.cfs, s'.index, s'.objs) && MetadataEntriesOk(k, d.cfs, s'.index, s'.objs)
    ensures var s' := InsertNew(s); CollectorOk(k, d.cfs, s.index, s.objs, s.gc) ==>
      CollectorOk(k, d.cfs, s'.index, s'.objs, s.gc)
  {
    var s' := InsertNew(s);
    assert EntryOk(k, d.cfs, s.ser.name, s'.objs[s'.index[s.ser.name]]);
  }

  lemma InsertKeepsCore(k: nat, d: Disk, s: Session)
    requires Good(k, d, s) && s.ser.Inserting?
    ensures !Reserved(s.ser.name) && |s.ser.refs| == k && Core(k, d, InsertNew(s))
  {
    hide EntryOk, CollectorOk, HeldIntact, SlotsApproved, WindowOk, ApprovedOk, NumbersOk, LeakedOk, HoldsOk, ShapeOk;
    var s' := InsertNew(s);
    assert FreshRefs(k, d.cfs, s.ser.name, s.ser.refs);
    InsertKeepsIndex(k, d, s);
    hide IndexOk, MetadataEntriesOk;
  }

  lemma InsertSlots(k: nat, next: int, s: Session)
    requires Ownership(k, next, s) && s.ser.Inserting? && |s.ser.refs| == k && !Reserved(s.ser.name)
    ensures var s' := InsertNew(s); SlotsApproved(k, s'.objs, s'.owner, s'.approved, s'.leaked)
  {
    var s', c := InsertNew(s), Cid(s.ser.name, s.gens);
    forall b, j | b in s'.objs && s'.objs[b].closed <= j < |s'.objs[b].instances| && s'.objs[b].instances[j].ref.Some?
      ensures SlotApproved(k, s'.owner, s'.approved, s'.leaked, b, s'.objs[b].instances[j].ref.value)
    {
      if b == c {
        var r := s.ser.refs[j];
        assert InWindow(s.ser, r);
        assert s'.owner[r] == c;
      } else {
        var r := s.objs[b].instances[j].ref.value;
        assert SlotApproved(k, s.owner, s.approved, s.leaked, b, r);
        assert r !in s.ser.refs;
      }
    }
  }

  lemma InsertApproved(k: nat, next: int, s: Session)
    requires Ownership(k, next, s) && s.ser.Inserting? && |s.ser.refs| == k && !Reserved(s.ser.name)
    ensures var s' := InsertNew(s); ApprovedOk(k, s'.approved, s'.open, s'.leaked, s'.ser, s'.objs, s'.owner)
  {
    var s', c := InsertNew(s), Cid(s.ser.name, s.gens);
    forall i, r | 0 <= i <= k && r in s'.approved[i]
      ensures r.part == i && r in s'.open && (r in s'.leaked || Owned(s'.objs, s'.owner, r))
    {
      if InWindow(s.ser, r) {
        assert r in s.ser.refs && s'.owner[r] == c;
        assert s'.objs[c].instances[i] == Instance(i, Some(r));
      } else if Owned(s.objs, s.owner, r) {
        assert s.owner[r] != c;
        assert r !in s.ser.refs;
      }
    }
  }

  lemma InsertKeepsHandles(k: nat, next: int, s: Session)
    requires Ownership(k, next, s) && s.ser.Inserting? && |s.ser.refs| == k && !Reserved(s.ser.name)
    ensures Ownership(k, next, InsertNew(s))
  {
    var s', c := InsertNew(s), Cid(s.ser.name, s.gens);
    assert ShapeOk(k, next, c, s'.objs[c]);
    assert forall b | Intact(s.objs, b) :: Intact(s'.objs, b) && s'.objs[b] == s.objs[b];
    hide SlotsApproved, ApprovedOk;
    InsertSlots(k, next, s);
    InsertApproved(k, next, s);
  }

  // ---------------------------------------------------------------- a removal

  lemma MarkKeepsCollector(k: nat, cfs: Families, index: Index, objs: Objects, c: Cid, gc: Collector)
    requires c in objs && CollectorOk(k, cfs, index, objs, gc)
    ensures CollectorOk(k, cfs, index, objs[c := objs[c].(deleted := true)], gc)
  {
  }

  lemma MarkKeepsIndex(k: nat, d: Disk, s: Session)
    requires Core(k, d, s) && s.ser.Marking?
    ensures s.ser.cid in s.objs && Core(k, d, MarkObject(s))
  {
    hide DiskOk, Opened, UnindexedOk, CollectorOk;
    var s' := MarkObject(s);
    assert forall c | c in s.objs :: s'.objs[c].instances == s.objs[c].instances;
    MarkKeepsCollector(k, d.cfs, s.index, s.objs, s.ser.cid, s.gc);
  }

  lemma MarkKeepsApproved(k: nat, s: Session)
    requires s.ser.Marking? && s.ser.cid in s.objs
    requires ApprovedOk(k, s.approved, s.open, s.leaked, s.ser, s.objs, s.owner)
    ensures var s' := MarkObject(s); ApprovedOk(k, s'.approved, s'.open, s'.leaked, s'.ser, s'.objs, s'.owner)
  {
    var s' := MarkObject(s);
    assert forall r | Owned(s.objs, s.owner, r) :: Owned(s'.objs, s'.owner, r);
  }

  lemma MarkKeepsHandles(k: nat, next: int, s: Session)
    requires Ownership(k, next, s) && s.ser.Marking? && s.ser.cid in s.objs
    ensures Ownership(k, next, MarkObject(s))
  {
    hide ApprovedOk, NumbersOk, LeakedOk, SlotOk, SlotApproved;
    var s' := MarkObject(s);
    assert forall c | c in s.objs ::
      s'.objs[c].instances == s.objs[c].instances && s'.objs[c].closed == s.objs[c].closed;
    MarkKeepsApproved(k, s);
  }

}
