/** What object requests and the destructors of containers keep: handles in use stay open and approved. */
module HolderPreservation {
  import opened Types
  import opened Lifecycle
  import opened Invariant

  // ---------------------------------------------------------------- requests

  /** Nothing changes but what tasks hold, and what they hold is as it should be. */
  ghost predicate HoldsOn(k: nat, s: Session, s': Session) {
    && s' == s.(holds := s'.holds, pending := s'.pending)
    && HeldIntact(s.objs, s.index, s.gc, s.ser, s'.holds) && HoldsOk(k, s.objs, s'.holds)
  }

  lemma HoldingKeeps(k: nat, d: Disk, s: Session, s': Session)
    requires Good(k, d, s) && HoldsOn(k, s, s')
    ensures Good(k, d, s')
  {
    hide DiskOk, IndexOk, MetadataEntriesOk, RecordsOk, SerializerOk, CollectorOk, UnindexedOk, ShapesOk, SlotsApproved,
      WindowOk, ApprovedOk, NumbersOk, LeakedOk, HeldIntact, HoldsOk;
  }

  /** On its way into an engine a task comes by the mark of its container and by the engine's fence. */
  lemma TaskGoesOn(k: nat, d: Disk, s: Session, a: Action)
    requires Good(k, d, s) && (a.Route? || a.PassFence?) && EnabledHolder(k, s, a)
    ensures HoldsOn(k, s, StepHolder(k, s, a))
  {
    hide DiskOk, MetadataEntriesOk, RecordsOk, SerializerOk, CollectorOk, UnindexedOk, SlotsApproved, WindowOk,
      NumbersOk, LeakedOk;
  }

  lemma TaskComesAndGoes(k: nat, d: Disk, s: Session, a: Action)
    requires Good(k, d, s) && (a.ValidateCreate? || a.Acquire? || a.CallEngine? || a.Release?) && EnabledHolder(k, s, a)
    ensures HoldsOn(k, s, StepHolder(k, s, a))
  {
    hide DiskOk, MetadataEntriesOk, RecordsOk, SerializerOk, CollectorOk, UnindexedOk, SlotsApproved, WindowOk,
      NumbersOk, LeakedOk, ApprovedOk, ShapesOk, EntryOk;
  }

  // ---------------------------------------------------------------- destructors

  ghost predicate NamedByKey(s: Session) {
    forall n | n in s.index :: s.index[n].name == n
  }

  /** Objects nobody holds are in neither thread's hands. */
  lemma UnheldMayClose(k: nat, d: Disk, s: Session, objs: Objects, c: Cid)
    requires Core(k, d, s) && c in s.objs && !Held(s, c) && c in objs && objs == s.objs[c := objs[c]]
    requires objs[c].deleted && objs[c].instances == s.objs[c].instances
    ensures IndexOk(k, d.cfs, s.index, objs) && MetadataEntriesOk(k, d.cfs, s.index, objs)
    ensures RecordsOk(d.records, s.index, objs, s.ser) && CollectorOk(k, d.cfs, s.index, objs, s.gc)
    ensures SerializerOk(k, d.cfs, d.records, s.index, objs, s.ser)
  {
    hide DiskOk, Opened, EntryOk, UnindexedOk;
    assert forall n | n in s.index :: s.index[n] != c;
  }

  lemma CloseKeepsNames(k: nat, d: Disk, s: Session, c: Cid, ok: bool)
    requires Core(k, d, s) && c in s.objs && !Held(s, c) && s.objs[c].closed < |s.objs[c].instances|
    requires s.objs[c].deleted
    ensures Core(k, d, CloseInstance(s, c, ok))
  {
    hide DiskOk, Opened, IndexOk, MetadataEntriesOk, RecordsOk, SerializerOk, CollectorOk, UnindexedOk, Held;
    UnheldMayClose(k, d, s, CloseInstance(s, c, ok).objs, c);
  }

  lemma FreeHandles(k: nat, next: int, s: Session, c: Cid)
    requires Ownership(k, next, s) && NamedByKey(s) && c in s.objs && !Held(s, c)
    requires s.objs[c].closed == |s.objs[c].instances|
    ensures Ownership(k, next, s.(objs := s.objs - {c}))
  {
    var s' := s.(objs := s.objs - {c});
    forall r | Owned(s.objs, s.owner, r) ensures Owned(s'.objs, s'.owner, r) {
    }
  }

  // Closing one handle of an object nobody holds.

  ghost predicate Closing(k: nat, next: int, s: Session, c: Cid) {
    && Ownership(k, next, s) && NamedByKey(s)
    && c in s.objs && !Held(s, c) && s.objs[c].closed < |s.objs[c].instances|
    && s.objs[c].deleted
  }

  lemma CloseSlots(k: nat, next: int, s: Session, c: Cid, ok: bool)
    requires Closing(k, next, s, c)
    ensures var s' := CloseInstance(s, c, ok); SlotsApproved(k, s'.objs, s'.owner, s'.approved, s'.leaked)
    ensures var inst := s.objs[c].instances[s.objs[c].closed];
      SlotOk(k, next, c, s.objs[c].closed, inst)
      && (inst.ref.Some? ==> SlotApproved(k, s.owner, s.approved, s.leaked, c, inst.ref.value))
  {
    var s' := CloseInstance(s, c, ok);
    var closing := s.objs[c].instances[s.objs[c].closed];
    assert SlotOk(k, next, c, s.objs[c].closed, closing);
    forall b, j | b in s'.objs && s'.objs[b].closed <= j < |s'.objs[b].instances| && s'.objs[b].instances[j].ref.Some?
      ensures SlotApproved(k, s'.owner, s'.approved, s'.leaked, b, s'.objs[b].instances[j].ref.value)
    {
      var r := s.objs[b].instances[j].ref.value;
      assert SlotApproved(k, s.owner, s.approved, s.leaked, b, r);
      if closing.ref.Some? {
        assert SlotApproved(k, s.owner, s.approved, s.leaked, c, closing.ref.value);
        if b == c {
          assert SlotOk(k, next, c, j, s.objs[c].instances[j]);
        }
      }
    }
  }

  lemma CloseApproved(k: nat, next: int, s: Session, c: Cid, ok: bool)
    requires Closing(k, next, s, c)
    ensures var s' := CloseInstance(s, c, ok); ApprovedOk(k, s'.approved, s'.open, s'.leaked, s'.ser, s'.objs, s'.owner)
  {
    var s' := CloseInstance(s, c, ok);
    var at := s.objs[c].closed;
    assert SlotOk(k, next, c, at, s.objs[c].instances[at]);
    forall i, r | 0 <= i <= k && r in s'.approved[i]
      ensures r.part == i && r in s'.open && (r in s'.leaked || InWindow(s'.ser, r) || Owned(s'.objs, s'.owner, r))
    {
      assert r in s.approved[i];
      if Owned(s.objs, s.owner, r) && s.owner[r] == c && SlotIndex(c.name, i) == at {
        assert s.objs[c].instances[at] == Instance(i, Some(r));
      }
    }
  }

  lemma CloseSparesOthers(k: nat, next: int, s: Session, c: Cid, ok: bool)
    requires Closing(k, next, s, c)
    ensures var objs := CloseInstance(s, c, ok).objs;
      ShapesOk(k, next, objs, s.gens) && HeldIntact(objs, s.index, s.gc, s.ser, s.holds) && HoldsOk(k, objs, s.holds)
  {
    hide SlotsApproved, ApprovedOk, WindowOk, LeakedOk, SlotOk;
    var objs := CloseInstance(s, c, ok).objs;
    assert ShapeOk(k, next, c, s.objs[c]) && ShapeOk(k, next, c, objs[c]);
    assert forall b | Intact(s.objs, b) && b != c :: Intact(objs, b);
  }

  lemma CloseKeepsHandles(k: nat, next: int, s: Session, c: Cid, ok: bool)
    requires Closing(k, next, s, c)
    ensures Ownership(k, next, CloseInstance(s, c, ok))
  {
    hide ShapesOk, HeldIntact, HoldsOk, SlotsApproved, ApprovedOk;
    CloseSparesOthers(k, next, s, c, ok);
    CloseSlots(k, next, s, c, ok);
    CloseApproved(k, next, s, c, ok);
  }

  lemma UnheldIsDeleted(k: nat, d: Disk, s: Session, c: Cid)
    requires Core(k, d, s) && c in s.objs && !Held(s, c)
    ensures s.objs[c].deleted && NamedByKey(s)
  {
  }

  lemma FreeKeepsNames(k: nat, d: Disk, s: Session, c: Cid)
    requires Core(k, d, s) && c in s.objs && !Held(s, c)
    ensures Core(k, d, s.(objs := s.objs - {c}))
  {
    hide DiskOk, EntryOk, UnindexedOk;
    assert s.objs[c].deleted;
  }

}
