/** Which handles the engines accept, and why none is used after it was closed. */
module Fencing {
  import opened Types
  import opened Lifecycle
  import opened Invariant
  import opened Runs

  /** Object c still has handle r in its slot for partition i. */
  ghost predicate HasHandle(s: Session, c: Cid, i: nat, r: Ref) {
    && c in s.objs
    && s.objs[c].closed <= SlotIndex(c.name, i) < |s.objs[c].instances|
    && s.objs[c].instances[SlotIndex(c.name, i)] == Instance(i, Some(r))
  }

  /** A handle the program let go of although destroying it failed. */
  predicate Leaked(s: Session, i: nat, r: Ref) {
    r in s.leaked && r.part == i
  }

  /** Put up for a container that is approved slot by slot and indexed right after. */
  predicate AboutToBeIndexed(s: Session, i: nat, r: Ref) {
    r.part == i && InWindow(s.ser, r)
  }

  /** In every session of every run the approved set of each engine is exactly the handles of its
      partition that container objects have, are about to have, or failed to give back. */
  lemma ApprovedExactly(ws: seq<World>, acts: seq<Action>, j: nat, i: nat, r: Ref)
    requires Run(ws, acts) && j < |ws| && ws[j].mode.Up? && i <= ws[j].k
    ensures i < |ws[j].mode.s.approved|
    ensures var s := ws[j].mode.s;
      r in s.approved[i] <==> Leaked(s, i, r) || AboutToBeIndexed(s, i, r) || exists c :: HasHandle(s, c, i, r)
  {
    InvariantAt(ws, acts, j);
    var w := ws[j];
    var s := w.mode.s;
    if r in s.approved[i] && Owned(s.objs, s.owner, r) {
      assert HasHandle(s, s.owner[r], i, r);
    }
    if exists c :: HasHandle(s, c, i, r) {
      var c :| HasHandle(s, c, i, r);
      HandleApproved(w.k, w.disk, s, c, i, r);
    }
  }

  lemma HandleApproved(k: nat, d: Disk, s: Session, c: Cid, i: nat, r: Ref)
    requires Good(k, d, s) && HasHandle(s, c, i, r)
    ensures r.part == i && i <= k && r in s.approved[i] && r in s.open && s.owner[r] == c
    ensures forall j | 0 <= j <= k && r in s.approved[j] :: j == i
  {
    var j := SlotIndex(c.name, i);
    assert ShapeOk(k, d.next, c, s.objs[c]);
    assert SlotOk(k, d.next, c, j, s.objs[c].instances[j]);
    assert SlotApproved(k, s.owner, s.approved, s.leaked, c, s.objs[c].instances[j].ref.value);
  }

  /** Slot i of a live data container has the handle of the container's family on partition i, approved by engine i
      and by no other. */
  lemma LiveIsFenced(ws: seq<World>, acts: seq<Action>, j: nat, n: Name, i: nat)
    requires Run(ws, acts) && j < |ws| && ws[j].mode.Up? && i < ws[j].k
    requires Live(ws[j].mode.s.index, ws[j].mode.s.objs, n) && !Reserved(n)
    ensures var s := ws[j].mode.s; var o := s.objs[s.index[n]];
      && |o.instances| == ws[j].k && |s.approved| == ws[j].k + 1
      && o.instances[i].part == i && i < |ws[j].disk.cfs| && n in ws[j].disk.cfs[i]
      && o.instances[i].ref == Some(Ref(i, n, ws[j].disk.cfs[i][n]))
      && forall e | 0 <= e <= ws[j].k :: o.instances[i].ref.value in s.approved[e] <==> e == i
  {
    InvariantAt(ws, acts, j);
    var k, d, s := ws[j].k, ws[j].disk, ws[j].mode.s;
    var c := s.index[n];
    assert EntryOk(k, d.cfs, n, s.objs[c]) && OnEvery(k, d.cfs, n) && n in d.cfs[i];
    assert ShapeOk(k, d.next, c, s.objs[c]);
    assert SlotOk(k, d.next, c, i, s.objs[c].instances[i]);
    HandleApproved(k, d, s, c, i, s.objs[c].instances[i].ref.value);
  }

  /** As long as anybody holds a container, by the index, a bucket snapshot, the serializer or a
      task, every handle in it is open and approved by its engine. */
  lemma HeldHandlesAreOpen(ws: seq<World>, acts: seq<Action>, j: nat, c: Cid, slot: nat)
    requires Run(ws, acts) && j < |ws| && ws[j].mode.Up? && Held(ws[j].mode.s, c)
    ensures c in ws[j].mode.s.objs
    ensures var s := ws[j].mode.s; slot < |s.objs[c].instances| && s.objs[c].instances[slot].ref.Some? ==>
      var inst := s.objs[c].instances[slot];
      inst.ref.value in s.open && Fence(s, inst.part, inst.ref)
  {
    InvariantAt(ws, acts, j);
    var k, d, s := ws[j].k, ws[j].disk, ws[j].mode.s;
    assert Intact(s.objs, c);
    if slot < |s.objs[c].instances| && s.objs[c].instances[slot].ref.Some? {
      var inst := s.objs[c].instances[slot];
      assert ShapeOk(k, d.next, c, s.objs[c]);
      assert SlotOk(k, d.next, c, slot, inst);
      assert HasHandle(s, c, inst.part, inst.ref.value) by {
        assert SlotIndex(c.name, inst.part) == slot;
      }
      HandleApproved(k, d, s, c, inst.part, inst.ref.value);
    }
  }

  /** A task in the engine uses an open handle of its own container's family on its own partition, and a queued
      task on a data container is not turned away, whatever the collector has dropped and taken out meanwhile. */
  lemma NoUseAfterClose(ws: seq<World>, acts: seq<Action>, j: nat, t: nat)
    requires Run(ws, acts) && j < |ws| && ws[j].mode.Up? && t in ws[j].mode.s.holds
    ensures var s := ws[j].mode.s; var h := s.holds[t];
      && h.cid in s.objs
      && (h.stage.InEngine? || (h.stage.Queued? && !Reserved(h.cid.name)) ==>
            && h.stage.part < ws[j].k && h.stage.part < |s.objs[h.cid].instances|
            && var inst := s.objs[h.cid].instances[h.stage.part];
               && inst.part == h.stage.part && Fence(s, h.stage.part, inst.ref) && inst.ref.value in s.open
               && inst.ref.value.part == h.stage.part && inst.ref.value.name == h.cid.name)
  {
    InvariantAt(ws, acts, j);
    var k, d, s := ws[j].k, ws[j].disk, ws[j].mode.s;
    var h := s.holds[t];
    assert Held(s, h.cid);
    assert Intact(s.objs, h.cid) && TaskOk(k, h.cid, s.objs[h.cid], h.stage);
    if h.stage.InEngine? || (h.stage.Queued? && !Reserved(h.cid.name)) {
      HeldHandlesAreOpen(ws, acts, j, h.cid, h.stage.part);
      assert ShapeOk(k, d.next, h.cid, s.objs[h.cid]);
      assert SlotOk(k, d.next, h.cid, h.stage.part, s.objs[h.cid].instances[h.stage.part]);
    }
  }

  /** A task on a reserved container never gets into an engine: partition 0's fence turns it away and
      the other partitions have no slot for it. */
  lemma ReservedNeverEnters(ws: seq<World>, acts: seq<Action>, j: nat, t: nat)
    requires Run(ws, acts) && j < |ws| && ws[j].mode.Up? && t in ws[j].mode.s.holds
    requires Reserved(ws[j].mode.s.holds[t].cid.name)
    ensures !ws[j].mode.s.holds[t].stage.InEngine?
  {
    InvariantAt(ws, acts, j);
    assert Intact(ws[j].mode.s.objs, ws[j].mode.s.holds[t].cid);
  }

  lemma CloseGivesBackOwn(k: nat, d: Disk, s: Session, a: Action, r: Ref)
    requires Good(k, d, s) && a.CloseNext? && EnabledHolder(k, s, a)
    requires r in s.open && r !in StepHolder(k, s, a).open
    ensures a.ok && a.cid in s.objs && !Held(s, a.cid) && HasHandle(s, a.cid, r.part, r)
  {
    hide Core, Held;
    var at := s.objs[a.cid].closed;
    assert ShapeOk(k, d.next, a.cid, s.objs[a.cid]);
    assert SlotOk(k, d.next, a.cid, at, s.objs[a.cid].instances[at]);
  }

  /** Handles are given back only by the destructor of an object nobody holds. */
  lemma ClosedOnlyUnheld(ws: seq<World>, acts: seq<Action>, j: nat, r: Ref)
    requires Run(ws, acts) && j + 1 < |ws| && ws[j].mode.Up? && ws[j + 1].mode.Up?
    requires r in ws[j].mode.s.open && r !in ws[j + 1].mode.s.open
    ensures acts[j].CloseNext? && acts[j].ok && acts[j].cid in ws[j].mode.s.objs && !Held(ws[j].mode.s, acts[j].cid)
    ensures HasHandle(ws[j].mode.s, acts[j].cid, r.part, r)
  {
    hide Inv, Good, Held, HasHandle, StepHolder, StepBoot, StepSerializer, StepCollector, EnabledHolder;
    InvariantAt(ws, acts, j);
    assert StepAt(ws, acts, j);
    InvIsGood(ws[j]);
    if acts[j].CloseNext? {
      CloseGivesBackOwn(ws[j].k, ws[j].disk, ws[j].mode.s, acts[j], r);
    } else {
      OpenGrows(ws[j], acts[j]);
    }
  }

  lemma OpenGrows(w: World, a: Action)
    requires w.mode.Up? && Enabled(w, a) && Step(w, a).mode.Up? && !a.CloseNext?
    ensures w.mode.s.open <= Step(w, a).mode.s.open
  {
    if SerializerAction(a) {
      assert Step(w, a).mode.s == StepSerializer(w.k, w.disk, w.mode.s, a).1;
    } else if CollectorAction(a) {
      assert Step(w, a).mode.s == StepCollector(w.k, w.disk, w.mode.s, a).1;
    } else {
      assert Step(w, a).mode.s == StepHolder(w.k, w.mode.s, a);
    }
  }
}
