/** What clients are told: where the answer to an object request and to a create or remove comes from. */
module Answers {
  import opened Types
  import opened Lifecycle
  import opened Invariant
  import opened Runs
  import L = Limits
  import D = Durability

  // ---------------------------------------------------------------- object requests, forwards

  predicate HasHold(w: World, t: nat, h: Hold) {
    w.mode.Up? && t in w.mode.s.holds && w.mode.s.holds[t] == h
  }

  /** The session with task t at the stage, and otherwise as it was. */
  function AtStage(s: Session, t: nat, c: Cid, st: Stage): Session {
    s.(holds := s.holds[t := Hold(c, st)])
  }

  /** The action leads task t to the stage, and changes nothing else. */
  ghost predicate LeadsTo(w: World, a: Action, t: nat, c: Cid, st: Stage) {
    w.mode.Up? && Enabled(w, a) && Step(w, a) == World(w.k, w.disk, Up(AtStage(w.mode.s, t, c, st)))
  }

  lemma Leads(k: nat, d: Disk, s: Session, a: Action, t: nat, c: Cid, st: Stage)
    requires |d.cfs| == k + 1 && HolderAction(a) && EnabledHolder(k, s, a)
    requires StepHolder(k, s, a) == AtStage(s, t, c, st)
    ensures LeadsTo(World(k, d, Up(s)), a, t, c, st)
  {
    hide StepHolder, EnabledHolder;
    HolderMove(k, d, s, a);
  }

  lemma HeldObject(k: nat, d: Disk, s: Session, t: nat)
    requires Good(k, d, s) && t in s.holds
    ensures |d.cfs| == k + 1 && s.holds[t].cid in s.objs
    ensures Intact(s.objs, s.holds[t].cid)
    ensures TaskOk(k, s.holds[t].cid, s.objs[s.holds[t].cid], s.holds[t].stage)
  {
    hide Core;
    GoodShape(k, d, s);
    assert Intact(s.objs, s.holds[t].cid);
  }

  /** A request that has looked its container up is queued on the partition it is routed to, or refused if the
      container is waiting for deletion by then. */
  lemma RequestIsRouted(w: World, t: nat, c: Cid, p: nat)
    requires Inv(w) && HasHold(w, t, Hold(c, LookedUp)) && p < w.k
    ensures c in w.mode.s.objs
    ensures LeadsTo(w, Route(t, p), t, c, if w.mode.s.objs[c].deleted then Answered(false) else Queued(p))
  {
    hide Good, Step, Enabled;
    InvIsGood(w);
    HeldObject(w.k, w.disk, w.mode.s, t);
    Leads(w.k, w.disk, w.mode.s, Route(t, p), t, c, if w.mode.s.objs[c].deleted then Answered(false) else Queued(p));
  }

  /** A queued task always gets into the engine of its partition, unless its container is one of the reserved,
      whatever has become of the container since. */
  lemma TaskIsAdmitted(w: World, t: nat, c: Cid, p: nat)
    requires Inv(w) && HasHold(w, t, Hold(c, Queued(p)))
    ensures !Reserved(c.name) ==> LeadsTo(w, PassFence(t), t, c, InEngine(p))
    ensures Reserved(c.name) && Enabled(w, PassFence(t)) ==> LeadsTo(w, PassFence(t), t, c, Answered(false))
  {
    hide Good, Step;
    InvIsGood(w);
    var k, d, s := w.k, w.disk, w.mode.s;
    HeldObject(k, d, s, t);
    if p < |s.objs[c].instances| {
      SlotFence(k, d, s, c, p);
      Leads(k, d, s, PassFence(t), t, c, if Reserved(c.name) then Answered(false) else InEngine(p));
    }
  }

  /** What the fence of engine p makes of the container's slot p. */
  lemma SlotFence(k: nat, d: Disk, s: Session, c: Cid, p: nat)
    requires Good(k, d, s) && Intact(s.objs, c) && p < k && p < |s.objs[c].instances|
    ensures Fence(s, p, s.objs[c].instances[p].ref) <==> s.objs[c].instances[p].ref.Some? && !Reserved(c.name)
  {
    hide Core, HeldIntact, WindowOk, NumbersOk, LeakedOk, HoldsOk;
    var inst := s.objs[c].instances[p];
    assert ShapeOk(k, d.next, c, s.objs[c]);
    assert SlotOk(k, d.next, c, p, inst);
    if inst.ref.Some? {
      assert SlotApproved(k, s.owner, s.approved, s.leaked, c, inst.ref.value);
    }
  }

  /** And what the engine answers is what the client is told. */
  lemma TaskIsAnswered(w: World, t: nat, c: Cid, p: nat, ok: bool)
    requires Inv(w) && HasHold(w, t, Hold(c, InEngine(p)))
    ensures LeadsTo(w, CallEngine(t, ok), t, c, Answered(ok))
  {
    hide Good, Step, Enabled;
    InvIsGood(w);
    HeldObject(w.k, w.disk, w.mode.s, t);
    Leads(w.k, w.disk, w.mode.s, CallEngine(t, ok), t, c, Answered(ok));
  }

  // ---------------------------------------------------------------- object requests, backwards

  /** What can bring a task to its stage: the action, and where the task was before it. */
  ghost predicate Brings(w: World, a: Action, t: nat, h: Hold) {
    && w.mode.Up?
    && var c, s := h.cid, w.mode.s;
       match h.stage
       case LookedUp => a == Acquire(t, c.name) && t !in s.holds && c.name in s.index && s.index[c.name] == c
       case Queued(p) => a == Route(t, p) && HasHold(w, t, Hold(c, LookedUp)) && c in s.objs && !s.objs[c].deleted
       case InEngine(p) => a == PassFence(t) && HasHold(w, t, Hold(c, Queued(p))) && !Reserved(c.name)
       case Answered(ok) =>
         && t in s.holds && s.holds[t].cid == c
         && (|| (a == CallEngine(t, ok) && s.holds[t].stage.InEngine?)
             || (!ok && a == PassFence(t) && s.holds[t].stage.Queued? && Reserved(c.name))
             || (!ok && a.Route? && a.task == t && s.holds[t].stage.LookedUp? && c in s.objs && s.objs[c].deleted))
  }

  lemma HolderBrings(k: nat, d: Disk, s: Session, a: Action, t: nat)
    requires Good(k, d, s) && HolderAction(a) && EnabledHolder(k, s, a) && t in StepHolder(k, s, a).holds
    ensures var h := StepHolder(k, s, a).holds[t]; var w := World(k, d, Up(s)); HasHold(w, t, h) || Brings(w, a, t, h)
  {
    hide Good, Held, RouteStage, Fence;
    if a == PassFence(t) {
      HeldObject(k, d, s, t);
      SlotFence(k, d, s, s.holds[t].cid, s.holds[t].stage.part);
    } else {
      hide FenceStage;
      IndexNames(k, d, s);
      if a.Route? { RouteBrings(k, d, s, a, t); }
    }
  }

  lemma RouteBrings(k: nat, d: Disk, s: Session, a: Action, t: nat)
    requires a.Route? && EnabledHolder(k, s, a) && t in s.holds
    ensures var h := StepHolder(k, s, a).holds[t]; var w := World(k, d, Up(s)); HasHold(w, t, h) || Brings(w, a, t, h)
  {
  }

  lemma IndexNames(k: nat, d: Disk, s: Session)
    requires Good(k, d, s)
    ensures forall n | n in s.index :: s.index[n].name == n
  {
    hide Ownership, EntryOk;
  }

  lemma StepBrings(w: World, a: Action, t: nat)
    requires Inv(w) && Clean(a) && Enabled(w, a) && Step(w, a).mode.Up? && t in Step(w, a).mode.s.holds
    ensures var h := Step(w, a).mode.s.holds[t]; HasHold(w, t, h) || Brings(w, a, t, h)
  {
    hide Good, Brings, Step, StepHolder, EnabledHolder, EnabledSerializer, EnabledCollector;
    if w.mode.Up? && HolderAction(a) {
      InvIsGood(w);
      HolderMove(w.k, w.disk, w.mode.s, a);
      HolderBrings(w.k, w.disk, w.mode.s, a, t);
    } else {
      OthersKeepHolds(w, a);
    }
  }

  lemma OthersKeepHolds(w: World, a: Action)
    requires Enabled(w, a) && Step(w, a).mode.Up? && !(w.mode.Up? && HolderAction(a))
    ensures Step(w, a).mode.s.holds == if w.mode.Up? then w.mode.s.holds else map[]
  {
    hide LoadedContainers, Loadable, EnabledHolder, StepHolder;
    if !w.mode.Up? {
      hide StepSerializer, StepCollector;
    } else if SerializerAction(a) {
      assert Step(w, a).mode.s == StepSerializer(w.k, w.disk, w.mode.s, a).1;
    } else if CollectorAction(a) {
      assert Step(w, a).mode.s == StepCollector(w.k, w.disk, w.mode.s, a).1;
    }
  }

  /** Since just after i, and up to j, the task is where it is at j. */
  ghost predicate HoldsSince(ws: seq<World>, i: nat, j: nat, t: nat, h: Hold) {
    i < j < |ws| && forall m | i < m <= j :: HasHold(ws[m], t, h)
  }

  /** Whatever stage a task is at, one action has brought it there from the stage before, and there it has been
      since. */
  lemma {:induction false} StageComesFrom(ws: seq<World>, acts: seq<Action>, j: nat, t: nat, h: Hold) returns (i: nat)
    requires Run(ws, acts) && j < |ws| && HasHold(ws[j], t, h)
    ensures i < |acts| && HoldsSince(ws, i, j, t, h) && Brings(ws[i], acts[i], t, h)
  {
    hide Inv, Enabled, Step, Brings;
    assert j > 0;
    i := j - 1;
    InvariantAt(ws, acts, i);
    assert StepAt(ws, acts, i);
    StepBrings(ws[i], acts[i], t);
    if HasHold(ws[i], t, h) {
      i := StageComesFrom(ws, acts, i, t, h);
    }
  }

  /** A client that is told of success has been through all of it: its container was looked up at a, by its name,
      and was live when the task was queued at b; the task came past the fence at c', and at e the engine of the
      partition it was queued on did what was asked. */
  lemma AcknowledgedWasExecuted(ws: seq<World>, acts: seq<Action>, j: nat, t: nat, c: Cid)
    returns (a: nat, b: nat, p: nat, f: nat, e: nat)
    requires Run(ws, acts) && j < |ws| && HasHold(ws[j], t, Hold(c, Answered(true)))
    ensures a < b < f < e < j <= |acts|
    ensures acts[a] == Acquire(t, c.name) && ws[a].mode.Up? && c.name in ws[a].mode.s.index
      && ws[a].mode.s.index[c.name] == c
    ensures HoldsSince(ws, a, b, t, Hold(c, LookedUp)) && acts[b] == Route(t, p)
      && c in ws[b].mode.s.objs && !ws[b].mode.s.objs[c].deleted
    ensures HoldsSince(ws, b, f, t, Hold(c, Queued(p))) && acts[f] == PassFence(t)
    ensures HoldsSince(ws, f, e, t, Hold(c, InEngine(p))) && acts[e] == CallEngine(t, true)
    ensures HoldsSince(ws, e, j, t, Hold(c, Answered(true)))
  {
    hide Run;
    e := StageComesFrom(ws, acts, j, t, Hold(c, Answered(true)));
    p := ws[e].mode.s.holds[t].stage.part;
    f := StageComesFrom(ws, acts, e, t, Hold(c, InEngine(p)));
    b := StageComesFrom(ws, acts, f, t, Hold(c, Queued(p)));
    a := StageComesFrom(ws, acts, b, t, Hold(c, LookedUp));
    assert j <= |acts| by { RunLength(ws, acts); }
  }

  lemma RunLength(ws: seq<World>, acts: seq<Action>)
    requires Run(ws, acts)
    ensures |ws| == |acts| + 1
  {
  }

  /** And one that is told of failure was refused for one of three reasons: its container was waiting for deletion
      when it was to be queued, or is one of the reserved, or the engine said so. */
  lemma RefusedForAReason(ws: seq<World>, acts: seq<Action>, j: nat, t: nat, c: Cid) returns (i: nat)
    requires Run(ws, acts) && j < |ws| && HasHold(ws[j], t, Hold(c, Answered(false)))
    ensures i < |acts| && HoldsSince(ws, i, j, t, Hold(c, Answered(false)))
    ensures ws[i].mode.Up? && t in ws[i].mode.s.holds && ws[i].mode.s.holds[t].cid == c
    ensures
      || (acts[i].Route? && acts[i].task == t && c in ws[i].mode.s.objs && ws[i].mode.s.objs[c].deleted)
      || (acts[i] == PassFence(t) && Reserved(c.name))
      || (acts[i] == CallEngine(t, false) && ws[i].mode.s.holds[t].stage.InEngine?)
  {
    i := StageComesFrom(ws, acts, j, t, Hold(c, Answered(false)));
  }

  // ---------------------------------------------------------------- creates and removes

  /** A create is answered by the first thing that stands in its way: an entry of the name, live or waiting for
      deletion; a partition that fails or has a family of the name; the record. Nothing else ever does. */
  lemma CreationGoesOn(k: nat, d: Disk, s: Session, a: Action)
    requires Good(k, d, s) && SerializerAction(a) && EnabledSerializer(k, s, a) && |d.cfs| == k + 1
    ensures var ser := StepSerializer(k, d, s, a).1.ser; a.BeginCreate? ==>
      && (Live(s.index, s.objs, a.name) ==> ser == Replying(Create, a.name, ContainerAlreadyExists))
      && (SoftDeleted(s.index, s.objs, a.name) ==> ser == Replying(Create, a.name, ContainerInDeletionProcess))
      && (a.name !in s.index ==> ser == Creating(a.name, []))
    ensures var ser := StepSerializer(k, d, s, a).1.ser; a.CreateFamily? ==>
      var n, refs := s.ser.name, s.ser.refs;
      && |refs| < k
      && ser == if a.ok && n !in d.cfs[|refs|] then Creating(n, refs + [Ref(|refs|, n, d.next)])
                else Replying(Create, n, ContainerCreationFailed)
    ensures var ser := StepSerializer(k, d, s, a).1.ser; a.PutRecord? ==>
      var n, refs := s.ser.name, s.ser.refs;
      ser == if a.ok then Approving(n, refs, 0) else Replying(Create, n, ObjectInsertionFailed)
    ensures var ser := StepSerializer(k, d, s, a).1.ser;
      && (a.Approve? ==> ser.Approving? || ser == CheckingIndex(s.ser.name, s.ser.refs))
      && (a.CheckIndex? ==> ser == Inserting(s.ser.name, s.ser.refs))
      && (a.InsertEntry? ==> ser == CountingUp(s.ser.name))
      && (a.CountUp? ==> ser == Replying(Create, s.ser.name, Success))
  {
    hide Ownership, DiskOk, EntryOk, RecordsOk, CollectorOk, UnindexedOk, CountOk, MetadataEntriesOk;
    if a.PutRecord? {
      hide Good;
      L.MetadataWritable(k, d, s);
    } else {
      hide HasMetadataRef, MetadataWriteStatus, SlotsOfRefs, AddFamily;
    }
  }

  /** And a remove by its name not being live, or by its record; after that it succeeds. */
  lemma RemovalGoesOn(k: nat, d: Disk, s: Session, a: Action)
    requires Good(k, d, s) && SerializerAction(a) && EnabledSerializer(k, s, a) && |d.cfs| == k + 1
    ensures var ser := StepSerializer(k, d, s, a).1.ser; a.BeginRemove? ==>
      ser == if Live(s.index, s.objs, a.name) then Removing(a.name) else Replying(Remove, a.name, ContainerNotExists)
    ensures var ser := StepSerializer(k, d, s, a).1.ser; a.DeleteRecord? ==>
      ser == if a.ok then LookingUp(s.ser.name) else Replying(Remove, s.ser.name, ObjectDeletionFailed)
    ensures var ser := StepSerializer(k, d, s, a).1.ser;
      && (a.LookUp? ==> s.ser.name in s.index && ser == Marking(s.ser.name, s.index[s.ser.name]))
      && (a.MarkDeleted? ==> ser == Replying(Remove, s.ser.name, Success))
      && (a.Reply? ==> ser == SerIdle)
  {
    hide Ownership, DiskOk, EntryOk, RecordsOk, CollectorOk, UnindexedOk, CountOk, MetadataEntriesOk;
    if a.DeleteRecord? {
      hide Good;
      L.MetadataWritable(k, d, s);
    } else {
      hide HasMetadataRef, MetadataWriteStatus, SlotsOfRefs, AddFamily;
    }
  }

  /** The one action that can have given a request the answer, and where the request was before it. */
  ghost predicate Answers(w: World, a: Action, op: ContainerOp, n: Name, st: Status) {
    && w.mode.Up? && |w.disk.cfs| == w.k + 1
    && var s, cfs := w.mode.s, w.disk.cfs;
       if a.BeginCreate? then
         op.Create? && a.name == n && st == (if Live(s.index, s.objs, n) then ContainerAlreadyExists
                                             else ContainerInDeletionProcess) && n in s.index
       else if a.CreateFamily? then
         && op.Create? && s.ser.Creating? && s.ser.name == n && |s.ser.refs| < w.k && st == ContainerCreationFailed
         && (!a.ok || n in cfs[|s.ser.refs|])
       else if a.PutRecord? then
         op.Create? && s.ser.Creating? && s.ser.name == n && |s.ser.refs| == w.k && !a.ok && st == ObjectInsertionFailed
       else if a.CountUp? then op.Create? && s.ser == CountingUp(n) && st == Success
       else if a.BeginRemove? then
         op.Remove? && a.name == n && !Live(s.index, s.objs, n) && st == ContainerNotExists
       else if a.DeleteRecord? then op.Remove? && s.ser == Removing(n) && !a.ok && st == ObjectDeletionFailed
       else a.MarkDeleted? && op.Remove? && s.ser.Marking? && s.ser.name == n && st == Success
  }

  lemma SerializerAnswers(k: nat, d: Disk, s: Session, a: Action, op: ContainerOp, n: Name, st: Status)
    requires Good(k, d, s) && SerializerAction(a) && EnabledSerializer(k, s, a) && |d.cfs| == k + 1
    requires StepSerializer(k, d, s, a).1.ser == Replying(op, n, st)
    ensures Answers(World(k, d, Up(s)), a, op, n, st)
  {
    hide Good, StepSerializer, HasMetadataRef;
    CreationGoesOn(k, d, s, a);
    RemovalGoesOn(k, d, s, a);
    InIndex(k, d, s);
  }

  lemma InIndex(k: nat, d: Disk, s: Session)
    requires Good(k, d, s)
    ensures forall n | n in s.index :: Live(s.index, s.objs, n) || SoftDeleted(s.index, s.objs, n)
  {
    hide Ownership, EntryOk;
  }

  lemma StepAnswers(w: World, a: Action, op: ContainerOp, n: Name, st: Status)
    requires Inv(w) && Clean(a) && Enabled(w, a) && D.Answering(Step(w, a), op, n, st)
    ensures D.Answering(w, op, n, st) || Answers(w, a, op, n, st)
  {
    hide Good, Answers, StepSerializer, StepBoot, EnabledHolder, EnabledSerializer, EnabledCollector, LoadedContainers;
    if w.mode.Up? && SerializerAction(a) {
      InvIsGood(w);
      SerializerAnswers(w.k, w.disk, w.mode.s, a, op, n, st);
    } else {
      OthersAnswerNothing(w, a);
    }
  }

  lemma OthersAnswerNothing(w: World, a: Action)
    requires Enabled(w, a) && Step(w, a).mode.Up? && !(w.mode.Up? && SerializerAction(a))
    ensures Step(w, a).mode.s.ser == if w.mode.Up? then w.mode.s.ser else SerIdle
  {
    hide LoadedContainers, Loadable, EnabledSerializer, StepSerializer;
    if !w.mode.Up? {
      hide StepHolder, StepCollector;
    } else if HolderAction(a) {
      assert Step(w, a).mode.s == StepHolder(w.k, w.mode.s, a);
    } else if CollectorAction(a) {
      assert Step(w, a).mode.s == StepCollector(w.k, w.disk, w.mode.s, a).1;
    }
  }

  /** Whatever a client is told about its create or remove, one action of the serializer is the reason, and the
      answer is the right one for it. */
  lemma {:induction false} AnswerComesFrom(ws: seq<World>, acts: seq<Action>, j: nat, op: ContainerOp, n: Name,
                                           st: Status)
    returns (i: nat)
    requires Run(ws, acts) && j < |ws| && D.Answering(ws[j], op, n, st)
    ensures i < j && i < |acts| && Answers(ws[i], acts[i], op, n, st)
    ensures forall m | i < m <= j :: D.Answering(ws[m], op, n, st)
  {
    hide Inv, Enabled, Step, Answers;
    assert j > 0;
    i := j - 1;
    InvariantAt(ws, acts, i);
    assert StepAt(ws, acts, i);
    StepAnswers(ws[i], acts[i], op, n, st);
    if D.Answering(ws[i], op, n, st) {
      i := AnswerComesFrom(ws, acts, i, op, n, st);
    }
  }
}
