/** What becomes of the handles of a container nobody holds any more. */
module Destructors {
  import opened Types
  import opened Lifecycle
  import opened Invariant
  import opened Runs

  // ---------------------------------------------------------------- one handle

  /** The destructor comes to handle r of object c. */
  ghost predicate Closes(s: Session, a: Action, r: Ref) {
    && a.CloseNext? && a.cid in s.objs && s.objs[a.cid].closed < |s.objs[a.cid].instances|
    && s.objs[a.cid].instances[s.objs[a.cid].closed].ref == Some(r)
  }

  /** If the engine destroys the handle it is open no longer and no engine accepts it; if it fails to, the handle
      stays as it was and is let go of. */
  lemma CloseGivesBack(k: nat, d: Disk, s: Session, a: Action, r: Ref)
    requires Good(k, d, s) && HolderAction(a) && EnabledHolder(k, s, a) && Closes(s, a, r)
    ensures var s' := StepHolder(k, s, a);
      if a.ok then
        && s'.open == s.open - {r} && s'.leaked == s.leaked
        && forall i | 0 <= i < |s.approved| :: i < |s'.approved| && s'.approved[i] == s.approved[i] - {r}
      else s'.open == s.open && s'.approved == s.approved && s'.leaked == s.leaked + {r}
  {
    hide Good, Held;
    NextHandle(k, d, s, a.cid, r);
  }

  lemma NextHandle(k: nat, d: Disk, s: Session, c: Cid, r: Ref)
    requires Good(k, d, s) && c in s.objs && s.objs[c].closed < |s.objs[c].instances|
    requires s.objs[c].instances[s.objs[c].closed].ref == Some(r)
    ensures |s.approved| == k + 1 && r in s.open && r.part == s.objs[c].instances[s.objs[c].closed].part <= k
    ensures forall i | 0 <= i <= k :: r in s.approved[i] <==> i == r.part
  {
    hide Core;
    var at := s.objs[c].closed;
    assert ShapeOk(k, d.next, c, s.objs[c]);
    assert SlotOk(k, d.next, c, at, s.objs[c].instances[at]);
    assert SlotApproved(k, s.owner, s.approved, s.leaked, c, r);
  }

  /** The engines have handed r out, and it is no longer open. */
  predicate Closed(w: World, r: Ref) {
    w.mode.Up? && r.cf < w.disk.next && r !in w.mode.s.open
  }

  lemma SerializerReopensNothing(k: nat, d: Disk, s: Session, a: Action, r: Ref)
    requires SerializerAction(a) && EnabledSerializer(k, s, a) && |d.cfs| == k + 1 && Closed(World(k, d, Up(s)), r)
    ensures var (d', s') := StepSerializer(k, d, s, a); Closed(World(k, d', Up(s')), r)
  {
    hide MetadataWriteStatus, HasMetadataRef, ExistenceStatus, SlotsOfRefs;
  }

  lemma ReopensNothing(w: World, a: Action, r: Ref)
    requires Enabled(w, a) && Step(w, a).mode.Up? && Closed(w, r)
    ensures Closed(Step(w, a), r)
  {
    hide StepSerializer, EnabledSerializer, EnabledCollector, StepCollector, StepHolder, StepBoot, Held;
    if SerializerAction(a) {
      SerializerReopensNothing(w.k, w.disk, w.mode.s, a, r);
    } else if CollectorAction(a) {
      CollectorReopensNothing(w.k, w.disk, w.mode.s, a, r);
    } else {
      HolderReopensNothing(w.k, w.disk, w.mode.s, a, r);
    }
  }

  lemma CollectorReopensNothing(k: nat, d: Disk, s: Session, a: Action, r: Ref)
    requires CollectorAction(a) && EnabledCollector(k, s, a) && |d.cfs| == k + 1 && Closed(World(k, d, Up(s)), r)
    ensures var (d', s') := StepCollector(k, d, s, a); Closed(World(k, d', Up(s')), r)
  {
  }

  lemma HolderReopensNothing(k: nat, d: Disk, s: Session, a: Action, r: Ref)
    requires HolderAction(a) && EnabledHolder(k, s, a) && Closed(World(k, d, Up(s)), r)
    ensures Closed(World(k, d, Up(StepHolder(k, s, a))), r)
  {
  }

  /** A handle that was closed is open at no later point of the session, and no engine accepts it. */
  lemma {:induction false} ClosedForGood(ws: seq<World>, acts: seq<Action>, i: nat, j: nat, r: Ref)
    requires Run(ws, acts) && i <= j < |ws| && Closed(ws[i], r) && forall m | i <= m <= j :: ws[m].mode.Up?
    ensures Closed(ws[j], r) && forall e | 0 <= e < |ws[j].mode.s.approved| :: r !in ws[j].mode.s.approved[e]
  {
    hide Enabled, Step, Closed;
    if i < j {
      ClosedForGood(ws, acts, i, j - 1, r);
      assert StepAt(ws, acts, j - 1) && ws[j].mode.Up?;
      ReopensNothing(ws[j - 1], acts[j - 1], r);
    }
    InvariantAt(ws, acts, j);
    InvIsGood(ws[j]);
    hide Inv, Run;
    ApprovedAreOpen(ws[j].k, ws[j].disk, ws[j].mode.s, r);
  }

  lemma ApprovedAreOpen(k: nat, d: Disk, s: Session, r: Ref)
    requires Good(k, d, s)
    ensures Closed(World(k, d, Up(s)), r) ==> forall e | 0 <= e < |s.approved| :: r !in s.approved[e]
  {
    hide Core;
  }

  // ---------------------------------------------------------------- all handles of an object

  /** Whatever some object took and is still open, its engine accepts; `owner` says who took what. */
  ghost predicate TakenAccepted(s: Session) {
    forall r | r in s.owner && r in s.open :: r.part < |s.approved| && r in s.approved[r.part]
  }

  /** What was taken stays taken. */
  ghost predicate TakenStays(s: Session, s': Session) {
    forall r | r in s.owner :: r in s'.owner && s'.owner[r] == s.owner[r]
  }

  lemma InsertTakes(k: nat, d: Disk, s: Session)
    requires Good(k, d, s) && TakenAccepted(s) && s.ser.Inserting?
    ensures TakenAccepted(InsertNew(s)) && TakenStays(s, InsertNew(s))
  {
    hide Core, ShapesOk, SlotsApproved, ApprovedOk, LeakedOk, HoldsOk, HeldIntact;
    forall r | r in s.ser.refs
      ensures r !in s.owner && r.part < |s.approved| && r in s.approved[r.part]
    {
      var i :| 0 <= i < |s.ser.refs| && s.ser.refs[i] == r;
      assert InWindow(s.ser, r);
    }
  }

  lemma CreateTakes(k: nat, d: Disk, s: Session, r: Ref)
    requires Good(k, d, s) && TakenAccepted(s) && s.ser.Creating? && r.cf == d.next
    ensures TakenAccepted(TakeHandle(s, r)) && TakenStays(s, TakeHandle(s, r))
  {
    hide Core, ShapesOk, SlotsApproved, ApprovedOk, LeakedOk, HoldsOk, HeldIntact, WindowOk;
  }

  lemma SerializerTakes(k: nat, d: Disk, s: Session, a: Action)
    requires Good(k, d, s) && TakenAccepted(s) && SerializerAction(a) && EnabledSerializer(k, s, a) && |d.cfs| == k + 1
    ensures var s' := StepSerializer(k, d, s, a).1; TakenAccepted(s') && TakenStays(s, s')
  {
    hide Good, MetadataWriteStatus, HasMetadataRef, ExistenceStatus, SlotsOfRefs, AddFamily, InsertNew, TakeHandle;
    if a.InsertEntry? {
      InsertTakes(k, d, s);
    } else if a.CreateFamily? {
      CreateTakes(k, d, s, Ref(|s.ser.refs|, s.ser.name, d.next));
    } else {
      hide StepSerializer, EnabledSerializer;
      OthersTakeNothing(k, d, s, a);
    }
  }

  /** Taken by nobody, closed by nobody, and nothing less is approved. */
  predicate TakesNothing(s: Session, s': Session) {
    && s'.owner == s.owner && s'.open == s.open && |s'.approved| == |s.approved|
    && forall i | 0 <= i < |s.approved| :: s.approved[i] <= s'.approved[i]
  }

  lemma OthersTakeNothing(k: nat, d: Disk, s: Session, a: Action)
    requires SerializerAction(a) && EnabledSerializer(k, s, a) && |d.cfs| == k + 1
    requires !a.InsertEntry? && !a.CreateFamily?
    ensures TakesNothing(s, StepSerializer(k, d, s, a).1)
  {
    if a.PutRecord? || a.DeleteRecord? || a.LookUp? || a.CheckIndex? {
      hide StepSerializer, EnabledSerializer, TakesNothing;
      RecordTakesNothing(k, d, s, a);
    } else {
      hide MetadataWriteStatus, HasMetadataRef, ExistenceStatus, SlotsOfRefs, AddFamily, InsertNew, TakeHandle;
    }
  }

  lemma RecordTakesNothing(k: nat, d: Disk, s: Session, a: Action)
    requires a.PutRecord? || a.DeleteRecord? || a.LookUp? || a.CheckIndex?
    requires EnabledSerializer(k, s, a) && |d.cfs| == k + 1
    ensures TakesNothing(s, StepSerializer(k, d, s, a).1)
  {
    hide MetadataWriteStatus, HasMetadataRef, AddFamily, InsertNew, TakeHandle, ApproveNext, MarkObject, BeginCreation;
  }

  lemma HolderTakes(k: nat, d: Disk, s: Session, a: Action)
    requires Good(k, d, s) && TakenAccepted(s) && HolderAction(a) && EnabledHolder(k, s, a)
    ensures var s' := StepHolder(k, s, a); TakenAccepted(s') && TakenStays(s, s')
  {
    hide Good, Held;
    if a.CloseNext? {
      var o := s.objs[a.cid];
      if o.instances[o.closed].ref.Some? { CloseGivesBack(k, d, s, a, o.instances[o.closed].ref.value); }
    }
  }

  lemma BootTakes(k: nat, d: Disk)
    requires |d.cfs| == k + 1
    ensures TakenAccepted(FirstSession(k, d))
  {
    hide LoadedContainers, LoadedObjs;
  }

  lemma Takes(w: World, a: Action)
    requires Inv(w) && Clean(a) && Enabled(w, a) && Step(w, a).mode.Up? && (w.mode.Up? ==> TakenAccepted(w.mode.s))
    ensures TakenAccepted(Step(w, a).mode.s) && (w.mode.Up? ==> TakenStays(w.mode.s, Step(w, a).mode.s))
  {
    hide Good, StepSerializer, StepHolder, EnabledSerializer, EnabledHolder, EnabledCollector, FirstSession,
      TakenAccepted;
    if !w.mode.Up? {
      BootTakes(w.k, w.disk);
    } else if SerializerAction(a) {
      InvIsGood(w);
      SerializerTakes(w.k, w.disk, w.mode.s, a);
    } else if CollectorAction(a) {
      CollectorTakes(w.k, w.disk, w.mode.s, a);
    } else {
      InvIsGood(w);
      HolderTakes(w.k, w.disk, w.mode.s, a);
    }
  }

  lemma CollectorTakes(k: nat, d: Disk, s: Session, a: Action)
    requires TakenAccepted(s) && CollectorAction(a) && EnabledCollector(k, s, a) && |d.cfs| == k + 1
    ensures var s' := StepCollector(k, d, s, a).1; TakenAccepted(s') && TakenStays(s, s')
  {
  }

  lemma {:induction false} TakenAt(ws: seq<World>, acts: seq<Action>, j: nat)
    requires Run(ws, acts) && j < |ws|
    ensures ws[j].mode.Up? ==> TakenAccepted(ws[j].mode.s)
  {
    hide Inv, Enabled, Step, TakenAccepted;
    if j > 0 {
      TakenAt(ws, acts, j - 1);
      InvariantAt(ws, acts, j - 1);
      assert StepAt(ws, acts, j - 1);
      if ws[j].mode.Up? { Takes(ws[j - 1], acts[j - 1]); }
    }
  }

  lemma {:induction false} TakenAlong(ws: seq<World>, acts: seq<Action>, i: nat, j: nat)
    requires Run(ws, acts) && i <= j < |ws| && forall m | i <= m <= j :: ws[m].mode.Up?
    ensures TakenStays(ws[i].mode.s, ws[j].mode.s)
  {
    hide Inv, Enabled, Step, TakenAccepted;
    if i < j {
      TakenAlong(ws, acts, i, j - 1);
      TakenAt(ws, acts, j - 1);
      InvariantAt(ws, acts, j - 1);
      assert StepAt(ws, acts, j - 1) && ws[j].mode.Up?;
      Takes(ws[j - 1], acts[j - 1]);
    }
  }

  /** Object c has handle r in a slot its destructor has not come to. */
  ghost predicate Has(s: Session, c: Cid, r: Ref) {
    c in s.objs && exists i | s.objs[c].closed <= i < |s.objs[c].instances| :: s.objs[c].instances[i].ref == Some(r)
  }

  lemma HasIsTaken(k: nat, d: Disk, s: Session, c: Cid, r: Ref)
    requires Good(k, d, s) && Has(s, c, r)
    ensures r in s.owner && s.owner[r] == c
  {
    hide Core;
    var i :| s.objs[c].closed <= i < |s.objs[c].instances| && s.objs[c].instances[i].ref == Some(r);
    assert SlotApproved(k, s.owner, s.approved, s.leaked, c, s.objs[c].instances[i].ref.value);
  }

  lemma TakenIsHad(k: nat, d: Disk, s: Session, r: Ref)
    requires Good(k, d, s) && TakenAccepted(s) && r in s.owner && r in s.open
    ensures r in s.leaked || Has(s, s.owner[r], r)
  {
    hide Core, ShapesOk, HeldIntact, SlotsApproved, NumbersOk, LeakedOk, HoldsOk;
  }

  /** No handle gets lost: every handle an object had is closed by the time its destructor has come past it, and so
      by the time the object is freed, unless the engine failed to close it. */
  lemma HandlesAreGivenBack(ws: seq<World>, acts: seq<Action>, i: nat, j: nat, c: Cid, r: Ref)
    requires Run(ws, acts) && i <= j < |ws| && forall m | i <= m <= j :: ws[m].mode.Up?
    requires Has(ws[i].mode.s, c, r) && !Has(ws[j].mode.s, c, r)
    ensures r !in ws[j].mode.s.open || r in ws[j].mode.s.leaked
  {
    hide Enabled, Step, TakenAccepted, Has, Good;
    InvariantAt(ws, acts, i);
    InvariantAt(ws, acts, j);
    InvIsGood(ws[i]);
    InvIsGood(ws[j]);
    HasIsTaken(ws[i].k, ws[i].disk, ws[i].mode.s, c, r);
    TakenAlong(ws, acts, i, j);
    TakenAt(ws, acts, j);
    if r in ws[j].mode.s.open { TakenIsHad(ws[j].k, ws[j].disk, ws[j].mode.s, r); }
  }

  // ---------------------------------------------------------------- every object that left the index can be freed

  /** An object that is not, or no longer, the entry of its name. */
  predicate Unindexed(s: Session, c: Cid) {
    c in s.objs && !(c.name in s.index && s.index[c.name] == c)
  }

  /** Actions within the session. */
  ghost predicate Leads(w: World, acts: seq<Action>, end: World) {
    Path(w, acts, end) && AllClean(acts) && Crash !in acts && Inv(end) && end.mode.Up?
  }

  lemma LeadsNowhere(w: World)
    requires Inv(w) && w.mode.Up?
    ensures Leads(w, [], w)
  {
    hide Inv;
  }

  lemma LeadsFirst(w: World, a: Action, acts: seq<Action>, end: World)
    requires Enabled(w, a) && Clean(a) && a != Crash && Leads(Step(w, a), acts, end)
    ensures Leads(w, [a] + acts, end)
  {
    hide Inv, Enabled, Step, Path;
    PathFirst(w, a, acts, end);
  }

  lemma LeadsToInv(w: World, acts: seq<Action>, end: World)
    requires Leads(w, acts, end)
    ensures Inv(end) && end.mode.Up?
  {
    hide Inv;
  }

  lemma LeadsOn(w: World, first: seq<Action>, mid: World, then_: seq<Action>, end: World)
    requires Leads(w, first, mid) && Leads(mid, then_, end)
    ensures Leads(w, first + then_, end)
  {
    hide Inv, Path;
    PathJoin(w, first, mid, then_, end);
  }

  /** The next action of a sweep that is under way, its drops failing. */
  function NextOfSweep(s: Session): Action
    requires s.gc.Sweeping?
  {
    match s.gc.phase
    case Inspect => if s.gc.todo == [] then EndSweep else InspectNext
    case Dropping(_, _) => DropInstance(false)
    case CheckingEntry(_) => CheckEntry
    case Erasing(_) => EraseEntry
    case CountingDown => CountDown
  }

  function SweepDistance(s: Session): nat {
    if s.gc.GcIdle? then 0
    else
      6 * |s.gc.todo| + match s.gc.phase
                        case Inspect => 1
                        case Dropping(_, _) => 5
                        case CheckingEntry(_) => 4
                        case Erasing(_) => 3
                        case CountingDown => 2
  }

  lemma SweepGoesOn(k: nat, d: Disk, s: Session, c: Cid)
    requires Good(k, d, s) && |d.cfs| == k + 1 && s.gc.Sweeping? && Unindexed(s, c)
    ensures CollectorAction(NextOfSweep(s)) && EnabledCollector(k, s, NextOfSweep(s))
    ensures var s' := StepCollector(k, d, s, NextOfSweep(s)).1;
      SweepDistance(s') < SweepDistance(s) && Unindexed(s', c) && s'.open == s.open && s'.objs == s.objs
  {
    hide DiskOk, Opened, IndexOk, MetadataEntriesOk, RecordsOk, SerializerOk, UnindexedOk, Ownership, CountOk;
    if s.gc.phase.Inspect? && s.gc.todo != [] { assert s.gc.todo[0] in s.gc.todo; }
  }

  lemma {:induction false} SweepEnds(w: World, c: Cid) returns (acts: seq<Action>, end: World)
    requires Inv(w) && w.mode.Up? && Unindexed(w.mode.s, c)
    ensures Leads(w, acts, end) && end.mode.s.gc.GcIdle? && Unindexed(end.mode.s, c)
    ensures end.mode.s.objs == w.mode.s.objs && end.mode.s.open == w.mode.s.open
    decreases SweepDistance(w.mode.s)
  {
    hide Good, Enabled, Step, StepCollector, EnabledCollector, SweepDistance, NextOfSweep, Unindexed;
    if w.mode.s.gc.GcIdle? {
      return [], w;
    }
    InvIsGood(w);
    SweepGoesOn(w.k, w.disk, w.mode.s, c);
    var a := NextOfSweep(w.mode.s);
    CollectorMove(w.k, w.disk, w.mode.s, a);
    StepKeeps(w, a);
    acts, end := SweepEnds(Step(w, a), c);
    LeadsFirst(w, a, acts, end);
    acts := [a] + acts;
  }

  function Holders(s: Session, c: Cid): set<nat> {
    set t | t in s.holds && s.holds[t].cid == c
  }

  /** A task comes out of the engine and lets go of its container. */
  lemma LetsGo(w: World, t: nat) returns (acts: seq<Action>, end: World)
    requires Inv(w) && w.mode.Up? && t in w.mode.s.holds
    ensures Leads(w, acts, end) && end.mode.s == w.mode.s.(holds := w.mode.s.holds - {t})
  {
    hide Good, Enabled, Step, Held, CloseInstance;
    InvIsGood(w);
    var s := w.mode.s;
    var mid := w;
    if s.holds[t].stage.InEngine? {
      HolderMove(w.k, w.disk, s, CallEngine(t, true));
      mid := Step(w, CallEngine(t, true));
      StepKeeps(w, CallEngine(t, true));
    }
    HolderMove(mid.k, mid.disk, mid.mode.s, Release(t));
    end := Step(mid, Release(t));
    StepKeeps(mid, Release(t));
    LeadsNowhere(end);
    LeadsFirst(mid, Release(t), [], end);
    acts := [Release(t)] + [];
    if s.holds[t].stage.InEngine? {
      LeadsFirst(w, CallEngine(t, true), acts, end);
      acts := [CallEngine(t, true)] + acts;
    }
    assert end.mode.s.holds == s.holds - {t};
  }

  lemma {:induction false} AllLetGo(w: World, c: Cid) returns (acts: seq<Action>, end: World)
    requires Inv(w) && w.mode.Up?
    ensures Leads(w, acts, end) && end.mode.s == w.mode.s.(holds := end.mode.s.holds) && Holders(end.mode.s, c) == {}
    decreases |Holders(w.mode.s, c)|
  {
    hide Inv, Leads;
    if Holders(w.mode.s, c) == {} {
      LeadsNowhere(w);
      return [], w;
    }
    var t :| t in Holders(w.mode.s, c);
    var first, mid := LetsGo(w, t);
    LeadsToInv(w, first, mid);
    assert Holders(mid.mode.s, c) == Holders(w.mode.s, c) - {t};
    var rest;
    rest, end := AllLetGo(mid, c);
    LeadsOn(w, first, mid, rest, end);
    acts := first + rest;
  }

  /** Nobody holds the object. */
  predicate Abandoned(s: Session, c: Cid) {
    Unindexed(s, c) && s.gc.GcIdle? && Holders(s, c) == {}
  }

  lemma MayClose(k: nat, d: Disk, s: Session, c: Cid)
    requires Good(k, d, s) && Abandoned(s, c)
    ensures c in s.objs && !Held(s, c) && s.objs[c].closed <= |s.objs[c].instances|
  {
    hide DiskOk, IndexOk, MetadataEntriesOk, RecordsOk, CollectorOk, UnindexedOk, CountOk, SlotsApproved, WindowOk,
      ApprovedOk, NumbersOk, LeakedOk, HoldsOk;
    assert ShapeOk(k, d.next, c, s.objs[c]);
    assert forall t | t in s.holds && s.holds[t].cid == c :: t in Holders(s, c);
  }

  lemma ClosesNext(k: nat, d: Disk, s: Session, c: Cid)
    requires Good(k, d, s) && Abandoned(s, c) && s.objs[c].closed < |s.objs[c].instances|
    ensures EnabledHolder(k, s, CloseNext(c, true))
    ensures var s' := StepHolder(k, s, CloseNext(c, true));
      && Abandoned(s', c) && s'.open <= s.open
      && s'.objs[c] == s.objs[c].(closed := s.objs[c].closed + 1)
      && forall r | Has(s, c, r) :: r !in s'.open || Has(s', c, r)
  {
    hide Good, Held;
    MayClose(k, d, s, c);
    var o := s.objs[c];
    if o.instances[o.closed].ref.Some? { CloseGivesBack(k, d, s, CloseNext(c, true), o.instances[o.closed].ref.value); }
  }

  lemma {:induction false} AllClosed(w: World, c: Cid) returns (acts: seq<Action>, end: World)
    requires Inv(w) && w.mode.Up? && Abandoned(w.mode.s, c)
    ensures Leads(w, acts, end) && c !in end.mode.s.objs && forall r | Has(w.mode.s, c, r) :: r !in end.mode.s.open
    ensures end.mode.s.open <= w.mode.s.open
    decreases |w.mode.s.objs[c].instances| - w.mode.s.objs[c].closed
  {
    hide Good, Enabled, Step, Held, StepHolder, EnabledHolder, Path, Has, Abandoned;
    InvIsGood(w);
    var s := w.mode.s;
    MayClose(w.k, w.disk, s, c);
    if s.objs[c].closed < |s.objs[c].instances| {
      var a := CloseNext(c, true);
      ClosesNext(w.k, w.disk, s, c);
      HolderMove(w.k, w.disk, s, a);
      StepKeeps(w, a);
      acts, end := AllClosed(Step(w, a), c);
      LeadsFirst(w, a, acts, end);
      acts := [a] + acts;
    } else {
      Frees(w.k, w.disk, s, c);
      HolderMove(w.k, w.disk, s, Free(c));
      end := Step(w, Free(c));
      StepKeeps(w, Free(c));
      LeadsNowhere(end);
      LeadsFirst(w, Free(c), [], end);
      acts := [Free(c)] + [];
    }
  }

  lemma Frees(k: nat, d: Disk, s: Session, c: Cid)
    requires Good(k, d, s) && Abandoned(s, c) && s.objs[c].closed == |s.objs[c].instances|
    ensures EnabledHolder(k, s, Free(c)) && StepHolder(k, s, Free(c)) == s.(objs := s.objs - {c})
    ensures forall r :: !Has(s, c, r)
  {
    hide Good, Held;
    MayClose(k, d, s, c);
  }

  /** From any point of any run, with whoever still holding it: an object that has left the index can come to be
      freed within the session, and then none of the handles it had is open. */
  lemma CanBeFreed(w: World, c: Cid) returns (acts: seq<Action>, end: World)
    requires Inv(w) && w.mode.Up? && Unindexed(w.mode.s, c)
    ensures Path(w, acts, end) && AllClean(acts) && Crash !in acts && end.mode.Up?
    ensures c !in end.mode.s.objs && forall r | Has(w.mode.s, c, r) :: r !in end.mode.s.open
  {
    hide Inv, Leads, Path, AllClean;
    var first, swept := SweepEnds(w, c);
    LeadsToInv(w, first, swept);
    var second, dropped := AllLetGo(swept, c);
    LeadsToInv(swept, second, dropped);
    assert forall r | Has(w.mode.s, c, r) :: Has(dropped.mode.s, c, r);
    var third;
    third, end := AllClosed(dropped, c);
    LeadsOn(swept, second, dropped, third, end);
    LeadsOn(w, first, swept, second + third, end);
    acts := first + (second + third);
    LeadsWhat(w, acts, end);
  }

  lemma LeadsWhat(w: World, acts: seq<Action>, end: World)
    requires Leads(w, acts, end)
    ensures Path(w, acts, end) && AllClean(acts) && Crash !in acts && end.mode.Up?
  {
    hide Inv, Path, AllClean;
  }
}
