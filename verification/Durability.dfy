/** What an acknowledged request means for all later sessions. */
module Durability {
  import opened Types
  import opened Lifecycle
  import opened Invariant
  import opened Runs
  import R = Recovery
  import Gc = CollectorPreservation

  predicate Answering(w: World, op: ContainerOp, n: Name, st: Status) {
    w.mode.Up? && w.mode.s.ser == Replying(op, n, st)
  }

  // ---------------------------------------------------------------- creates

  /** The record is there, and the session, if there is one, knows the container as live and is not removing it. */
  ghost predicate Settled(w: World, n: Name) {
    && n in w.disk.records
    && (w.mode.Up? ==>
          && Live(w.mode.s.index, w.mode.s.objs, n)
          && !Unmaking(w.mode.s.ser, n))
  }

  predicate Unmaking(ser: Serializer, n: Name) {
    AtRemoval(ser) && ser.name == n
  }

  predicate Making(ser: Serializer, n: Name) {
    AtCreation(ser) && ser.name == n
  }

  /** A boot that is not the first creates and seeds nothing. */
  ghost predicate NotFirstBoot(w: World) {
    w.mode.Booting? ==> w.mode.pc.Opening? || w.mode.pc.Loading?
  }

  /** What the invariant says of one name in a session. */
  lemma InSession(w: World, n: Name)
    requires Inv(w) && w.mode.Up?
    ensures |w.disk.cfs| == w.k + 1 && MetadataContainers in w.disk.cfs[w.k]
    ensures Default in w.mode.s.index && w.mode.s.index[Default] in w.mode.s.objs
    ensures n in w.mode.s.index ==> w.mode.s.index[n] in w.mode.s.objs && !Making(w.mode.s.ser, n)
    ensures n in w.disk.records ==> Making(w.mode.s.ser, n) || Live(w.mode.s.index, w.mode.s.objs, n)
    ensures Live(w.mode.s.index, w.mode.s.objs, n) && !Reserved(n) ==> n in w.disk.records || Unmaking(w.mode.s.ser, n)
    ensures Unmaking(w.mode.s.ser, n) ==> Live(w.mode.s.index, w.mode.s.objs, n)
    ensures Answering(w, Create, n, Success) ==> n in w.disk.records
    ensures Answering(w, Remove, n, Success) ==> n !in w.disk.records
  {
    hide Ownership;
  }

  lemma MetadataStays(w: World, a: Action)
    requires Inv(w) && Clean(a) && Enabled(w, a) && MetadataContainers in w.disk.cfs[w.k]
    ensures Inv(Step(w, a)) && Step(w, a).k == w.k
    ensures |Step(w, a).disk.cfs| == w.k + 1 && MetadataContainers in Step(w, a).disk.cfs[w.k]
    ensures NotFirstBoot(w) ==> NotFirstBoot(Step(w, a))
  {
    hide Good, FirstSession, Loadable, StepSerializer, StepCollector, StepHolder, EnabledSerializer, EnabledCollector,
      EnabledHolder;
    StepKeeps(w, a);
    if Step(w, a).mode.Up? { InSession(Step(w, a), Default); }
  }

  lemma CollectorMovesNoRecord(w: World, a: Action)
    requires Inv(w) && w.mode.Up? && CollectorAction(a) && Enabled(w, a)
    ensures Step(w, a).disk.records == w.disk.records
  {
    hide Inv, Good, EnabledSerializer, EnabledCollector, EnabledHolder, StepSerializer, StepCollector, StepHolder;
    InvIsGood(w);
    if a.DropInstance? { Gc.DropKeepsRecords(w.k, w.disk, w.mode.s, a); }
  }

  /** Only the serializer, and only for its own name, adds or deletes a record; a first boot adds "default". */
  lemma RecordsMove(w: World, a: Action, n: Name)
    requires Inv(w) && Clean(a) && Enabled(w, a)
    ensures n in w.disk.records && !(w.mode.Up? && Unmaking(w.mode.s.ser, n)) ==> n in Step(w, a).disk.records
    ensures n in Step(w, a).disk.records && n !in w.disk.records ==>
      (w.mode.Up? && Making(w.mode.s.ser, n)) || w.mode == Booting(SeedingMetadata)
  {
    hide Inv, FirstSession, StepSerializer, StepCollector, StepHolder, EnabledSerializer,
      EnabledCollector, EnabledHolder;
    if CollectorAction(a) { CollectorMovesNoRecord(w, a); }
  }

  /** Which creation or removal the serializer is at, only its beginning decides. */
  ghost predicate SameWork(s: Session, a: Action, s': Session)
    requires a.BeginRemove? && a.name in s.index ==> s.index[a.name] in s.objs
  {
    && (AtCreation(s'.ser) ==>
          if a.BeginCreate? then s'.ser.name == a.name && a.name !in s.index
          else AtCreation(s.ser) && s'.ser.name == s.ser.name)
    && (AtRemoval(s'.ser) ==>
          if a.BeginRemove? then s'.ser.name == a.name && ExistenceStatus(s, a.name) == ContainerAlreadyExists
          else AtRemoval(s.ser) && s'.ser.name == s.ser.name)
  }

  lemma CallsSameWork(k: nat, d: Disk, s: Session, a: Action)
    requires (a.CreateFamily? || a.PutRecord? || a.DeleteRecord?) && EnabledSerializer(k, s, a) && |d.cfs| == k + 1
    ensures SameWork(s, a, StepSerializer(k, d, s, a).1)
  {
    hide MetadataWriteStatus, HasMetadataRef, AddFamily;
  }

  lemma CreatingSameWork(k: nat, d: Disk, s: Session, a: Action)
    requires (a.Approve? || a.CheckIndex? || a.InsertEntry? || a.CountUp?) && EnabledSerializer(k, s, a)
    requires |d.cfs| == k + 1
    ensures SameWork(s, a, StepSerializer(k, d, s, a).1)
  {
    hide SlotsOfRefs;
  }

  lemma BeginningSameWork(k: nat, d: Disk, s: Session, a: Action)
    requires (a.BeginCreate? || a.BeginRemove?) && EnabledSerializer(k, s, a) && |d.cfs| == k + 1
    ensures SameWork(s, a, StepSerializer(k, d, s, a).1)
  {
    hide MetadataWriteStatus, HasMetadataRef, SlotsOfRefs, AddFamily, ApproveNext, InsertNew, TakeHandle, MarkObject;
  }

  lemma SerializerSameWork(k: nat, d: Disk, s: Session, a: Action)
    requires SerializerAction(a) && EnabledSerializer(k, s, a) && |d.cfs| == k + 1
    ensures SameWork(s, a, StepSerializer(k, d, s, a).1)
  {
    if a.CreateFamily? || a.PutRecord? || a.DeleteRecord? {
      hide StepSerializer, EnabledSerializer, SameWork;
      CallsSameWork(k, d, s, a);
    } else if a.Approve? || a.CheckIndex? || a.InsertEntry? || a.CountUp? {
      hide StepSerializer, EnabledSerializer, SameWork;
      CreatingSameWork(k, d, s, a);
    } else if a.BeginCreate? || a.BeginRemove? {
      hide StepSerializer, EnabledSerializer, SameWork;
      BeginningSameWork(k, d, s, a);
    } else {
      hide MetadataWriteStatus, HasMetadataRef, SlotsOfRefs, AddFamily, ApproveNext, InsertNew, TakeHandle;
    }
  }

  /** Removing a name starts only with BeginRemove of a live container, creating one with BeginCreate of an
      absent one; a session starts with the serializer idle. */
  lemma SerializerStays(w: World, a: Action, n: Name)
    requires Enabled(w, a) && Step(w, a).mode.Up?
    ensures Unmaking(Step(w, a).mode.s.ser, n) ==>
      && w.mode.Up?
      && (Unmaking(w.mode.s.ser, n) || (a == BeginRemove(n) && Live(w.mode.s.index, w.mode.s.objs, n)))
    ensures Making(Step(w, a).mode.s.ser, n) ==>
      w.mode.Up? && (Making(w.mode.s.ser, n) || (a == BeginCreate(n) && n !in w.mode.s.index))
  {
    hide StepSerializer, StepCollector, StepHolder, EnabledCollector, EnabledHolder, LoadedContainers, Loadable;
    if SerializerAction(a) { SerializerSameWork(w.k, w.disk, w.mode.s, a); }
  }

  lemma SettledStays(w: World, a: Action, n: Name)
    requires Inv(w) && Clean(a) && Enabled(w, a) && a != BeginRemove(n) && Settled(w, n)
    ensures Settled(Step(w, a), n)
  {
    hide Inv, Step, EnabledSerializer, EnabledCollector, EnabledHolder, Clean;
    StepKeeps(w, a);
    RecordsMove(w, a, n);
    if Step(w, a).mode.Up? {
      if w.mode.Up? { InSession(w, n); }
      SerializerStays(w, a, n);
      InSession(Step(w, a), n);
    }
  }

  lemma {:induction false} SettledAlong(ws: seq<World>, acts: seq<Action>, i: nat, j: nat, n: Name)
    requires Run(ws, acts) && i <= j < |ws| && Settled(ws[i], n)
    requires forall m | i <= m < j :: acts[m] != BeginRemove(n)
    ensures Settled(ws[j], n)
  {
    hide Inv, Enabled, Step, Settled;
    if i < j {
      SettledAlong(ws, acts, i, j - 1, n);
      InvariantAt(ws, acts, j - 1);
      assert StepAt(ws, acts, j - 1);
      SettledStays(ws[j - 1], acts[j - 1], n);
    }
  }

  /** Once a create was acknowledged, and as long as no remove of the name starts, its record is on
      disk and every session, this one and all later ones, has it live. */
  lemma AcknowledgedCreateSurvives(ws: seq<World>, acts: seq<Action>, i: nat, j: nat, n: Name)
    requires Run(ws, acts) && i <= j < |ws| && Answering(ws[i], Create, n, Success)
    requires forall m | i <= m < j :: acts[m] != BeginRemove(n)
    ensures n in ws[j].disk.records
    ensures ws[j].mode.Up? ==> Live(ws[j].mode.s.index, ws[j].mode.s.objs, n)
  {
    hide Ownership;
    InvariantAt(ws, acts, i);
    SettledAlong(ws, acts, i, j, n);
  }

  // ---------------------------------------------------------------- data

  /** The family of the name on partition p, by its number: its contents come and go with it. */
  predicate HasFamily(d: Disk, p: nat, n: Name, cf: int) {
    p < |d.cfs| && n in d.cfs[p] && d.cfs[p][n] == cf
  }

  lemma SerializerKeepsFamily(k: nat, d: Disk, s: Session, a: Action, p: nat, n: Name, cf: int)
    requires SerializerAction(a) && EnabledSerializer(k, s, a) && |d.cfs| == k + 1 && HasFamily(d, p, n, cf)
    ensures HasFamily(StepSerializer(k, d, s, a).0, p, n, cf)
  {
    hide MetadataWriteStatus, HasMetadataRef, ExistenceStatus, SlotsOfRefs, ApproveNext, InsertNew, MarkObject;
  }

  lemma CollectorKeepsFamily(k: nat, d: Disk, s: Session, a: Action, p: nat, n: Name, cf: int)
    requires Good(k, d, s) && CollectorAction(a) && EnabledCollector(k, s, a) && |d.cfs| == k + 1
    requires HasFamily(d, p, n, cf) && n in d.records
    ensures HasFamily(StepCollector(k, d, s, a).0, p, n, cf)
  {
    hide Good;
    if a.DropInstance? { Gc.DroppingKnown(k, d, s); }
  }

  lemma BootKeepsFamily(w: World, a: Action, p: nat, n: Name, cf: int)
    requires BootAction(a) && EnabledBoot(w, a) && HasFamily(w.disk, p, n, cf)
    ensures HasFamily(StepBoot(w, a).disk, p, n, cf)
  {
    hide FirstSession, Loadable;
  }

  lemma FamilyStays(w: World, a: Action, p: nat, n: Name, cf: int)
    requires Inv(w) && Clean(a) && Enabled(w, a) && n in w.disk.records && HasFamily(w.disk, p, n, cf)
    ensures HasFamily(Step(w, a).disk, p, n, cf)
  {
    hide Inv, Good, StepSerializer, StepCollector, StepHolder, StepBoot, EnabledSerializer, EnabledCollector,
      EnabledHolder, EnabledBoot, Clean, HasFamily;
    if w.mode.Up? { InvIsGood(w); }
    if BootAction(a) {
      BootKeepsFamily(w, a, p, n, cf);
    } else if SerializerAction(a) {
      SerializerKeepsFamily(w.k, w.disk, w.mode.s, a, p, n, cf);
    } else if CollectorAction(a) {
      CollectorKeepsFamily(w.k, w.disk, w.mode.s, a, p, n, cf);
    }
  }

  /** As long as no remove of the name starts after its create was acknowledged, the families that were made for it,
      and with them what clients have put into them, are neither dropped nor made anew on any partition. */
  lemma {:induction false} DataSurvives(ws: seq<World>, acts: seq<Action>, i: nat, j: nat, n: Name, p: nat)
    requires Run(ws, acts) && i <= j < |ws| && Answering(ws[i], Create, n, Success) && p < ws[i].k
    requires forall m | i <= m < j :: acts[m] != BeginRemove(n)
    ensures p < |ws[i].disk.cfs| && n in ws[i].disk.cfs[p]
    ensures HasFamily(ws[j].disk, p, n, ws[i].disk.cfs[p][n])
  {
    hide Enabled, Step, Inv, HasFamily;
    InvariantAt(ws, acts, i);
    RecordedOnAll(ws[i], n);
    if i == j {
      assert HasFamily(ws[i].disk, p, n, ws[i].disk.cfs[p][n]) by { Numbered(ws[i].disk, p, n); }
    } else {
      DataSurvives(ws, acts, i, j - 1, n, p);
      AcknowledgedCreateSurvives(ws, acts, i, j - 1, n);
      InvariantAt(ws, acts, j - 1);
      assert StepAt(ws, acts, j - 1);
      FamilyStays(ws[j - 1], acts[j - 1], p, n, ws[i].disk.cfs[p][n]);
    }
  }

  lemma Numbered(d: Disk, p: nat, n: Name)
    requires p < |d.cfs| && n in d.cfs[p]
    ensures HasFamily(d, p, n, d.cfs[p][n])
  {
  }

  lemma RecordedOnAll(w: World, n: Name)
    requires Inv(w) && Answering(w, Create, n, Success)
    ensures |w.disk.cfs| == w.k + 1 && OnEvery(w.k, w.disk.cfs, n)
  {
    hide Ownership;
  }

  // ---------------------------------------------------------------- removes

  /** No record, no live container, and no creation of the name under way. */
  ghost predicate Gone(w: World, n: Name) {
    && |w.disk.cfs| == w.k + 1
    && n !in w.disk.records
    && MetadataContainers in w.disk.cfs[w.k]
    && !Reserved(n)
    && NotFirstBoot(w)
    && (w.mode.Up? ==>
          && !Live(w.mode.s.index, w.mode.s.objs, n)
          && !Making(w.mode.s.ser, n))
  }

  lemma GoneStays(w: World, a: Action, n: Name)
    requires Inv(w) && Clean(a) && Enabled(w, a) && Gone(w, n) && (a == BeginCreate(n) ==> n == Default)
    ensures Gone(Step(w, a), n)
  {
    hide Inv, Step, EnabledSerializer, EnabledCollector, EnabledHolder, Live, Clean;
    MetadataStays(w, a);
    RecordsMove(w, a, n);
    var w' := Step(w, a);
    if w'.mode.Up? {
      if w.mode.Up? { InSession(w, n); }
      SerializerStays(w, a, n);
      InSession(w', n);
    }
  }

  /** A name that is gone stays so until a create of it starts; "default", which keeps its entry, for good. */
  lemma {:induction false} GoneOnPath(w: World, acts: seq<Action>, end: World, n: Name)
    requires Inv(w) && Path(w, acts, end) && AllClean(acts) && Gone(w, n) && (BeginCreate(n) !in acts || n == Default)
    ensures Gone(end, n)
    decreases |acts|
  {
    hide Inv, Enabled, Step, Gone;
    if acts != [] {
      StepKeeps(w, acts[0]);
      GoneStays(w, acts[0], n);
      GoneOnPath(Step(w, acts[0]), acts[1..], end, n);
    }
  }

  /** Once a remove was acknowledged, and as long as no create of the name starts, no session has it live. */
  lemma AcknowledgedRemoveSurvives(ws: seq<World>, acts: seq<Action>, i: nat, j: nat, n: Name)
    requires Run(ws, acts) && i <= j < |ws| && Answering(ws[i], Remove, n, Success) && !Reserved(n)
    requires forall m | i <= m < j :: acts[m] != BeginCreate(n)
    ensures n !in ws[j].disk.records
    ensures ws[j].mode.Up? ==> !Live(ws[j].mode.s.index, ws[j].mode.s.objs, n)
  {
    hide Inv, Enabled, Step, Path;
    RunPath(ws, acts, i, j);
    InSession(ws[i], n);
    assert BeginCreate(n) !in acts[i..j];
    GoneOnPath(ws[i], acts[i..j], ws[j], n);
  }

  /** Actions, none of them a create of n, that lead into a session in which n is live. */
  ghost predicate BringsBack(w: World, acts: seq<Action>, end: World, n: Name) {
    && Path(w, acts, end) && AllClean(acts) && BeginCreate(n) !in acts
    && end.mode.Up? && Live(end.mode.s.index, end.mode.s.objs, n)
  }

  lemma RestartBringsBack(w: World, n: Name) returns (acts: seq<Action>, end: World)
    requires Inv(w) && w.mode.Up? && Reserved(n)
    ensures BringsBack(w, acts, end, n)
  {
    hide Inv, Path, R.BootToEnd, Live;
    var down := Step(w, Crash);
    StepKeeps(w, Crash);
    ReservedAtBoot(down, n);
    end := R.BootToEnd(down);
    acts := R.BootPath(down);
    assert BeginCreate(n) !in acts by { assert !BootAction(BeginCreate(n)); }
    hide Step, Enabled;
    PathFirst(w, Crash, acts, end);
    acts := [Crash] + acts;
  }

  lemma ReservedAtBoot(w: World, n: Name)
    requires Inv(w) && w.mode.Down? && Reserved(n)
    ensures var up := R.BootToEnd(w); up.mode.Up? && Live(up.mode.s.index, up.mode.s.objs, n)
  {
    hide Inv, R.BootToEnd;
    R.BootReachesUp(w);
  }

  /** The reserved containers are the exception, and the only one: a container whose removal was acknowledged
      can come back without being created if and only if its name is reserved, as the next boot then shows. */
  lemma RemoveUndoneIff(w: World, n: Name)
    requires Inv(w) && Answering(w, Remove, n, Success)
    ensures (exists acts, end :: BringsBack(w, acts, end, n)) <==> Reserved(n)
  {
    if Reserved(n) {
      var acts, end := RestartBringsBack(w, n);
    } else {
      hide Inv;
      InSession(w, n);
      forall acts, end | Path(w, acts, end) && AllClean(acts) && BeginCreate(n) !in acts
        ensures !BringsBack(w, acts, end, n)
      {
        GoneOnPath(w, acts, end, n);
      }
    }
  }

}
