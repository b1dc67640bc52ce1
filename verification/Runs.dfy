/** Whole runs of the store, across any number of sessions, and what holds all along them. */
module Runs {
  import opened Types
  import opened Lifecycle
  import opened Invariant
  import Boot = BootPreservation
  import Ser = SerializerPreservation
  import Gc = CollectorPreservation
  import Holder = HolderPreservation

  // ---------------------------------------------------------------- the invariant is inductive

  lemma BootStepKeeps(w: World, a: Action)
    requires Inv(w) && BootAction(a) && Enabled(w, a)
    ensures Inv(Step(w, a))
  {
    match a
    case StartBoot =>
    case OpenPartition(ok) => Boot.OpenPartitionKeeps(w, ok);
    case CreateMetadata(ok) => AddFamilyKeepsDisk(w.k, w.disk, w.k, MetadataContainers);
    case SeedMetadata(ok) =>
    case LoadIndex(ok) => Boot.FirstSessionKeeps(w.k, w.disk);
  }

  lemma SerializerStepKeeps(k: nat, d: Disk, s: Session, a: Action)
    requires Good(k, d, s) && Clean(a) && SerializerAction(a) && EnabledSerializer(k, s, a)
    ensures var (d', s') := StepSerializer(k, d, s, a); Good(k, d', s')
  {
    hide Core, Ownership, Ser.GoesOnTo, MetadataWriteStatus, HasMetadataRef, ExistenceStatus, BeginCreation,
      TakeHandle, ApproveNext, InsertNew, MarkObject;
    GoodShape(k, d, s);
    var (d', s') := StepSerializer(k, d, s, a);
    if a.CreateFamily? && d' != d {
      Ser.CreateKeepsCore(k, d, s);
      Ser.CreateKeepsHandles(k, d.next, s, Ref(|s.ser.refs|, s.ser.name, d.next));
    } else if a.PutRecord? && d' != d {
      Ser.PutRecordKeepsCore(k, d, s);
      Ser.WritesKeepHandles(k, d, s, a);
    } else if a.DeleteRecord? && d' != d {
      Ser.DeleteRecordKeepsCore(k, d, s);
      Ser.WritesKeepHandles(k, d, s, a);
    } else if a.Approve? && s.ser.next < |s.ser.refs| {
      Ser.ApproveKeepsCore(k, d, s);
      Ser.ApproveKeepsHandles(k, d.next, s);
    } else if a.InsertEntry? {
      Ser.InsertKeepsCore(k, d, s);
      Ser.InsertKeepsHandles(k, d.next, s);
    } else if a.MarkDeleted? {
      Ser.MarkKeepsIndex(k, d, s);
      Ser.MarkKeepsHandles(k, d.next, s);
    } else {
      if a.BeginCreate? || a.Approve? || a.CheckIndex? || a.CountUp? {
        Ser.CreationMovesOn(k, d, s, a);
      } else if a.LookUp? {
        Ser.LookUpMovesOn(k, d, s);
      } else if a.BeginRemove? || a.Reply? {
        Ser.RequestMovesOn(k, d, s, a);
      } else {
        Ser.CallsMoveOn(k, d, s, a);
      }
      Ser.GoingOnKeeps(k, d, s, s');
    }
  }

  lemma CollectorStepKeeps(k: nat, d: Disk, s: Session, a: Action)
    requires Good(k, d, s) && CollectorAction(a) && EnabledCollector(k, s, a)
    ensures var (d', s') := StepCollector(k, d, s, a); Good(k, d', s')
  {
    hide Core, Ownership, Gc.GoesOnTo;
    GoodShape(k, d, s);
    var (d', s') := StepCollector(k, d, s, a);
    if Gc.Frees(k, d, s, a) {
      Gc.DropKeepsCore(k, d, s, a.ok);
      Gc.DropKeepsHandles(k, d.next, s, s'.gc.phase);
    } else if a.EraseEntry? {
      Gc.EraseKeeps(k, d, s);
    } else {
      if a.DropInstance? {
        Gc.DropMovesOn(k, d, s, a);
      } else if a.Snapshot? || a.InspectNext? {
        Gc.LooksOn(k, d, s, a);
      } else {
        Gc.MovesOn(k, d, s, a);
      }
      Gc.GoingOnKeeps(k, d, s, s');
    }
  }

  lemma HolderStepKeeps(k: nat, d: Disk, s: Session, a: Action)
    requires Good(k, d, s) && HolderAction(a) && EnabledHolder(k, s, a)
    ensures Good(k, d, StepHolder(k, s, a))
  {
    hide Core, Ownership, Held, Holder.HoldsOn, CloseInstance;
    if a.CloseNext? {
      Holder.UnheldIsDeleted(k, d, s, a.cid);
      Holder.CloseKeepsNames(k, d, s, a.cid, a.ok);
      Holder.CloseKeepsHandles(k, d.next, s, a.cid, a.ok);
    } else if a.Free? {
      Holder.UnheldIsDeleted(k, d, s, a.cid);
      Holder.FreeKeepsNames(k, d, s, a.cid);
      Holder.FreeHandles(k, d.next, s, a.cid);
    } else {
      if a.Route? || a.PassFence? {
        Holder.TaskGoesOn(k, d, s, a);
      } else {
        Holder.TaskComesAndGoes(k, d, s, a);
      }
      Holder.HoldingKeeps(k, d, s, StepHolder(k, s, a));
    }
  }

  lemma StepKeeps(w: World, a: Action)
    requires Inv(w) && Clean(a) && Enabled(w, a)
    ensures Inv(Step(w, a))
  {
    hide Good;
    if BootAction(a) {
      BootStepKeeps(w, a);
    } else if a.Crash? {
    } else if SerializerAction(a) {
      SerializerStepKeeps(w.k, w.disk, w.mode.s, a);
      GoodIsInv(w.k, Step(w, a).disk, Step(w, a).mode.s);
    } else if CollectorAction(a) {
      CollectorStepKeeps(w.k, w.disk, w.mode.s, a);
      GoodIsInv(w.k, Step(w, a).disk, Step(w, a).mode.s);
    } else {
      HolderStepKeeps(w.k, w.disk, w.mode.s, a);
      GoodIsInv(w.k, Step(w, a).disk, Step(w, a).mode.s);
    }
  }

  // ---------------------------------------------------------------- one thread's actions in a session

  lemma SerializerMove(k: nat, d: Disk, s: Session, a: Action)
    requires |d.cfs| == k + 1 && SerializerAction(a) && EnabledSerializer(k, s, a)
    ensures var w := World(k, d, Up(s)); var (d', s') := StepSerializer(k, d, s, a);
      Enabled(w, a) && Step(w, a) == World(k, d', Up(s'))
  {
    hide StepSerializer, EnabledSerializer;
  }

  lemma CollectorMove(k: nat, d: Disk, s: Session, a: Action)
    requires |d.cfs| == k + 1 && CollectorAction(a) && EnabledCollector(k, s, a)
    ensures var w := World(k, d, Up(s)); var (d', s') := StepCollector(k, d, s, a);
      Enabled(w, a) && Step(w, a) == World(k, d', Up(s'))
  {
    hide StepCollector, EnabledCollector;
  }

  lemma HolderMove(k: nat, d: Disk, s: Session, a: Action)
    requires |d.cfs| == k + 1 && HolderAction(a) && EnabledHolder(k, s, a)
    ensures var w := World(k, d, Up(s)); Enabled(w, a) && Step(w, a) == World(k, d, Up(StepHolder(k, s, a)))
  {
    hide StepHolder, EnabledHolder, StepSerializer, StepCollector, StepBoot, EnabledSerializer, EnabledCollector,
      EnabledBoot;
    assert !a.Crash? && !BootAction(a) && !SerializerAction(a) && !CollectorAction(a);
    hide BootAction, SerializerAction, CollectorAction, HolderAction;
  }

  lemma InvIsGood(w: World)
    requires Inv(w) && w.mode.Up?
    ensures Good(w.k, w.disk, w.mode.s) && |w.disk.cfs| == w.k + 1 && w == World(w.k, w.disk, Up(w.mode.s))
  {
    hide Ownership;
  }

  lemma GoodIsInv(k: nat, d: Disk, s: Session)
    requires Good(k, d, s)
    ensures Inv(World(k, d, Up(s))) && |d.cfs| == k + 1
  {
    hide Ownership;
  }

  // ---------------------------------------------------------------- runs

  ghost predicate Follows(w: World, a: Action, w': World) {
    Clean(a) && Enabled(w, a) && w' == Step(w, a)
  }

  ghost predicate StepAt(ws: seq<World>, acts: seq<Action>, i: nat) {
    i < |acts| && i + 1 < |ws| && Follows(ws[i], acts[i], ws[i + 1])
  }

  /** Worlds ws, one action between each two, from a store that has never run. */
  ghost predicate Run(ws: seq<World>, acts: seq<Action>) {
    && |ws| == |acts| + 1
    && Fresh(ws[0])
    && forall i | 0 <= i < |acts| :: StepAt(ws, acts, i)
  }

  lemma {:induction false} InvariantAt(ws: seq<World>, acts: seq<Action>, i: nat)
    requires Run(ws, acts) && i < |ws|
    ensures Inv(ws[i])
  {
    hide Core, Ownership;
    if i > 0 {
      InvariantAt(ws, acts, i - 1);
      assert StepAt(ws, acts, i - 1);
      StepKeeps(ws[i - 1], acts[i - 1]);
    }
  }

  /** At every point of every run each name with a record has its family on all data partitions. */
  lemma CrashSafety(ws: seq<World>, acts: seq<Action>)
    requires Run(ws, acts)
    ensures forall i | 0 <= i < |ws| :: CrashSafe(ws[i].k, ws[i].disk)
  {
    forall i | 0 <= i < |ws| ensures CrashSafe(ws[i].k, ws[i].disk) {
      InvariantAt(ws, acts, i);
    }
  }

  /** Actions that lead from one world to another, whether or not they are clean. */
  ghost predicate Path(w: World, acts: seq<Action>, end: World)
    decreases |acts|
  {
    if acts == [] then w == end
    else Enabled(w, acts[0]) && Path(Step(w, acts[0]), acts[1..], end)
  }

  lemma {:induction false} PathThen(w: World, acts: seq<Action>, mid: World, a: Action)
    requires Path(w, acts, mid) && Enabled(mid, a)
    ensures Path(w, acts + [a], Step(mid, a))
    decreases |acts|
  {
    if acts == [] {
      assert (acts + [a])[1..] == [];
    } else {
      PathThen(Step(w, acts[0]), acts[1..], mid, a);
      assert (acts + [a])[1..] == acts[1..] + [a];
    }
  }

  lemma PathFirst(w: World, a: Action, acts: seq<Action>, end: World)
    requires Enabled(w, a) && Path(Step(w, a), acts, end)
    ensures Path(w, [a] + acts, end)
  {
    assert ([a] + acts)[1..] == acts;
  }

  lemma {:induction false} PathJoin(w: World, a: seq<Action>, mid: World, b: seq<Action>, end: World)
    requires Path(w, a, mid) && Path(mid, b, end)
    ensures Path(w, a + b, end)
    decreases |a|
  {
    hide Enabled, Step;
    if a == [] {
      assert a + b == b;
    } else {
      PathJoin(Step(w, a[0]), a[1..], mid, b, end);
      assert (a + b)[1..] == a[1..] + b;
    }
  }

  ghost predicate AllClean(acts: seq<Action>) {
    forall i | 0 <= i < |acts| :: Clean(acts[i])
  }

  lemma {:induction false} PathKeeps(w: World, acts: seq<Action>, end: World)
    requires Inv(w) && Path(w, acts, end) && AllClean(acts)
    ensures Inv(end)
    decreases |acts|
  {
    hide Inv, Enabled, Step;
    if acts != [] {
      StepKeeps(w, acts[0]);
      PathKeeps(Step(w, acts[0]), acts[1..], end);
    }
  }

  /** A stretch of a run is a path of clean actions. */
  lemma {:induction false} RunPath(ws: seq<World>, acts: seq<Action>, i: nat, j: nat)
    requires Run(ws, acts) && i <= j < |ws|
    ensures Path(ws[i], acts[i..j], ws[j]) && AllClean(acts[i..j]) && Inv(ws[i])
    decreases j - i
  {
    hide Inv, Enabled, Step;
    InvariantAt(ws, acts, i);
    if i < j {
      RunPath(ws, acts, i + 1, j);
      assert StepAt(ws, acts, i) && acts[i..j] == [acts[i]] + acts[i + 1..j];
      PathFirst(ws[i], acts[i], acts[i + 1..j], ws[j]);
    }
  }

  /** The worlds a path of clean actions comes through. */
  lemma {:induction false} WorldsOf(w: World, acts: seq<Action>, end: World) returns (ws: seq<World>)
    requires Path(w, acts, end) && AllClean(acts)
    ensures |ws| == |acts| + 1 && ws[0] == w && ws[|acts|] == end
    ensures forall i | 0 <= i < |acts| :: StepAt(ws, acts, i)
    decreases |acts|
  {
    hide Enabled, Step;
    if acts == [] {
      ws := [w];
    } else {
      var rest := WorldsOf(Step(w, acts[0]), acts[1..], end);
      ws := [w] + rest;
      forall i | 0 <= i < |acts| ensures StepAt(ws, acts, i) {
        if i > 0 {
          assert StepAt(rest, acts[1..], i - 1);
          assert acts[1..][i - 1] == acts[i] && ws[i] == rest[i - 1] && ws[i + 1] == rest[i];
        }
      }
    }
  }

  /** A path of clean actions from a store that has never run is a run. */
  lemma RunOf(w: World, acts: seq<Action>, end: World) returns (ws: seq<World>)
    requires Fresh(w) && Path(w, acts, end) && AllClean(acts)
    ensures Run(ws, acts) && ws[0] == w && ws[|acts|] == end
  {
    ws := WorldsOf(w, acts, end);
  }
}
