/** Requests to remove the store's own two containers: one is undone by the next boot, the other loses every record. */
module Limits {
  import opened Types
  import opened Lifecycle
  import opened Invariant
  import opened Runs
  import D = Durability
  import R = Recovery
  import F = FirstBoot

  // ---------------------------------------------------------------- removing a reserved container

  lemma PathOfTwo(w: World, a: Action, mid: World, b: Action, end: World)
    requires Enabled(w, a) && mid == Step(w, a) && Enabled(mid, b) && end == Step(mid, b)
    ensures Path(w, [a, b], end)
  {
    assert [a, b][1..] == [b];
    assert Path(end, [b][1..], end);
  }

  /** The metadata container of a session at rest takes writes. */
  lemma MetadataWritable(k: nat, d: Disk, s: Session)
    requires Good(k, d, s)
    ensures HasMetadataRef(s) && |d.cfs| == k + 1 && MetadataContainers in d.cfs[k]
    ensures var o := s.objs[s.index[MetadataContainers]]; var r := Handle(d.cfs, k, MetadataContainers);
      o.instances == [Instance(k, Some(r))] && Fence(s, k, Some(r))
    ensures forall ok, failure :: MetadataWriteStatus(k, d, s, ok, failure) == if ok then Success else failure
  {
    var c := s.index[MetadataContainers];
    assert Intact(s.objs, c);
    assert s.objs[c].instances[0].ref.Some?;
    assert SlotApproved(k, s.owner, s.approved, s.leaked, c, s.objs[c].instances[0].ref.value);
  }

  lemma ReservedUnrecorded(k: nat, d: Disk, s: Session, n: Name)
    requires Good(k, d, s) && Reserved(n)
    ensures |d.cfs| == k + 1 && n !in d.records && d.records - {n} == d.records
    ensures n in s.index && s.index[n] in s.objs && s.index[n].name == n
    ensures n == MetadataContainers ==> Live(s.index, s.objs, n)
  {
    hide Ownership;
    assert n !in d.cfs[0];
    assert n in d.records ==> OnEvery(k, d.cfs, n);
  }

  /** The object of the name, marked as deleted. */
  function Marked(s: Session, n: Name): Session
    requires n in s.index && s.index[n] in s.objs
  {
    s.(objs := s.objs[s.index[n] := s.objs[s.index[n]].(deleted := true)])
  }

  /** A reserved container has no record to delete. */
  lemma ReservedRecordSteps(k: nat, d: Disk, s: Session, n: Name, s1: Session, s2: Session)
    requires Good(k, d, s) && s.ser.SerIdle? && Reserved(n) && Live(s.index, s.objs, n)
    requires s1 == s.(ser := Removing(n)) && s2 == s.(ser := LookingUp(n))
    ensures
      && |d.cfs| == k + 1
      && EnabledSerializer(k, s, BeginRemove(n)) && StepSerializer(k, d, s, BeginRemove(n)) == (d, s1)
      && EnabledSerializer(k, s1, DeleteRecord(true)) && StepSerializer(k, d, s1, DeleteRecord(true)) == (d, s2)
  {
    hide Good, ApproveNext, InsertNew, TakeHandle, BeginCreation, AddFamily;
    MetadataWritable(k, d, s);
    ReservedUnrecorded(k, d, s, n);
    assert MetadataWriteStatus(k, d, s1, true, ObjectDeletionFailed) ==
      MetadataWriteStatus(k, d, s, true, ObjectDeletionFailed);
  }

  /** Everything else goes as in any removal. */
  lemma MarkingSteps(k: nat, d: Disk, s: Session, n: Name, s2: Session, s3: Session, s4: Session)
    requires n in s.index && s.index[n] in s.objs && |d.cfs| == k + 1
    requires s2 == s.(ser := LookingUp(n)) && s3 == s.(ser := Marking(n, s.index[n]))
    requires s4 == Marked(s, n).(ser := Replying(Remove, n, Success))
    ensures EnabledSerializer(k, s2, LookUp) && StepSerializer(k, d, s2, LookUp) == (d, s3)
    ensures EnabledSerializer(k, s3, MarkDeleted) && StepSerializer(k, d, s3, MarkDeleted) == (d, s4)
  {
  }

  function RemovalOf(n: Name): (acts: seq<Action>) {
    [BeginRemove(n), DeleteRecord(true)] + [LookUp, MarkDeleted]
  }

  /** From a serializer at rest to the answer. */
  lemma ReservedRemoved(k: nat, d: Disk, s: Session, n: Name)
    requires Good(k, d, s) && s.ser.SerIdle? && Reserved(n) && Live(s.index, s.objs, n)
    ensures Path(World(k, d, Up(s)), RemovalOf(n), World(k, d, Up(Marked(s, n).(ser := Replying(Remove, n, Success)))))
  {
    hide Good, Enabled, Step, StepSerializer, EnabledSerializer, Path;
    var s1, s2, s3 := s.(ser := Removing(n)), s.(ser := LookingUp(n)), s.(ser := Marking(n, s.index[n]));
    var s4 := Marked(s, n).(ser := Replying(Remove, n, Success));
    var end := World(k, d, Up(s4));
    ReservedRecordSteps(k, d, s, n, s1, s2);
    MarkingSteps(k, d, s, n, s2, s3, s4);
    SerializerMove(k, d, s, BeginRemove(n));
    SerializerMove(k, d, s1, DeleteRecord(true));
    SerializerMove(k, d, s2, LookUp);
    SerializerMove(k, d, s3, MarkDeleted);
    PathOfTwo(World(k, d, Up(s)), BeginRemove(n), World(k, d, Up(s1)), DeleteRecord(true), World(k, d, Up(s2)));
    PathOfTwo(World(k, d, Up(s2)), LookUp, World(k, d, Up(s3)), MarkDeleted, end);
    PathJoin(World(k, d, Up(s)), [BeginRemove(n), DeleteRecord(true)], World(k, d, Up(s2)), [LookUp, MarkDeleted], end);
  }

  // ---------------------------------------------------------------- "metadata_default"

  /** A store that has never run can be brought to answer the removal of "metadata_default" with success, and
      the next boot has the container live again. */
  lemma DefaultRemovalUndone(w: World)
    returns (first: seq<Action>, mid: World, rest: seq<Action>, end: World)
    requires Fresh(w)
    ensures Path(w, first, mid) && AllClean(first) && D.Answering(mid, Remove, MetadataDefault, Success)
    ensures D.BringsBack(mid, rest, end, MetadataDefault)
  {
    hide Inv, Good, Path, R.BootToEnd;
    F.FreshIsInv(w);
    R.BootReachesUp(w);
    D.ReservedAtBoot(w, MetadataDefault);
    var up := R.BootToEnd(w);
    var boot := R.BootPath(w);
    InvIsGood(up);
    ReservedRemoved(up.k, up.disk, up.mode.s, MetadataDefault);
    var answered := Marked(up.mode.s, MetadataDefault).(ser := Replying(Remove, MetadataDefault, Success));
    mid := World(up.k, up.disk, Up(answered));
    PathJoin(w, boot, up, RemovalOf(MetadataDefault), mid);
    first := boot + RemovalOf(MetadataDefault);
    PathKeeps(w, first, mid);
    rest, end := D.RestartBringsBack(mid, MetadataDefault);
  }

  // ---------------------------------------------------------------- "metadata_containers"

  /** With "metadata_containers" marked, a sweep comes to drop its one family. */
  lemma SweepSteps(k: nat, d: Disk, s: Session, c: Cid, mid: Session, s1: Session, s2: Session)
    requires |d.cfs| == k + 1 && s.gc.GcIdle? && MetadataContainers in s.index && s.index[MetadataContainers] == c
    requires c in s.objs && c.name == MetadataContainers && mid == Marked(s, MetadataContainers)
    requires s1 == mid.(gc := Sweeping({c}, [c], Inspect)) && s2 == mid.(gc := Sweeping({c}, [], Dropping(c, 0)))
    ensures EnabledCollector(k, mid, Snapshot([c])) && StepCollector(k, d, mid, Snapshot([c])) == (d, s1)
    ensures EnabledCollector(k, s1, InspectNext) && StepCollector(k, d, s1, InspectNext) == (d, s2)
    ensures EnabledCollector(k, s2, DropInstance(true))
  {
    assert (set x | x in [c]) == {c} && [c][1..] == [];
  }

  /** And the drop takes the records with it. */
  lemma DropsRecords(k: nat, d: Disk, s: Session, c: Cid, s2: Session)
    requires Good(k, d, s) && MetadataContainers in s.index && s.index[MetadataContainers] == c && c in s.objs
    requires s2 == Marked(s, MetadataContainers).(gc := Sweeping({c}, [], Dropping(c, 0)))
    ensures |d.cfs| == k + 1 > 1 && EnabledCollector(k, s2, DropInstance(true))
    ensures var d' := StepCollector(k, d, s2, DropInstance(true)).0;
      DiskOk(k, d') && d'.records == {} && d'.cfs[0] == d.cfs[0]
  {
    hide IndexOk, MetadataEntriesOk, RecordsOk, SerializerOk, CollectorOk, UnindexedOk, CountOk, Ownership;
    MetadataWritable(k, d, s);
  }

  function SweepOf(c: Cid): (acts: seq<Action>) {
    [Snapshot([c]), InspectNext] + [DropInstance(true)]
  }

  /** One removal, one sweep of one container, and a crash. */
  function LosingRun(c: Cid): (acts: seq<Action>)
    ensures acts != [] && acts[0] == BeginRemove(MetadataContainers)
    ensures forall i | 0 < i < |acts| :: Clean(acts[i])
  {
    RemovalOf(MetadataContainers) + [Reply] + SweepOf(c) + [Crash]
  }

  lemma RecordsLost(k: nat, d: Disk, s: Session) returns (acts: seq<Action>, end: World)
    requires Good(k, d, s) && s.ser.SerIdle? && s.gc.GcIdle?
    ensures MetadataContainers in s.index && acts == LosingRun(s.index[MetadataContainers])
    ensures Path(World(k, d, Up(s)), acts, end) && end.k == k && end.mode.Down? && |d.cfs| == k + 1
    ensures DiskOk(k, end.disk) && end.disk.records == {} && end.disk.cfs[0] == d.cfs[0]
  {
    hide Good, DiskOk, Path, Enabled, Step, StepSerializer, EnabledSerializer, StepCollector, EnabledCollector, Live;
    ReservedUnrecorded(k, d, s, MetadataContainers);
    ReservedRemoved(k, d, s, MetadataContainers);
    var c, mid := s.index[MetadataContainers], Marked(s, MetadataContainers);
    var answered := mid.(ser := Replying(Remove, MetadataContainers, Success));
    var s1, s2 := mid.(gc := Sweeping({c}, [c], Inspect)), mid.(gc := Sweeping({c}, [], Dropping(c, 0)));
    SweepSteps(k, d, s, c, mid, s1, s2);
    DropsRecords(k, d, s, c, s2);
    var (d', s3) := StepCollector(k, d, s2, DropInstance(true));
    var w := World(k, d, Up(s));
    LastSteps(k, d, answered, mid, World(k, d', Up(s3)));
    PathThen(w, RemovalOf(MetadataContainers), World(k, d, Up(answered)), Reply);
    CollectorMove(k, d, mid, Snapshot([c]));
    CollectorMove(k, d, s1, InspectNext);
    CollectorMove(k, d, s2, DropInstance(true));
    PathOfTwo(World(k, d, Up(mid)), Snapshot([c]), World(k, d, Up(s1)), InspectNext, World(k, d, Up(s2)));
    PathThen(World(k, d, Up(mid)), [Snapshot([c]), InspectNext], World(k, d, Up(s2)), DropInstance(true));
    PathJoin(w, RemovalOf(MetadataContainers) + [Reply], World(k, d, Up(mid)), SweepOf(c), World(k, d', Up(s3)));
    PathThen(w, RemovalOf(MetadataContainers) + [Reply] + SweepOf(c), World(k, d', Up(s3)), Crash);
    end := World(k, d', Down);
    acts := LosingRun(c);
  }

  lemma LastSteps(k: nat, d: Disk, s: Session, s': Session, w: World)
    requires |d.cfs| == k + 1 && s.ser.Replying? && s' == s.(ser := SerIdle)
    ensures Enabled(World(k, d, Up(s)), Reply) && Step(World(k, d, Up(s)), Reply) == World(k, d, Up(s'))
    ensures Enabled(w, Crash) && Step(w, Crash) == w.(mode := Down)
  {
    SerializerMove(k, d, s, Reply);
  }

  /** Nothing turns a request to remove "metadata_containers" away, and serving it loses every record:
      from any idle session, one remove and one sweep later the next boot finds every container but
      "default" without a record and leaves it to the collector. */
  lemma RemovingRecordsLosesContainers(w: World, n: Name)
    returns (acts: seq<Action>, down: World, boot: seq<Action>, up: World)
    requires Inv(w) && w.mode.Up? && w.mode.s.ser.SerIdle? && w.mode.s.gc.GcIdle?
    requires n in w.disk.records && n != Default
    ensures acts != [] && acts[0] == BeginRemove(MetadataContainers) && Path(w, acts, down)
    ensures forall i | 0 < i < |acts| :: Clean(acts[i])
    ensures down.mode.Down? && down.disk.records == {}
    ensures Path(down, boot, up) && forall a | a in boot :: BootAction(a)
    ensures up.mode.Up? && SoftDeleted(up.mode.s.index, up.mode.s.objs, n)
  {
    hide Path, Enabled, Step, LosingRun, R.BootToEnd, Ownership;
    assert OnEvery(w.k, w.disk.cfs, n) && n in w.disk.cfs[0];
    hide Good, DiskOk;
    InvIsGood(w);
    acts, down := RecordsLost(w.k, w.disk, w.mode.s);
    R.BootReachesUp(down);
    boot := R.BootPath(down);
    up := R.BootToEnd(down);
    assert n in up.disk.cfs[0];
  }
}
