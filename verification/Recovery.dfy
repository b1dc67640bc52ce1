/** Boot never refuses a disk the store itself can leave behind, and rebuilds exactly what the disk says. */
module Recovery {
  import opened Types
  import opened Lifecycle
  import opened Invariant
  import opened Runs
  import Boot = BootPreservation

  /** Live are the recorded names and the two reserved ones; soft-deleted is whatever else is on a data
      partition; all of them are counted, and nobody is at work. */
  ghost predicate Restored(k: nat, d: Disk, s: Session) {
    && |d.cfs| == k + 1
    && (forall n :: Live(s.index, s.objs, n) <==> n in d.records || Reserved(n))
    && (forall n :: SoftDeleted(s.index, s.objs, n) <==> n in DataNames(k, d.cfs) && n !in d.records)
    && (forall n | Live(s.index, s.objs, n) :: AllSlotsFilled(k, n, s.objs[s.index[n]]))
    && s.count == |DataNames(k, d.cfs)| + 2
    && s.ser.SerIdle? && s.gc.GcIdle? && s.pending == multiset{}
  }

  predicate AllSlotsFilled(k: nat, n: Name, o: Obj) {
    && |o.instances| == (if Reserved(n) then 1 else k)
    && forall i | 0 <= i < |o.instances| :: o.instances[i].ref.Some?
  }

  lemma LoadedName(k: nat, d: Disk, s: Session, n: Name)
    requires Boot.Bootable(k, d) && Boot.AsLoaded(k, d, s)
    ensures Live(s.index, s.objs, n) <==> n in d.records || Reserved(n)
    ensures SoftDeleted(s.index, s.objs, n) <==> n in DataNames(k, d.cfs) && n !in d.records
    ensures Live(s.index, s.objs, n) ==> AllSlotsFilled(k, n, s.objs[s.index[n]])
    ensures n in s.index <==> n in DataNames(k, d.cfs) || Reserved(n)
    ensures n in DataNames(k, d.cfs) ==> !Reserved(n)
  {
    if n in d.records {
      assert OnEvery(k, d.cfs, n) && n in d.cfs[0];
      assert s.objs[Cid(n, 0)].instances == Slots(k, d.cfs, n);
    } else if n in DataNames(k, d.cfs) {
      var i :| 0 <= i < k && n in d.cfs[i];
      assert !Reserved(n);
    }
  }

  lemma LoadingRestores(k: nat, d: Disk)
    requires Boot.Bootable(k, d)
    ensures Loadable(k, d) && Restored(k, d, FirstSession(k, d))
  {
    hide DiskOk, FirstSession, Loadable, Boot.NamesAsLoaded, Boot.HandlesAsLoaded, DataNames, SoftDeleted;
    Boot.ReachableIsLoadable(k, d);
    Boot.FirstSessionAsLoaded(k, d);
    var s := FirstSession(k, d);
    forall n
      ensures Live(s.index, s.objs, n) <==> n in d.records || Reserved(n)
      ensures SoftDeleted(s.index, s.objs, n) <==> n in DataNames(k, d.cfs) && n !in d.records
      ensures Live(s.index, s.objs, n) ==> AllSlotsFilled(k, n, s.objs[s.index[n]])
      ensures n in s.index <==> n in DataNames(k, d.cfs) || Reserved(n)
      ensures n in DataNames(k, d.cfs) ==> !Reserved(n)
    {
      LoadedName(k, d, s, n);
    }
    assert s.index.Keys == DataNames(k, d.cfs) + {MetadataDefault, MetadataContainers};
    assert s.count == |s.index| == |s.index.Keys|;
  }

  /** The next boot action, every engine call succeeding. */
  function NextBoot(w: World): Action
    requires !w.mode.Up?
  {
    match w.mode
    case Down => StartBoot
    case Booting(Opening(_)) => OpenPartition(true)
    case Booting(CreatingMetadata) => CreateMetadata(true)
    case Booting(SeedingMetadata) => SeedMetadata(true)
    case Booting(Loading) => LoadIndex(true)
  }

  function BootDistance(w: World): nat {
    match w.mode
    case Up(_) => 0
    case Booting(Loading) => 1
    case Booting(SeedingMetadata) => 2
    case Booting(CreatingMetadata) => 3
    case Booting(Opening(done)) => 4 + if done <= w.k then w.k + 1 - done else 0
    case Down => w.k + 6
  }

  /** Boot from wherever it stands, to the end. */
  ghost function BootToEnd(w: World): World
    requires Inv(w)
    decreases BootDistance(w)
  {
    if w.mode.Up? then w
    else
      BootProgress(w);
      BootToEnd(Step(w, NextBoot(w)))
  }

  lemma BootProgress(w: World)
    requires Inv(w) && !w.mode.Up?
    ensures Enabled(w, NextBoot(w)) && Inv(Step(w, NextBoot(w)))
    ensures BootDistance(Step(w, NextBoot(w))) < BootDistance(w)
    ensures Step(w, NextBoot(w)).mode.Up? ==>
      Restored(w.k, w.disk, Step(w, NextBoot(w)).mode.s) && Step(w, NextBoot(w)).disk == w.disk
  {
    hide Good, FirstSession, Loadable, Restored;
    StepKeeps(w, NextBoot(w));
    if w.mode == Booting(Loading) {
      LoadingRestores(w.k, w.disk);
    }
  }

  lemma {:induction false} BootReachesUp(w: World)
    requires Inv(w)
    ensures BootToEnd(w).mode.Up? && BootToEnd(w).k == w.k && Inv(BootToEnd(w))
    ensures !w.mode.Up? ==> Restored(w.k, BootToEnd(w).disk, BootToEnd(w).mode.s)
    ensures w.disk.records <= BootToEnd(w).disk.records <= w.disk.records + {Default}
    ensures forall i, n | 0 <= i <= w.k && n in w.disk.cfs[i] ::
      n in BootToEnd(w).disk.cfs[i] && BootToEnd(w).disk.cfs[i][n] == w.disk.cfs[i][n]
    decreases BootDistance(w)
  {
    hide Good, FirstSession, Loadable, Restored;
    if !w.mode.Up? {
      BootProgress(w);
      BootReachesUp(Step(w, NextBoot(w)));
    }
  }

  /** That boot is a path, and made of nothing but boot actions. */
  lemma {:induction false} BootPath(w: World) returns (acts: seq<Action>)
    requires Inv(w)
    ensures Path(w, acts, BootToEnd(w)) && AllClean(acts)
    ensures forall a | a in acts :: BootAction(a)
    decreases BootDistance(w)
  {
    if w.mode.Up? {
      acts := [];
    } else {
      BootProgress(w);
      acts := BootPath(Step(w, NextBoot(w)));
      PathFirst(w, NextBoot(w), acts, BootToEnd(w));
      acts := [NextBoot(w)] + acts;
    }
  }

  /**
    * From the disk of every point of every run, in the middle of a creation, of a collection or
    * of a first boot, a boot whose engine calls succeed comes up, and the index is the one the
    * disk stands for.
    */
  lemma RecoveryNeverRefuses(ws: seq<World>, acts: seq<Action>, i: nat)
    requires Run(ws, acts) && i < |ws|
    ensures Inv(ws[i].(mode := Down))
    ensures var up := BootToEnd(ws[i].(mode := Down)); up.mode.Up? && Restored(up.k, up.disk, up.mode.s)
    ensures ws[i].disk.records <= BootToEnd(ws[i].(mode := Down)).disk.records <= ws[i].disk.records + {Default}
  {
    InvariantAt(ws, acts, i);
    BootReachesUp(ws[i].(mode := Down));
  }
}
