/** What a restart does to the count of containers, and by how much it can pass the limit that way. */
module Restarts {
  import opened Types
  import opened Lifecycle
  import opened Invariant
  import opened Runs
  import Boot = BootPreservation
  import R = Recovery
  import L = Limits
  import Left = Leftovers
  import S = SingleThread

  /** A session as a boot leaves it. */
  ghost predicate Begun(w: World) {
    w.mode.Up? && R.Restored(w.k, w.disk, w.mode.s)
  }

  // ---------------------------------------------------------------- a restart

  lemma BootKeepsNames(w: World)
    requires Inv(w) && w.mode.Down? && Opened(w.k, w.disk.cfs)
    ensures var up := R.BootToEnd(w); up.k == w.k && |up.disk.cfs| == w.k + 1 && |w.disk.cfs| == w.k + 1
    ensures DataNames(w.k, R.BootToEnd(w).disk.cfs) == DataNames(w.k, w.disk.cfs)
  {
    R.BootReachesUp(w);
    var up := R.BootToEnd(w);
    assert Inv(up) && up.mode.Up?;
    forall n ensures n in DataNames(w.k, up.disk.cfs) <==> n in DataNames(w.k, w.disk.cfs) {
      if n != Default && n != MetadataContainers {
        Left.BootKeepsFamilies(w, n);
      } else {
        NeverData(w.k, w.disk, n);
        NeverData(w.k, up.disk, n);
      }
    }
  }

  lemma NeverData(k: nat, d: Disk, n: Name)
    requires DiskOk(k, d) && Opened(k, d.cfs) && (n == Default || n == MetadataContainers)
    ensures n in DataNames(k, d.cfs) <==> n == Default
  {
    assert Default in d.cfs[0];
    if n in DataNames(k, d.cfs) {
      var i :| 0 <= i < k && n in d.cfs[i];
      assert !Reserved(n);
    }
  }

  /** After a restart every name found on a data partition is counted, also those that creations left there. */
  lemma RestartCounts(w: World)
    requires Inv(w) && w.mode.Up?
    ensures var up := R.BootToEnd(w.(mode := Down));
      && |w.disk.cfs| == w.k + 1 && up.mode.Up? && Begun(up)
      && up.mode.s.count == |DataNames(w.k, w.disk.cfs)| + 2
  {
    hide Ownership, IndexOk, RecordsOk, SerializerOk, CollectorOk;
    R.BootReachesUp(w.(mode := Down));
    BootKeepsNames(w.(mode := Down));
  }

  // ---------------------------------------------------------------- creations that fail

  /** A session in which nobody creates or removes anything, and the next create will be validated. */
  ghost predicate Resting(w: World, max: nat) {
    Inv(w) && w.mode.Up? && w.mode.s.ser.SerIdle? && w.mode.s.pending == multiset{} && w.mode.s.count < max
  }

  /** The call that fails: to the next engine, or for the record. */
  function FailingCall(k: nat): (a: Action)
    ensures SerializerAction(a) && Clean(a)
  {
    if k == 1 then PutRecord(false) else CreateFamily(false)
  }

  /** With a family made on partition 0, the session before the failing call. */
  function Midway(d: Disk, s: Session, n: Name): Session {
    TakeHandle(s.(ser := Creating(n, [])), Ref(0, n, d.next))
  }

  lemma FailingSteps(k: nat, d: Disk, s: Session, n: Name)
    requires Good(k, d, s) && s.ser.SerIdle? && s.pending == multiset{} && n !in s.index && |d.cfs| == k + 1 && k > 0
    requires forall i | 0 <= i < k :: n !in d.cfs[i]
    ensures var s1, s2, s3 := s.(pending := multiset{n}), s.(ser := Creating(n, [])), Midway(d, s, n);
      var d' := AddFamily(d, 0, n); var a := FailingCall(k);
      && EnabledSerializer(k, s1, BeginCreate(n)) && StepSerializer(k, d, s1, BeginCreate(n)) == (d, s2)
      && EnabledSerializer(k, s2, CreateFamily(true)) && StepSerializer(k, d, s2, CreateFamily(true)) == (d', s3)
      && EnabledSerializer(k, s3, a)
      && var (d4, s4) := StepSerializer(k, d', s3, a);
         && d4 == d' && s4.ser.Replying? && s4 == s3.(ser := s4.ser)
         && EnabledSerializer(k, s4, Reply) && StepSerializer(k, d', s4, Reply) == (d', s3.(ser := SerIdle))
  {
    hide Ownership, DiskOk, EntryOk, RecordsOk, CollectorOk, UnindexedOk, CountOk;
    assert multiset{n} - multiset{n} == multiset{};
  }

  /** One create from its validation to its answer. */
  function FailingCreate(k: nat, n: Name, max: nat): (acts: seq<Action>) {
    [ValidateCreate(n, max)] + ([BeginCreate(n)] + ([CreateFamily(true)] + ([FailingCall(k)] + [Reply])))
  }

  /** One such create after the other. */
  function FailingCreates(k: nat, names: seq<Name>, max: nat): (acts: seq<Action>)
    ensures AllClean(acts)
  {
    if names == [] then [] else FailingCreate(k, names[0], max) + FailingCreates(k, names[1..], max)
  }

  lemma CreateFails(w: World, n: Name, max: nat) returns (end: World)
    requires Resting(w, max) && n !in w.mode.s.index && |w.disk.cfs| == w.k + 1 && w.k > 0
    requires forall i | 0 <= i < w.k :: n !in w.disk.cfs[i]
    ensures Path(w, FailingCreate(w.k, n, max), end) && Resting(end, max)
    ensures end.k == w.k && end.disk == AddFamily(w.disk, 0, n)
    ensures end.mode.s.index == w.mode.s.index && end.mode.s.count == w.mode.s.count
  {
    hide Inv, Good, Enabled, Step, StepSerializer, EnabledSerializer, Path;
    InvIsGood(w);
    var k, d, s := w.k, w.disk, w.mode.s;
    FailingSteps(k, d, s, n);
    var d', a := AddFamily(d, 0, n), FailingCall(k);
    var s1, s2, s3 := s.(pending := multiset{n}), s.(ser := Creating(n, [])), Midway(d, s, n);
    var s4 := StepSerializer(k, d', s3, a).1;
    end := World(k, d', Up(s3.(ser := SerIdle)));
    assert s.pending + multiset{n} == multiset{n};
    HolderMove(k, d, s, ValidateCreate(n, max));
    SerializerMove(k, d, s1, BeginCreate(n));
    SerializerMove(k, d, s2, CreateFamily(true));
    SerializerMove(k, d', s3, a);
    SerializerMove(k, d', s4, Reply);
    PathOne(World(k, d', Up(s4)), Reply, end);
    PathFirst(World(k, d', Up(s3)), a, [Reply], end);
    PathFirst(World(k, d, Up(s2)), CreateFamily(true), [a] + [Reply], end);
    PathFirst(World(k, d, Up(s1)), BeginCreate(n), [CreateFamily(true)] + ([a] + [Reply]), end);
    PathFirst(w, ValidateCreate(n, max), [BeginCreate(n)] + ([CreateFamily(true)] + ([a] + [Reply])), end);
    PathKeeps(w, FailingCreate(k, n, max), end);
  }

  lemma PathOne(w: World, a: Action, end: World)
    requires Enabled(w, a) && end == Step(w, a)
    ensures Path(w, [a], end)
  {
    assert [a][1..] == [];
  }

  lemma OneNameMore(k: nat, d: Disk, n: Name)
    requires |d.cfs| == k + 1 && k > 0
    ensures DataNames(k, AddFamily(d, 0, n).cfs) == DataNames(k, d.cfs) + {n}
  {
    var d' := AddFamily(d, 0, n);
    assert n in d'.cfs[0];
    forall m | m in DataNames(k, d.cfs) ensures m in DataNames(k, d'.cfs) {
      var i :| 0 <= i < k && m in d.cfs[i];
      assert m in d'.cfs[i];
    }
  }

  /** One creation after the other fails; the counter does not notice. */
  lemma {:induction false} AllFail(w: World, names: seq<Name>, max: nat) returns (end: World)
    requires Resting(w, max) && S.AllNew(w.k, w.disk.cfs, w.mode.s.index, names) && w.k > 0
    ensures Path(w, FailingCreates(w.k, names, max), end) && Resting(end, max)
    ensures end.k == w.k && |end.disk.cfs| == w.k + 1
    ensures |DataNames(w.k, end.disk.cfs)| == |DataNames(w.k, w.disk.cfs)| + |names|
    decreases |names|
  {
    hide Inv, Enabled, Step;
    if names == [] {
      end := w;
    } else {
      var next := CreateFails(w, names[0], max);
      OneNameMore(w.k, w.disk, names[0]);
      end := AllFail(next, names[1..], max);
      PathJoin(w, FailingCreate(w.k, names[0], max), next, FailingCreates(w.k, names[1..], max), end);
    }
  }

  /**
    * Across a restart the limit is no bound at all, not even with one create at a time: from a session as
    * it begins, with room for one container more, any number of creations, each validated against the limit
    * and each failing on the way before the next is asked for, leave so many containers more in the next
    * session.
    */
  lemma RestartPassesLimit(w: World, names: seq<Name>, max: nat) returns (boot: seq<Action>, end: World)
    requires Inv(w) && Begun(w) && w.mode.s.count == max - 1 && S.AllNew(w.k, w.disk.cfs, w.mode.s.index, names)
    ensures Path(w, FailingCreates(w.k, names, max) + ([Crash] + boot), end) && forall a | a in boot :: BootAction(a)
    ensures end.mode.Up? && end.mode.s.count == max - 1 + |names|
  {
    assert w.k > 0;
    hide Inv, Enabled, R.BootToEnd, Path;
    var mid := AllFail(w, names, max);
    var down := Step(mid, Crash);
    assert Enabled(mid, Crash) && down == mid.(mode := Down) by { CrashIs(mid); }
    hide Step;
    RestartCounts(mid);
    StepKeeps(mid, Crash);
    boot := R.BootPath(down);
    end := R.BootToEnd(down);
    PathFirst(mid, Crash, boot, end);
    PathJoin(w, FailingCreates(w.k, names, max), mid, [Crash] + boot, end);
  }

  lemma CrashIs(w: World)
    ensures Enabled(w, Crash) && Step(w, Crash) == w.(mode := Down)
  {
  }
}
