/** What a creation that fails leaves behind: for the rest of the session nothing can be done about it. */
module FailedCreations {
  import opened Types
  import opened Lifecycle
  import opened Invariant
  import opened Runs
  import D = Durability
  import L = Leftovers
  import Gc = CollectorPreservation

  /** In a session, a name without an entry or a record but with a family on partition 0, and not on its way
      to an entry: it was left behind, and the collector, which goes by the index, does not see it. */
  ghost predicate Blocked(w: World, n: Name) {
    && w.mode.Up? && w.k > 0 && |w.disk.cfs| == w.k + 1
    && n !in w.mode.s.index && n !in w.disk.records && n in w.disk.cfs[0]
    && (D.Making(w.mode.s.ser, n) ==> w.mode.s.ser == Creating(n, []))
  }

  lemma BlockedByCalls(k: nat, d: Disk, s: Session, a: Action, n: Name)
    requires a.CreateFamily? || a.PutRecord? || a.DeleteRecord?
    requires EnabledSerializer(k, s, a) && Blocked(World(k, d, Up(s)), n)
    ensures var (d', s') := StepSerializer(k, d, s, a); Blocked(World(k, d', Up(s')), n)
  {
    hide MetadataWriteStatus, HasMetadataRef;
  }

  lemma BlockedBySerializer(k: nat, d: Disk, s: Session, a: Action, n: Name)
    requires SerializerAction(a) && EnabledSerializer(k, s, a) && Blocked(World(k, d, Up(s)), n)
    ensures var (d', s') := StepSerializer(k, d, s, a); Blocked(World(k, d', Up(s')), n)
  {
    if a.CreateFamily? || a.PutRecord? || a.DeleteRecord? {
      hide Blocked, StepSerializer, EnabledSerializer;
      BlockedByCalls(k, d, s, a, n);
    } else if s.ser.SerIdle? {
      hide Blocked, StepSerializer, EnabledSerializer;
      BlockedByRequests(k, d, s, a, n);
    } else {
      hide ExistenceStatus, SlotsOfRefs, AddFamily, MetadataWriteStatus, HasMetadataRef, Good, BeginCreation,
        TakeHandle;
    }
  }

  lemma BlockedByRequests(k: nat, d: Disk, s: Session, a: Action, n: Name)
    requires SerializerAction(a) && EnabledSerializer(k, s, a) && s.ser.SerIdle? && Blocked(World(k, d, Up(s)), n)
    ensures var (d', s') := StepSerializer(k, d, s, a); Blocked(World(k, d', Up(s')), n)
  {
    hide ExistenceStatus, AddFamily, ApproveNext, InsertNew, MarkObject, MetadataWriteStatus, TakeHandle, Good;
  }

  /** The collector drops only what has an entry. */
  lemma DropsIndexed(k: nat, d: Disk, s: Session, ok: bool, n: Name)
    requires Good(k, d, s) && EnabledCollector(k, s, DropInstance(ok)) && |d.cfs| == k + 1 && n !in s.index && k > 0
    ensures var (d', s') := StepCollector(k, d, s, DropInstance(ok)); n in d.cfs[0] ==> n in d'.cfs[0]
  {
    hide Good;
    Gc.DroppingKnown(k, d, s);
  }

  lemma BlockedByCollector(k: nat, d: Disk, s: Session, a: Action, n: Name)
    requires Good(k, d, s) && CollectorAction(a) && EnabledCollector(k, s, a) && Blocked(World(k, d, Up(s)), n)
    requires |StepCollector(k, d, s, a).0.cfs| == k + 1 && n !in StepCollector(k, d, s, a).0.records
    ensures var (d', s') := StepCollector(k, d, s, a); Blocked(World(k, d', Up(s')), n)
  {
    hide Good;
    if a.DropInstance? { DropsIndexed(k, d, s, a.ok, n); }
  }

  lemma BlockedStays(w: World, a: Action, n: Name)
    requires Inv(w) && Clean(a) && Enabled(w, a) && !a.Crash? && Blocked(w, n)
    ensures Blocked(Step(w, a), n)
  {
    hide Good;
    if SerializerAction(a) {
      BlockedBySerializer(w.k, w.disk, w.mode.s, a, n);
    } else if CollectorAction(a) {
      D.CollectorMovesNoRecord(w, a);
      BlockedByCollector(w.k, w.disk, w.mode.s, a, n);
    }
  }

  lemma {:induction false} BlockedAlong(w: World, acts: seq<Action>, end: World, n: Name)
    requires Inv(w) && Path(w, acts, end) && AllClean(acts) && Crash !in acts && Blocked(w, n)
    ensures Inv(end) && Blocked(end, n)
    decreases |acts|
  {
    hide Inv, Enabled, Step, Blocked;
    if acts != [] {
      StepKeeps(w, acts[0]);
      BlockedStays(w, acts[0], n);
      BlockedAlong(Step(w, acts[0]), acts[1..], end, n);
    }
  }

  /** A creation that fails leaves its name blocked, unless it has made nothing and found nothing. */
  lemma FailureBlocks(w: World, a: Action)
    requires Inv(w) && Enabled(w, a) && (a.CreateFamily? || a.PutRecord?) && Step(w, a).mode.s.ser.Replying?
    ensures var n := w.mode.s.ser.name; Blocked(Step(w, a), n) || L.Nowhere(Step(w, a), n)
  {
    hide Ownership, MetadataEntriesOk, RecordsOk, CollectorOk, IndexOk, HasMetadataRef, DiskOk, StepBoot;
    assert NoGapFrom(w.k, w.disk.cfs, w.mode.s.ser.name, 0);
  }

  /** Actions within the session that free every family of n. */
  ghost predicate FreesInSession(w: World, acts: seq<Action>, end: World, n: Name) {
    L.FreesAnyhow(w, acts, end, n) && Crash !in acts
  }

  /** For a name without an entry, between two creations of it: something in this session can free its
      families if and only if it has none on partition 0, which means that it has none at all. */
  lemma FreeableInSessionIff(w: World, n: Name)
    requires Inv(w) && w.mode.Up? && n !in w.mode.s.index && n !in w.disk.records
    requires D.Making(w.mode.s.ser, n) ==> w.mode.s.ser == Creating(n, [])
    ensures |w.disk.cfs| == w.k + 1
    ensures (exists acts, end :: FreesInSession(w, acts, end, n)) <==> n !in w.disk.cfs[0]
  {
    if n in w.disk.cfs[0] {
      assert Blocked(w, n);
      hide Inv;
      forall acts, end | L.FreesAnyhow(w, acts, end, n) && Crash !in acts ensures false {
        BlockedAlong(w, acts, end, n);
      }
    } else {
      assert NoGapFrom(w.k, w.disk.cfs, n, 0);
      assert L.FreesAnyhow(w, [], w, n) && FreesInSession(w, [], w, n);
    }
  }

  /** A blocked name stays blocked until the store goes down, and no creation of it succeeds before that. */
  lemma BlockedUntilRestart(ws: seq<World>, acts: seq<Action>, i: nat, j: nat, n: Name)
    requires Run(ws, acts) && i <= j < |ws| && Blocked(ws[i], n)
    requires forall m | i <= m < j :: !acts[m].Crash?
    ensures Blocked(ws[j], n) && !D.Answering(ws[j], Create, n, Success)
  {
    hide Inv, Enabled, Step, Path;
    RunPath(ws, acts, i, j);
    assert Crash !in acts[i..j];
    BlockedAlong(ws[i], acts[i..j], ws[j], n);
    D.InSession(ws[j], n);
  }
}
