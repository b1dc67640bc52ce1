/** Families of containers without a record: exactly when they can still be freed, and that the others never are. */
module Leftovers {
  import opened Types
  import opened Lifecycle
  import opened Invariant
  import opened Runs
  import D = Durability
  import R = Recovery
  import Gc = CollectorPreservation

  /** The collector is dropping n and has come past slot q. */
  predicate PastSlot(s: Session, n: Name, q: nat) {
    s.gc.Sweeping? && s.gc.phase.Dropping? && s.gc.phase.cid.name == n && s.gc.phase.next > q
  }

  /** Name n, without a record, has no family on partition q but one on the later partition p, and the
      collector is not on its way from one to the other. */
  ghost predicate Stranded(w: World, n: Name, q: nat, p: nat) {
    && !Reserved(n) && n != Default
    && |w.disk.cfs| == w.k + 1
    && q < p < w.k && n !in w.disk.cfs[q] && n in w.disk.cfs[p]
    && n !in w.disk.records
    && (w.mode.Up? ==> n in w.mode.s.index && !PastSlot(w.mode.s, n, q))
  }

  /** A drop that fails, or a crash, after some slots were dropped and before all were, strands the name. */
  lemma InterruptedDropStrands(w: World, q: nat, p: nat)
    requires Inv(w) && w.mode.Up? && w.mode.s.gc.Sweeping? && w.mode.s.gc.phase.Dropping?
    requires q < w.mode.s.gc.phase.next <= p < w.k && w.mode.s.gc.phase.cid.name in w.disk.cfs[p]
    ensures Enabled(w, DropInstance(false)) && Stranded(Step(w, DropInstance(false)), w.mode.s.gc.phase.cid.name, q, p)
    ensures Stranded(Step(w, Crash), w.mode.s.gc.phase.cid.name, q, p)
  {
    hide Inv, Good, Enabled;
    InvIsGood(w);
    Gc.DroppingKnown(w.k, w.disk, w.mode.s);
    assert w.mode.s.gc.phase.cid.name !in w.disk.cfs[0];
    CollectorMove(w.k, w.disk, w.mode.s, DropInstance(false));
  }

  // ---------------------------------------------------------------- stranded, and for good

  lemma StrandedBySerializer(w: World, a: Action, n: Name, q: nat, p: nat)
    requires Inv(w) && SerializerAction(a) && Clean(a) && Enabled(w, a) && Stranded(w, n, q, p)
    ensures Stranded(Step(w, a), n, q, p)
  {
    hide Inv, Clean, MetadataWriteStatus, HasMetadataRef, ExistenceStatus, SlotsOfRefs, StepCollector,
      StepHolder, StepBoot;
    var s := w.mode.s;
    D.InSession(w, n);
    D.RecordsMove(w, a, n);
    if a.CreateFamily? {
      assert s.ser.name != n;
    }
  }

  lemma StrandedByErase(k: nat, d: Disk, s: Session, n: Name, p: nat)
    requires Good(k, d, s) && s.gc.Sweeping? && (s.gc.phase.Erasing? || s.gc.phase.CheckingEntry?) && p < k
    requires n in d.cfs[p]
    ensures s.gc.phase.cid.name != n
  {
    hide Ownership;
    assert DroppedUpTo(k, d.cfs, s.index, s.objs, s.gc.phase.cid, k);
  }

  /** A drop of a stranded name stops before its gap or at it; a drop of another name is another name's; and
      an erased entry had no families left. */
  lemma StrandedByCollector(k: nat, d: Disk, s: Session, a: Action, n: Name, q: nat, p: nat)
    requires Good(k, d, s) && CollectorAction(a) && EnabledCollector(k, s, a) && Stranded(World(k, d, Up(s)), n, q, p)
    ensures var (d', s') := StepCollector(k, d, s, a);
      n !in d'.cfs[q] && n in d'.cfs[p] && n in s'.index && !PastSlot(s', n, q)
  {
    hide Good;
    if a.DropInstance? {
      Gc.DroppingKnown(k, d, s);
    } else if a.EraseEntry? {
      StrandedByErase(k, d, s, n, p);
    }
  }

  lemma StrandedByBoot(w: World, a: Action, n: Name, q: nat, p: nat)
    requires Inv(w) && BootAction(a) && Enabled(w, a) && Stranded(w, n, q, p)
    ensures Stranded(Step(w, a), n, q, p)
  {
    hide Loadable, FirstSession, DiskOk;
    if a.LoadIndex? { R.LoadingRestores(w.k, w.disk); }
  }

  lemma StrandedStays(w: World, a: Action, n: Name, q: nat, p: nat)
    requires Inv(w) && Clean(a) && Enabled(w, a) && Stranded(w, n, q, p)
    ensures Stranded(Step(w, a), n, q, p)
  {
    hide Core, Ownership;
    if SerializerAction(a) {
      StrandedBySerializer(w, a, n, q, p);
    } else if CollectorAction(a) {
      D.CollectorMovesNoRecord(w, a);
      StrandedByCollector(w.k, w.disk, w.mode.s, a, n, q, p);
    } else if BootAction(a) {
      StrandedByBoot(w, a, n, q, p);
    } else if !a.Crash? {
      assert Step(w, a).mode.s == StepHolder(w.k, w.mode.s, a);
    }
  }

  lemma StrandedIsSoftDeleted(w: World, n: Name, q: nat, p: nat)
    requires Inv(w) && w.mode.Up? && Stranded(w, n, q, p)
    ensures SoftDeleted(w.mode.s.index, w.mode.s.objs, n)
  {
    hide Ownership;
    assert EntryOk(w.k, w.disk.cfs, n, w.mode.s.objs[w.mode.s.index[n]]);
  }

  /** A stranded name is stranded for good: no sweep, restart or request frees the families it has behind
      its gap, and every session refuses to create it again. */
  lemma StrandedForever(ws: seq<World>, acts: seq<Action>, i: nat, j: nat, n: Name, q: nat, p: nat)
    requires Run(ws, acts) && i <= j < |ws| && Stranded(ws[i], n, q, p)
    ensures Stranded(ws[j], n, q, p)
    ensures ws[j].mode.Up? ==> SoftDeleted(ws[j].mode.s.index, ws[j].mode.s.objs, n)
  {
    hide Inv, Enabled, Step, Stranded, Path;
    RunPath(ws, acts, i, j);
    StrandedAlong(ws[i], acts[i..j], ws[j], n, q, p);
    InvariantAt(ws, acts, j);
    if ws[j].mode.Up? { StrandedIsSoftDeleted(ws[j], n, q, p); }
  }

  lemma {:induction false} StrandedAlong(w: World, acts: seq<Action>, end: World, n: Name, q: nat, p: nat)
    requires Inv(w) && Path(w, acts, end) && AllClean(acts) && Stranded(w, n, q, p)
    ensures Stranded(end, n, q, p)
    decreases |acts|
  {
    hide Inv, Enabled, Step, Stranded;
    if acts != [] {
      StepKeeps(w, acts[0]);
      StrandedStays(w, acts[0], n, q, p);
      StrandedAlong(Step(w, acts[0]), acts[1..], end, n, q, p);
    }
  }

  // ---------------------------------------------------------------- freed by the collector

  ghost predicate AllCollector(acts: seq<Action>) {
    forall i | 0 <= i < |acts| :: CollectorAction(acts[i])
  }

  ghost predicate Nowhere(w: World, n: Name) {
    |w.disk.cfs| == w.k + 1 && forall i | 0 <= i < w.k :: n !in w.disk.cfs[i]
  }

  /** With its family there, the next slot of a container that is being dropped can be dropped. */
  lemma NextDrops(k: nat, d: Disk, s: Session)
    requires Good(k, d, s) && s.gc.Sweeping? && s.gc.phase.Dropping? && s.gc.phase.next < k
    requires var n := s.gc.phase.cid.name;
      |d.cfs| == k + 1 && !Reserved(n) && n != Default && n in d.cfs[s.gc.phase.next]
    ensures EnabledCollector(k, s, DropInstance(true))
    ensures var (d', s') := StepCollector(k, d, s, DropInstance(true)); var c, j := s.gc.phase.cid, s.gc.phase.next;
      && s' == EnterPhase(s, Dropping(c, j + 1)) && |d'.cfs| == k + 1
      && (forall i | 0 <= i < k :: c.name in d'.cfs[i] <==> i != j && c.name in d.cfs[i])
  {
    hide Good;
    Gc.DroppingKnown(k, d, s);
  }

  lemma CollectorPath(w: World, a: Action)
    requires Inv(w) && w.mode.Up? && CollectorAction(a) && |w.disk.cfs| == w.k + 1 && EnabledCollector(w.k, w.mode.s, a)
    ensures Enabled(w, a) && Inv(Step(w, a)) && Step(w, a).k == w.k
    ensures var (d, s) := StepCollector(w.k, w.disk, w.mode.s, a); Step(w, a) == World(w.k, d, Up(s))
  {
    hide Inv, Good, Enabled, Step, StepCollector, EnabledCollector;
    InvIsGood(w);
    var (d, s) := StepCollector(w.k, w.disk, w.mode.s, a);
    CollectorMove(w.k, w.disk, w.mode.s, a);
    CollectorStepKeeps(w.k, w.disk, w.mode.s, a);
    GoodIsInv(w.k, d, s);
  }

  /** The collector is dropping n, and what it has still to drop has no gap. */
  ghost predicate UnderWay(w: World, n: Name) {
    && w.mode.Up? && w.mode.s.gc.Sweeping? && w.mode.s.gc.phase.Dropping? && w.mode.s.gc.phase.cid.name == n
    && !Reserved(n) && n != Default && NoGapFrom(w.k, w.disk.cfs, n, w.mode.s.gc.phase.next)
  }

  lemma DropOnce(w: World, n: Name) returns (next: World)
    requires Inv(w) && UnderWay(w, n) && !Nowhere(w, n)
    ensures Enabled(w, DropInstance(true)) && next == Step(w, DropInstance(true)) && Inv(next) && UnderWay(next, n)
    ensures next.k == w.k && next.mode.s.gc.phase.next == w.mode.s.gc.phase.next + 1 <= w.k
  {
    hide Inv, Good, Enabled, Step, StepCollector, EnabledCollector;
    InvIsGood(w);
    var j := w.mode.s.gc.phase.next;
    Gc.DroppingKnown(w.k, w.disk, w.mode.s);
    assert j < w.k && n in w.disk.cfs[j];
    NextDrops(w.k, w.disk, w.mode.s);
    CollectorPath(w, DropInstance(true));
    next := Step(w, DropInstance(true));
  }

  /** A collector in the middle of dropping n goes on to its last family. */
  lemma {:induction false} DropRest(w: World, n: Name) returns (acts: seq<Action>, end: World)
    requires Inv(w) && UnderWay(w, n)
    ensures Path(w, acts, end) && AllCollector(acts) && Nowhere(end, n)
    decreases w.k - w.mode.s.gc.phase.next
  {
    hide Inv, Enabled, Step, NoGapFrom;
    if Nowhere(w, n) {
      acts, end := [], w;
    } else {
      var next := DropOnce(w, n);
      acts, end := DropRest(next, n);
      PathFirst(w, DropInstance(true), acts, end);
      acts := [DropInstance(true)] + acts;
    }
  }

  /** An idle collector that takes up a name whose families form a prefix frees them all. */
  lemma CollectPrefix(w: World, n: Name) returns (acts: seq<Action>, end: World)
    requires Inv(w) && w.mode.Up? && w.mode.s.gc.GcIdle? && SoftDeleted(w.mode.s.index, w.mode.s.objs, n)
    requires !Reserved(n) && n != Default && NoGapFrom(w.k, w.disk.cfs, n, 0)
    ensures Path(w, acts, end) && AllCollector(acts) && Nowhere(end, n)
  {
    var c := w.mode.s.index[n];
    assert c.name == n;
    hide Core, Ownership, Enabled, Step;
    CollectorPath(w, Snapshot([c]));
    var w1 := Step(w, Snapshot([c]));
    CollectorPath(w1, InspectNext);
    var w2 := Step(w1, InspectNext);
    acts, end := DropRest(w2, n);
    PathFirst(w1, InspectNext, acts, end);
    PathFirst(w, Snapshot([c]), [InspectNext] + acts, end);
    acts := [Snapshot([c])] + ([InspectNext] + acts);
  }

  // ---------------------------------------------------------------- exactly when

  /** Actions of the collector alone that free every family of n. */
  ghost predicate Frees(w: World, acts: seq<Action>, end: World, n: Name) {
    Path(w, acts, end) && AllCollector(acts) && Nowhere(end, n)
  }

  /** Actions of any kind, crashes and requests among them. */
  ghost predicate FreesAnyhow(w: World, acts: seq<Action>, end: World, n: Name) {
    Path(w, acts, end) && AllClean(acts) && Nowhere(end, n)
  }

  /** An idle collector can free a container without a record if and only if its families are those of the
      first partitions: so it can after a restart that follows a failed creation, and never once a drop was
      broken off. */
  lemma CollectableIff(w: World, n: Name)
    requires Inv(w) && w.mode.Up? && w.mode.s.gc.GcIdle? && SoftDeleted(w.mode.s.index, w.mode.s.objs, n)
    requires !Reserved(n) && n != Default
    ensures (exists acts, end :: Frees(w, acts, end, n)) <==> NoGapFrom(w.k, w.disk.cfs, n, 0)
    ensures (exists acts, end :: FreesAnyhow(w, acts, end, n)) <==> NoGapFrom(w.k, w.disk.cfs, n, 0)
  {
    hide Inv;
    D.InSession(w, n);
    if NoGapFrom(w.k, w.disk.cfs, n, 0) {
      var acts, end := CollectPrefix(w, n);
      assert Frees(w, acts, end, n) && FreesAnyhow(w, acts, end, n);
    } else {
      var q, p :| 0 <= q < p < w.k && n !in w.disk.cfs[q] && n in w.disk.cfs[p];
      forall acts, end | Path(w, acts, end) && (AllClean(acts) || AllCollector(acts)) ensures !Nowhere(end, n) {
        StrandedAlong(w, acts, end, n, q, p);
      }
    }
  }

  // ---------------------------------------------------------------- from any point of any run

  ghost predicate StrandedSomehow(w: World, n: Name) {
    exists q, p :: Stranded(w, n, q, p)
  }

  /** Boot adds no family but "default" and the records'. */
  lemma {:induction false} BootKeepsFamilies(w: World, n: Name)
    requires Inv(w) && n != Default && n != MetadataContainers
    ensures R.BootToEnd(w).k == w.k && |w.disk.cfs| == w.k + 1 == |R.BootToEnd(w).disk.cfs|
    ensures forall i | 0 <= i <= w.k :: n in R.BootToEnd(w).disk.cfs[i] <==> n in w.disk.cfs[i]
    decreases R.BootDistance(w)
  {
    if !w.mode.Up? {
      R.BootProgress(w);
      BootKeepsFamilies(Step(w, R.NextBoot(w)), n);
    }
  }

  /** A client's name without a record: in a session it may wait for collection, be in the serializer's
      hands, or have no entry, as after a creation that failed. */
  predicate Unrecorded(w: World, n: Name) {
    n !in w.disk.records && !Reserved(n) && n != Default
  }

  lemma FreeFromDown(w: World, n: Name) returns (acts: seq<Action>, end: World)
    requires Inv(w) && !w.mode.Up? && Unrecorded(w, n) && !StrandedSomehow(w, n)
    ensures FreesAnyhow(w, acts, end, n)
  {
    hide Inv, Path, Step, Enabled, R.BootToEnd;
    R.BootReachesUp(w);
    BootKeepsFamilies(w, n);
    var up := R.BootToEnd(w);
    acts := R.BootPath(w);
    if Nowhere(up, n) {
      end := up;
    } else {
      forall q, p | 0 <= q < p < w.k && n !in up.disk.cfs[q] ensures n !in up.disk.cfs[p] {
        assert !Stranded(w, n, q, p);
      }
      var more;
      more, end := CollectPrefix(up, n);
      PathJoin(w, acts, up, more, end);
      acts := acts + more;
    }
  }

  /** In a session a name that is not stranded has no gap, beyond what is being dropped of it. */
  lemma GapIsStranded(w: World, n: Name, from: nat)
    requires Inv(w) && w.mode.Up? && Unrecorded(w, n) && !StrandedSomehow(w, n)
    requires var gc := w.mode.s.gc;
      if gc.Sweeping? && gc.phase.Dropping? && gc.phase.cid.name == n then from == gc.phase.next else from == 0
    ensures NoGapFrom(w.k, w.disk.cfs, n, from)
  {
    hide Ownership;
    if n !in w.mode.s.index { assert NoGapFrom(w.k, w.disk.cfs, n, 0); }
    forall q, p | from <= q < p < w.k && n !in w.disk.cfs[q] ensures n !in w.disk.cfs[p] {
      assert !Stranded(w, n, q, p);
    }
  }

  /** What a session will not collect, the next one does. */
  lemma FreeByRestart(w: World, n: Name) returns (acts: seq<Action>, end: World)
    requires Inv(w) && w.mode.Up? && Unrecorded(w, n) && NoGapFrom(w.k, w.disk.cfs, n, 0)
    ensures FreesAnyhow(w, acts, end, n)
  {
    hide Inv, Path;
    var down := Step(w, Crash);
    StepKeeps(w, Crash);
    acts, end := FreeFromDown(down, n);
    hide Enabled, Step;
    PathFirst(w, Crash, acts, end);
    acts := [Crash] + acts;
  }

  /**
    * From any point of any run the families of a client's name without a record can still be freed, by any
    * clean actions whatever, if and only if the name is not stranded: no partition lacks its family while a
    * later one has it and no collection is on its way from the one to the other.
    */
  lemma FreeableIff(w: World, n: Name)
    requires Inv(w) && Unrecorded(w, n)
    ensures (exists acts, end :: FreesAnyhow(w, acts, end, n)) <==> !StrandedSomehow(w, n)
  {
    hide Inv;
    if StrandedSomehow(w, n) {
      var q, p :| Stranded(w, n, q, p);
      forall acts, end | Path(w, acts, end) && AllClean(acts) ensures !Nowhere(end, n) {
        StrandedAlong(w, acts, end, n, q, p);
      }
    } else if !w.mode.Up? {
      var acts, end := FreeFromDown(w, n);
      assert FreesAnyhow(w, acts, end, n);
    } else if w.mode.s.gc.Sweeping? && w.mode.s.gc.phase.Dropping? && w.mode.s.gc.phase.cid.name == n {
      GapIsStranded(w, n, w.mode.s.gc.phase.next);
      var acts, end := DropRest(w, n);
      assert FreesAnyhow(w, acts, end, n);
    } else {
      GapIsStranded(w, n, 0);
      var acts, end := FreeByRestart(w, n);
      assert FreesAnyhow(w, acts, end, n);
    }
  }
}
