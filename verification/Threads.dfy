/** The two threads that share the index: the serializer puts entries in, the collector takes them out. */
module Threads {
  import opened Types
  import opened Lifecycle
  import opened Invariant
  import opened Runs

  /** The container the collector is on, from the moment it sees it soft-deleted until it takes its entry out. */
  predicate Collecting(s: Session, c: Cid) {
    s.gc.Sweeping? && (s.gc.phase.Dropping? || s.gc.phase.CheckingEntry? || s.gc.phase.Erasing?) && s.gc.phase.cid == c
  }

  /** What a snapshot has seen and the sweep has not come past is still the entry of its name; so the
      entry the collector takes out by name is the container it has dropped. */
  lemma RemovesWhatItSaw(ws: seq<World>, acts: seq<Action>, j: nat, c: Cid)
    requires Run(ws, acts) && j < |ws| && ws[j].mode.Up? && ws[j].mode.s.gc.Sweeping?
    requires c in ws[j].mode.s.gc.todo || Collecting(ws[j].mode.s, c)
    ensures Entry(ws[j].mode.s.index, ws[j].mode.s.objs, c)
    ensures Collecting(ws[j].mode.s, c) ==> ws[j].mode.s.objs[c].deleted && c.name !in ws[j].disk.records
  {
    InvariantAt(ws, acts, j);
    var s := ws[j].mode.s;
    if Collecting(s, c) {
      assert SoftDeleted(s.index, s.objs, c.name);
    }
  }

  /** Within a session a name leaves the index only when the collector erases it, and then its
      families are gone from all data partitions. */
  lemma LeavesOnlyDropped(ws: seq<World>, acts: seq<Action>, j: nat, n: Name)
    requires Run(ws, acts) && j + 1 < |ws| && ws[j].mode.Up? && ws[j + 1].mode.Up?
    requires n in ws[j].mode.s.index
    requires n !in ws[j + 1].mode.s.index || ws[j + 1].mode.s.index[n] != ws[j].mode.s.index[n]
    ensures acts[j].EraseEntry? && Collecting(ws[j].mode.s, ws[j].mode.s.index[n]) && n !in ws[j + 1].mode.s.index
    ensures |ws[j].disk.cfs| == ws[j].k + 1 && forall i | 0 <= i < ws[j].k :: n !in ws[j].disk.cfs[i]
    ensures SoftDeleted(ws[j].mode.s.index, ws[j].mode.s.objs, n) && n !in ws[j].disk.records
  {
    hide Ownership, MetadataEntriesOk, CountOk, UnindexedOk;
    InvariantAt(ws, acts, j);
    assert StepAt(ws, acts, j);
    var w, a := ws[j], acts[j];
    assert IndexOk(w.k, w.disk.cfs, w.mode.s.index, w.mode.s.objs);
    if a.EraseEntry? {
      assert DroppedUpTo(w.k, w.disk.cfs, w.mode.s.index, w.mode.s.objs, w.mode.s.gc.phase.cid, w.k);
    }
  }

  /** Check-then-act is safe with one inserter and one remover: an insert finds the name absent both
      when it checks and when it inserts, so no create ever answers with a collision; the entry the
      collector checks for is still there when it erases it. */
  lemma CheckThenAct(ws: seq<World>, acts: seq<Action>, j: nat)
    requires Run(ws, acts) && j < |ws| && ws[j].mode.Up?
    ensures var s := ws[j].mode.s;
      && (s.ser.CheckingIndex? || s.ser.Inserting? ==> s.ser.name !in s.index)
      && !(s.ser.Replying? && s.ser.status == ContainerInsertionCollision)
      && (s.gc.Sweeping? && (s.gc.phase.CheckingEntry? || s.gc.phase.Erasing?) ==>
            s.gc.phase.cid.name in s.index && s.index[s.gc.phase.cid.name] == s.gc.phase.cid)
  {
    InvariantAt(ws, acts, j);
  }

  /** The running counter is the number of entries, less the insert and more the removal not yet
      counted, and it never goes below the two entries every session has. */
  lemma CounterAgrees(ws: seq<World>, acts: seq<Action>, j: nat)
    requires Run(ws, acts) && j < |ws| && ws[j].mode.Up?
    ensures var s := ws[j].mode.s;
      && s.count == |s.index| - (if s.ser.CountingUp? then 1 else 0)
                              + (if s.gc.Sweeping? && s.gc.phase.CountingDown? then 1 else 0)
      && s.count >= 2
  {
    InvariantAt(ws, acts, j);
    var s := ws[j].mode.s;
    assert {MetadataDefault, MetadataContainers, Default} <= s.index.Keys;
    SubsetCard({MetadataDefault, MetadataContainers, Default}, s.index.Keys);
    assert |s.index.Keys| == |s.index|;
  }

  lemma SubsetCard<T>(a: set<T>, b: set<T>)
    requires a <= b
    ensures |a| <= |b|
  {
    assert b == a + (b - a);
  }

  /** Entries plus validated creates on their way. */
  function Load(s: Session): int {
    s.count + Outstanding(s)
  }

  lemma CreateLoads(k: nat, s: Session, n: Name)
    requires EnabledSerializer(k, s, BeginCreate(n))
    ensures Load(BeginCreation(s, n)) <= Load(s)
  {
    assert s.pending == (s.pending - multiset{n}) + multiset{n};
  }

  lemma CallsLoad(k: nat, d: Disk, s: Session, a: Action)
    requires a.CreateFamily? || a.PutRecord? || a.DeleteRecord?
    requires EnabledSerializer(k, s, a) && |d.cfs| == k + 1
    ensures Load(StepSerializer(k, d, s, a).1) <= Load(s)
  {
    hide MetadataWriteStatus, HasMetadataRef, AddFamily;
  }

  lemma LoadStep(k: nat, d: Disk, s: Session, a: Action)
    requires SerializerAction(a) && EnabledSerializer(k, s, a) && |d.cfs| == k + 1
    ensures Load(StepSerializer(k, d, s, a).1) <= Load(s)
  {
    if a.BeginCreate? {
      CreateLoads(k, s, a.name);
    } else if a.CreateFamily? || a.PutRecord? || a.DeleteRecord? {
      hide StepSerializer, EnabledSerializer, Load;
      CallsLoad(k, d, s, a);
    } else {
      hide MetadataWriteStatus, HasMetadataRef, ExistenceStatus, SlotsOfRefs, BeginCreation, AddFamily;
      assert StepSerializer(k, d, s, a).1.pending == s.pending;
    }
  }

  /**
    * The limit on containers, as it is: a create is validated against the counter before it is
    * enqueued and not again, so with at most p validated creates on their way at any time the
    * counter, they included, stays within max - 1 + p.
    */
  lemma {:induction false} ContainerBound(ws: seq<World>, acts: seq<Action>, lo: nat, hi: nat, max: nat, p: nat)
    requires Run(ws, acts) && lo <= hi < |ws|
    requires forall j | lo <= j <= hi :: AtMostOutstanding(ws[j], p)
    requires forall j | lo <= j < hi :: acts[j].ValidateCreate? ==> acts[j].max == max
    requires WithinBound(ws[lo], max, p)
    ensures WithinBound(ws[hi], max, p)
  {
    if lo < hi {
      var j := hi - 1;
      ContainerBound(ws, acts, lo, j, max, p);
      assert AtMostOutstanding(ws[j], p) && AtMostOutstanding(ws[j + 1], p);
      assert StepAt(ws, acts, j);
      BoundStep(ws[j], acts[j], ws[j + 1], max, p);
    }
  }

  /** A session with at most p validated creates on their way. */
  predicate AtMostOutstanding(w: World, p: nat) {
    w.mode.Up? && Outstanding(w.mode.s) <= p
  }

  predicate WithinBound(w: World, max: nat, p: nat) {
    w.mode.Up? && Load(w.mode.s) <= max - 1 + p
  }

  lemma BoundStep(w: World, a: Action, w': World, max: nat, p: nat)
    requires Enabled(w, a) && w' == Step(w, a) && w.mode.Up? && AtMostOutstanding(w', p)
    requires a.ValidateCreate? ==> a.max == max
    requires WithinBound(w, max, p)
    ensures WithinBound(w', max, p)
  {
    hide StepSerializer, StepCollector, EnabledCollector;
    if SerializerAction(a) {
      LoadStep(w.k, w.disk, w.mode.s, a);
    }
  }

}
