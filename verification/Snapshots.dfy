/**
  * The sharded map under concurrency: a writer locks one shard for itself, a reader of the
  * whole map locks the shards one after the other, then scans them all and lets go. What
  * such a reader returns is the contents and the size of the one flat map at the instant it
  * got its last lock.
  */
module Snapshots {
  import opened Types
  import opened ConcurrentMap

  datatype Change<V> = Assign(value: V) | Remove

  /** A writer waits for its shard, holds it, has changed it. */
  datatype Writer<K, V> = Waiting(key: K, change: Change<V>) | Writing(key: K, change: Change<V>) | Written(key: K)

  /** A reader holds a prefix of the shards, then scans them all, then has returned entries and size. */
  datatype Reader<K, V> =
    | Locking(held: nat)
    | Scanning(next: nat, entries: seq<(K, V)>, size: nat)
    | Returned(entries: seq<(K, V)>, size: nat)

  datatype State<K, V> = State(shards: seq<map<K, V>>, writers: map<nat, Writer<K, V>>, readers: map<nat, Reader<K, V>>)

  predicate ReaderHolds<K, V>(r: Reader<K, V>, i: nat) {
    r.Scanning? || (r.Locking? && i < r.held)
  }

  predicate WriterHolds<K, V>(hash: K -> nat, n: nat, w: Writer<K, V>, i: nat)
    requires n > 0
  {
    !w.Waiting? && Route(hash, n, w.key) == i
  }

  ghost predicate FreeOfReaders<K, V>(s: State<K, V>, i: nat) {
    forall t | t in s.readers :: !ReaderHolds(s.readers[t], i)
  }

  ghost predicate FreeOfWriters<K, V>(hash: K -> nat, s: State<K, V>, i: nat)
    requires |s.shards| > 0
  {
    forall t | t in s.writers :: !WriterHolds(hash, |s.shards|, s.writers[t], i)
  }

  datatype Action<K, V> =
    | StartWrite(t: nat, key: K, change: Change<V>)
    | LockShard(t: nat)
    | Write(t: nat)
    | Unlock(t: nat)
    | StartRead(t: nat)
    | LockNext(t: nat)
    | ScanNext(t: nat, part: seq<(K, V)>)
    | Return(t: nat)
    | Forget(t: nat)

  ghost predicate Enabled<K, V>(hash: K -> nat, s: State<K, V>, a: Action<K, V>)
    requires |s.shards| > 0
  {
    match a
    case StartWrite(t, _, _) => t !in s.writers
    case LockShard(t) =>
      && t in s.writers && s.writers[t].Waiting?
      && var i := Route(hash, |s.shards|, s.writers[t].key); FreeOfReaders(s, i) && FreeOfWriters(hash, s, i)
    case Write(t) => t in s.writers && s.writers[t].Writing?
    case Unlock(t) => t in s.writers && s.writers[t].Written?
    case StartRead(t) => t !in s.readers
    case LockNext(t) => t in s.readers && s.readers[t].Locking? && FreeOfWriters(hash, s, s.readers[t].held)
    case ScanNext(t, part) =>
      && t in s.readers && s.readers[t].Scanning? && s.readers[t].next < |s.shards|
      && Lists(part, s.shards[s.readers[t].next])
    case Return(t) => t in s.readers && s.readers[t].Scanning? && s.readers[t].next == |s.shards|
    case Forget(t) => t in s.readers && s.readers[t].Returned?
  }

  function Changed<K, V>(shard: map<K, V>, k: K, c: Change<V>): map<K, V> {
    match c
    case Assign(v) => shard[k := v]
    case Remove => shard - {k}
  }

  ghost function Step<K, V>(hash: K -> nat, s: State<K, V>, a: Action<K, V>): State<K, V>
    requires |s.shards| > 0 && Enabled(hash, s, a)
  {
    match a
    case StartWrite(t, k, c) => s.(writers := s.writers[t := Waiting(k, c)])
    case LockShard(t) => s.(writers := s.writers[t := Writing(s.writers[t].key, s.writers[t].change)])
    case Write(t) =>
      var k, i := s.writers[t].key, Route(hash, |s.shards|, s.writers[t].key);
      s.(shards := s.shards[i := Changed(s.shards[i], k, s.writers[t].change)], writers := s.writers[t := Written(k)])
    case Unlock(t) => s.(writers := s.writers - {t})
    case StartRead(t) => s.(readers := s.readers[t := Locking(0)])
    case LockNext(t) =>
      var held := s.readers[t].held + 1;
      s.(readers := s.readers[t := if held == |s.shards| then Scanning(0, [], 0) else Locking(held)])
    case ScanNext(t, part) =>
      var r := s.readers[t];
      s.(readers := s.readers[t := Scanning(r.next + 1, r.entries + part, r.size + |s.shards[r.next]|)])
    case Return(t) => s.(readers := s.readers[t := Returned(s.readers[t].entries, s.readers[t].size)])
    case Forget(t) => s.(readers := s.readers - {t})
  }

  // ---------------------------------------------------------------- the invariant

  /** No shard is held by a writer and anybody else. */
  ghost predicate Exclusive<K, V>(hash: K -> nat, n: nat, writers: map<nat, Writer<K, V>>,
                                  readers: map<nat, Reader<K, V>>)
    requires n > 0
  {
    forall t | t in writers && !writers[t].Waiting? ::
      var i := Route(hash, n, writers[t].key);
      && (forall u | u in readers :: !ReaderHolds(readers[u], i))
      && (forall u | u in writers && u != t :: !WriterHolds(hash, n, writers[u], i))
  }

  ghost predicate ReaderOk<K, V>(shards: seq<map<K, V>>, r: Reader<K, V>) {
    match r
    case Locking(held) => held < |shards|
    case Scanning(next, entries, size) =>
      next <= |shards| && Lists(entries, Flat(shards[..next])) && size == TotalSize(shards[..next])
    case Returned(_, _) => true
  }

  ghost predicate Inv<K, V>(hash: K -> nat, s: State<K, V>) {
    && Routed(hash, s.shards)
    && Exclusive(hash, |s.shards|, s.writers, s.readers)
    && forall t | t in s.readers :: ReaderOk(s.shards, s.readers[t])
  }

  lemma WriteKeeps<K, V>(hash: K -> nat, s: State<K, V>, t: nat)
    requires Inv(hash, s) && Enabled(hash, s, Write(t))
    ensures Inv(hash, Step(hash, s, Write(t)))
    ensures Flat(Step(hash, s, Write(t)).shards) == Changed(Flat(s.shards), s.writers[t].key, s.writers[t].change)
  {
    var w := s.writers[t];
    var s' := Step(hash, s, Action<K, V>.Write(t));
    match w.change
    case Assign(v) => FlatInsert(hash, s.shards, w.key, v);
    case Remove => FlatErase(hash, s.shards, w.key);
    forall u | u in s'.readers ensures ReaderOk(s'.shards, s'.readers[u]) {
      assert ReaderOk(s.shards, s.readers[u]) && !s.readers[u].Scanning? by {
        assert !ReaderHolds(s.readers[u], Route(hash, |s.shards|, w.key));
      }
    }
  }

  lemma ScanOk<K, V>(hash: K -> nat, shards: seq<map<K, V>>, r: Reader<K, V>, part: seq<(K, V)>)
    requires Routed(hash, shards) && r.Scanning? && r.next < |shards| && ReaderOk(shards, r)
    requires Lists(part, shards[r.next])
    ensures ReaderOk(shards, Scanning(r.next + 1, r.entries + part, r.size + |shards[r.next]|))
  {
    RoutedApart(hash, shards);
    PrefixApart(shards, r.next);
    hide Lists, Flat, TotalSize, Apart, Routed;
    ListsMore(r.entries, Flat(shards[..r.next]), part, shards[r.next]);
  }

  lemma ScanKeeps<K, V>(hash: K -> nat, s: State<K, V>, t: nat, part: seq<(K, V)>)
    requires Inv(hash, s) && Enabled(hash, s, ScanNext(t, part))
    ensures Inv(hash, Step(hash, s, ScanNext(t, part)))
  {
    hide ReaderOk, Lists, Flat, TotalSize;
    ScanOk(hash, s.shards, s.readers[t], part);
  }

  lemma StepKeeps<K, V>(hash: K -> nat, s: State<K, V>, a: Action<K, V>)
    requires Inv(hash, s) && Enabled(hash, s, a)
    ensures Inv(hash, Step(hash, s, a)) && |Step(hash, s, a).shards| == |s.shards|
  {
    match a
    case Write(t) => WriteKeeps(hash, s, t);
    case ScanNext(t, part) => ScanKeeps(hash, s, t, part);
    case _ =>
  }

  /** Of the two maps, `after` has the change of key k made, and every other key has what it had. */
  ghost predicate Makes<K, V>(before: map<K, V>, after: map<K, V>, k: K, c: Change<V>) {
    && (c.Assign? ==> k in after && after[k] == c.value)
    && (c.Remove? ==> k !in after)
    && after.Keys - {k} == before.Keys - {k}
    && forall m | m in before && m in after && m != k :: after[m] == before[m]
  }

  /** The flat map changes only at the step in which a writer holding its shard writes, and then only at its key. */
  lemma WritesAreAtomic<K, V>(hash: K -> nat, s: State<K, V>, a: Action<K, V>)
    requires Inv(hash, s) && Enabled(hash, s, a)
    ensures !a.Write? ==> Flat(Step(hash, s, a).shards) == Flat(s.shards)
    ensures a.Write? ==>
      Makes(Flat(s.shards), Flat(Step(hash, s, a).shards), s.writers[a.t].key, s.writers[a.t].change)
  {
    hide Inv, Flat;
    if a.Write? {
      WriteKeeps(hash, s, a.t);
    }
  }

  // ---------------------------------------------------------------- runs

  ghost predicate StepAt<K, V>(hash: K -> nat, ws: seq<State<K, V>>, acts: seq<Action<K, V>>, i: nat) {
    && i < |acts| && i + 1 < |ws|
    && |ws[i].shards| > 0 && Enabled(hash, ws[i], acts[i]) && ws[i + 1] == Step(hash, ws[i], acts[i])
  }

  /** From any contents, with nobody reading or writing. */
  ghost predicate Run<K, V>(hash: K -> nat, ws: seq<State<K, V>>, acts: seq<Action<K, V>>) {
    && |ws| == |acts| + 1
    && Routed(hash, ws[0].shards) && ws[0].writers == map[] && ws[0].readers == map[]
    && forall i | 0 <= i < |acts| :: StepAt(hash, ws, acts, i)
  }

  lemma {:induction false} InvariantAt<K, V>(hash: K -> nat, ws: seq<State<K, V>>, acts: seq<Action<K, V>>, i: nat)
    requires Run(hash, ws, acts) && i < |ws|
    ensures Inv(hash, ws[i])
  {
    if i > 0 {
      InvariantAt(hash, ws, acts, i - 1);
      assert StepAt(hash, ws, acts, i - 1);
      StepKeeps(hash, ws[i - 1], acts[i - 1]);
    }
  }

  /** Nothing of writer t happens at m. */
  predicate OfAnother<K, V>(a: Action<K, V>, t: nat) {
    a != Write(t) && !(a.StartWrite? && a.t == t)
  }

  lemma {:induction false} WriterSince<K, V>(hash: K -> nat, ws: seq<State<K, V>>, acts: seq<Action<K, V>>, j: nat,
                                             t: nat)
    returns (start: nat)
    requires Run(hash, ws, acts) && j < |ws| && t in ws[j].writers && !ws[j].writers[t].Written?
    ensures start < j <= |acts| && acts[start] == StartWrite(t, ws[j].writers[t].key, ws[j].writers[t].change)
    ensures forall m | start < m < j :: OfAnother(acts[m], t)
  {
    assert StepAt(hash, ws, acts, j - 1);
    start := j - 1;
    if !(acts[start].StartWrite? && acts[start].t == t) {
      start := WriterSince(hash, ws, acts, j - 1, t);
    }
  }

  /** In every run, whenever a writer writes, the flat map takes just the change with which that writer came, and
      this is the first time since it came that it writes. */
  lemma WritesTakeEffect<K, V>(hash: K -> nat, ws: seq<State<K, V>>, acts: seq<Action<K, V>>, j: nat, t: nat)
    returns (start: nat)
    requires Run(hash, ws, acts) && j < |acts| && acts[j] == Write(t)
    ensures start < j && acts[start].StartWrite? && acts[start].t == t
    ensures forall m | start < m < j :: OfAnother(acts[m], t)
    ensures Makes(Flat(ws[j].shards), Flat(ws[j + 1].shards), acts[start].key, acts[start].change)
  {
    InvariantAt(hash, ws, acts, j);
    assert StepAt(hash, ws, acts, j);
    start := WriterSince(hash, ws, acts, j, t);
    WritesAreAtomic(hash, ws[j], acts[j]);
  }

  /** Reader t is still taking its locks. */
  predicate IsLocking<K, V>(s: State<K, V>, t: nat) {
    t in s.readers && s.readers[t].Locking?
  }

  /** Reader t holds every lock. */
  predicate IsScanning<K, V>(s: State<K, V>, t: nat) {
    t in s.readers && s.readers[t].Scanning?
  }

  predicate HasReturned<K, V>(s: State<K, V>, t: nat) {
    t in s.readers && s.readers[t].Returned?
  }

  /** The locking part of a call, from its start to just before its last lock or to where it stands. */
  ghost predicate LocksFrom<K, V>(ws: seq<State<K, V>>, acts: seq<Action<K, V>>, start: nat, j: nat, t: nat) {
    && start < j < |ws| && j <= |acts| && acts[start] == StartRead(t)
    && forall m | start < m <= j :: IsLocking(ws[m], t)
  }

  ghost predicate ScansFrom<K, V>(ws: seq<State<K, V>>, acts: seq<Action<K, V>>, last: nat, j: nat, t: nat) {
    && last < j < |ws| && j <= |acts| && acts[last] == LockNext(t)
    && forall m | last < m <= j :: IsScanning(ws[m], t)
  }

  lemma {:induction false} LockSpan<K, V>(hash: K -> nat, ws: seq<State<K, V>>, acts: seq<Action<K, V>>, j: nat, t: nat)
    returns (start: nat)
    requires Run(hash, ws, acts) && j < |ws| && IsLocking(ws[j], t)
    ensures LocksFrom(ws, acts, start, j, t)
  {
    assert StepAt(hash, ws, acts, j - 1);
    if IsLocking(ws[j - 1], t) {
      start := LockSpan(hash, ws, acts, j - 1, t);
    } else {
      start := j - 1;
    }
  }

  /** From its last lock on a scanning reader keeps every shard as it was then. */
  lemma {:induction false} ScanSpan<K, V>(hash: K -> nat, ws: seq<State<K, V>>, acts: seq<Action<K, V>>, j: nat, t: nat)
    returns (start: nat, last: nat)
    requires Run(hash, ws, acts) && j < |ws| && IsScanning(ws[j], t)
    ensures LocksFrom(ws, acts, start, last, t) && ScansFrom(ws, acts, last, j, t) && last < j
    ensures ws[j].shards == ws[last + 1].shards
  {
    assert StepAt(hash, ws, acts, j - 1);
    if IsScanning(ws[j - 1], t) {
      start, last := ScanSpan(hash, ws, acts, j - 1, t);
      InvariantAt(hash, ws, acts, j - 1);
      HeldUnchanged(hash, ws[j - 1], acts[j - 1], t);
    } else {
      last := j - 1;
      start := LockSpan(hash, ws, acts, last, t);
    }
  }

  lemma HeldUnchanged<K, V>(hash: K -> nat, s: State<K, V>, a: Action<K, V>, t: nat)
    requires Inv(hash, s) && Enabled(hash, s, a) && IsScanning(s, t)
    ensures Step(hash, s, a).shards == s.shards
  {
  }

  /** Entries and size of the flat map. */
  ghost predicate IsSnapshot<K, V>(r: Reader<K, V>, shards: seq<map<K, V>>) {
    r.Returned? && Lists(r.entries, Flat(shards)) && r.size == |Flat(shards)|
  }

  /** A call of reader t: started at `start`, last lock taken at `last`, returned at `end` and not forgotten by j. */
  ghost predicate Call<K, V>(ws: seq<State<K, V>>, acts: seq<Action<K, V>>, start: nat, last: nat, end: nat, j: nat,
                             t: nat) {
    && LocksFrom(ws, acts, start, last, t) && ScansFrom(ws, acts, last, end, t)
    && end < j < |ws| && j <= |acts| && acts[end] == Return(t)
    && forall m | end < m <= j :: HasReturned(ws[m], t)
  }

  lemma ReturnStep<K, V>(hash: K -> nat, s: State<K, V>, a: Action<K, V>, t: nat)
    requires Inv(hash, s) && Enabled(hash, s, a) && !HasReturned(s, t) && HasReturned(Step(hash, s, a), t)
    ensures a == Return(t) && IsScanning(s, t) && IsSnapshot(Step(hash, s, a).readers[t], s.shards)
  {
    assert ReaderOk(s.shards, s.readers[t]);
    assert s.shards[..s.readers[t].next] == s.shards;
    RoutedApart(hash, s.shards);
    FlatSize(s.shards);
  }

  lemma ReturnedStays<K, V>(hash: K -> nat, s: State<K, V>, a: Action<K, V>, t: nat)
    requires |s.shards| > 0 && Enabled(hash, s, a) && HasReturned(s, t) && HasReturned(Step(hash, s, a), t)
    ensures Step(hash, s, a).readers[t] == s.readers[t]
  {
  }

  lemma BeforeReturned<K, V>(hash: K -> nat, ws: seq<State<K, V>>, acts: seq<Action<K, V>>, j: nat, t: nat)
    requires Run(hash, ws, acts) && j < |ws| && HasReturned(ws[j], t)
    ensures 0 < j <= |acts|
    ensures HasReturned(ws[j - 1], t) ==> ws[j].readers[t] == ws[j - 1].readers[t]
    ensures !HasReturned(ws[j - 1], t) ==>
      acts[j - 1] == Return(t) && IsScanning(ws[j - 1], t) && IsSnapshot(ws[j].readers[t], ws[j - 1].shards)
  {
    assert StepAt(hash, ws, acts, j - 1);
    InvariantAt(hash, ws, acts, j - 1);
    hide Inv, Enabled, Step, IsSnapshot;
    if HasReturned(ws[j - 1], t) {
      ReturnedStays(hash, ws[j - 1], acts[j - 1], t);
    } else {
      ReturnStep(hash, ws[j - 1], acts[j - 1], t);
    }
  }

  lemma CallGoesOn<K, V>(ws: seq<State<K, V>>, acts: seq<Action<K, V>>, start: nat, last: nat, end: nat, j: nat, t: nat)
    requires 0 < j && Call(ws, acts, start, last, end, j - 1, t) && j < |ws| && j <= |acts| && HasReturned(ws[j], t)
    ensures Call(ws, acts, start, last, end, j, t)
  {
  }

  /**
    * Whatever writers do in between: what a reader of the whole map returns is the contents and
    * the size of the flat map right after it took its last lock, a moment between the start and
    * the return of that very call.
    */
  lemma {:induction false} SnapshotsLinearize<K, V>(hash: K -> nat, ws: seq<State<K, V>>, acts: seq<Action<K, V>>,
                                                    j: nat, t: nat)
    returns (start: nat, last: nat, end: nat)
    requires Run(hash, ws, acts) && j < |ws| && HasReturned(ws[j], t)
    ensures start < last < end < j && Call(ws, acts, start, last, end, j, t)
    ensures IsSnapshot(ws[j].readers[t], ws[last + 1].shards)
  {
    hide IsSnapshot, Run;
    BeforeReturned(hash, ws, acts, j, t);
    if HasReturned(ws[j - 1], t) {
      start, last, end := SnapshotsLinearize(hash, ws, acts, j - 1, t);
      hide Call;
      CallGoesOn(ws, acts, start, last, end, j, t);
    } else {
      end := j - 1;
      start, last := ScanSpan(hash, ws, acts, end, t);
    }
  }
}
