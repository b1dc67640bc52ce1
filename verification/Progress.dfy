/** Nobody who locks shards of the map is kept waiting for good: readers take the locks in order, writers one each. */
module Progress {
  import opened Types
  import opened ConcurrentMap
  import opened Snapshots

  /** The actions lead from s to end, one after the other. */
  ghost predicate Leads<K, V>(hash: K -> nat, s: State<K, V>, acts: seq<Action<K, V>>, end: State<K, V>)
    decreases |acts|
  {
    if acts == [] then s == end
    else |s.shards| > 0 && Enabled(hash, s, acts[0]) && Leads(hash, Step(hash, s, acts[0]), acts[1..], end)
  }

  lemma LeadsFirst<K, V>(hash: K -> nat, s: State<K, V>, a: Action<K, V>, acts: seq<Action<K, V>>, end: State<K, V>)
    requires |s.shards| > 0 && Enabled(hash, s, a) && Leads(hash, Step(hash, s, a), acts, end)
    ensures Leads(hash, s, [a] + acts, end)
  {
    hide Enabled, Step;
    assert ([a] + acts)[1..] == acts;
  }

  lemma {:induction false} LeadsJoin<K, V>(hash: K -> nat, s: State<K, V>, a: seq<Action<K, V>>, mid: State<K, V>,
                                           b: seq<Action<K, V>>, end: State<K, V>)
    requires Leads(hash, s, a, mid) && Leads(hash, mid, b, end)
    ensures Leads(hash, s, a + b, end)
    decreases |a|
  {
    hide Enabled, Step;
    if a == [] {
      assert a + b == b;
    } else {
      LeadsJoin(hash, Step(hash, s, a[0]), a[1..], mid, b, end);
      assert (a + b)[1..] == a[1..] + b;
    }
  }

  // ---------------------------------------------------------------- writers let go

  /** The writers that hold a shard. */
  function Holding<K, V>(s: State<K, V>): set<nat> {
    set t | t in s.writers && !s.writers[t].Waiting?
  }

  /** Every writer that holds a shard writes, if it has not yet, and lets go of it; the others go on waiting. */
  lemma {:induction false} WritersFinish<K, V>(hash: K -> nat, s: State<K, V>)
    returns (acts: seq<Action<K, V>>, end: State<K, V>)
    requires Inv(hash, s)
    ensures Leads(hash, s, acts, end) && Inv(hash, end) && Holding(end) == {} && end.readers == s.readers
    ensures |end.shards| == |s.shards|
    ensures forall t | t in s.writers && s.writers[t].Waiting? :: t in end.writers && end.writers[t] == s.writers[t]
    decreases |Holding(s)|
  {
    hide Inv, Leads;
    if Holding(s) == {} {
      acts, end := [], s;
      assert Leads(hash, s, acts, end) by { LeadsNowhere(hash, s); }
      return;
    }
    var t :| t in Holding(s);
    InvSized(hash, s);
    var mid := s;
    if s.writers[t].Writing? {
      StepKeeps(hash, s, Write(t));
      mid := Step(hash, s, Action<K, V>.Write(t));
    }
    StepKeeps(hash, mid, Unlock(t));
    var next := Step(hash, mid, Action<K, V>.Unlock(t));
    assert Holding(next) == Holding(s) - {t};
    acts, end := WritersFinish(hash, next);
    LeadsFirst(hash, mid, Unlock(t), acts, end);
    acts := [Unlock(t)] + acts;
    if s.writers[t].Writing? {
      LeadsFirst(hash, s, Write(t), acts, end);
      acts := [Write(t)] + acts;
    }
  }

  lemma LeadsNowhere<K, V>(hash: K -> nat, s: State<K, V>)
    ensures Leads(hash, s, [], s)
  {
  }

  lemma InvSized<K, V>(hash: K -> nat, s: State<K, V>)
    requires Inv(hash, s)
    ensures |s.shards| > 0
    ensures forall t | t in s.readers && s.readers[t].Locking? :: s.readers[t].held < |s.shards|
    ensures forall t | t in s.readers && s.readers[t].Scanning? :: s.readers[t].next <= |s.shards|
  {
    forall t | t in s.readers ensures ReaderOk(s.shards, s.readers[t]) {
    }
  }

  // ---------------------------------------------------------------- readers return

  /** The entries of a map, in some order. */
  lemma {:induction false} ListOf<K, V>(m: map<K, V>) returns (l: seq<(K, V)>)
    ensures Lists(l, m)
    decreases |m|
  {
    if m == map[] {
      l := [];
    } else {
      var k :| k in m;
      var rest := ListOf(m - {k});
      assert Lists([(k, m[k])], map[k := m[k]]);
      ListsMore([(k, m[k])], map[k := m[k]], rest, m - {k});
      assert map[k := m[k]] + (m - {k}) == m;
      l := [(k, m[k])] + rest;
    }
  }

  function Distance<K, V>(n: nat, r: Reader<K, V>): nat {
    match r
    case Locking(held) => 2 * n + 2 - if held <= n then held else n
    case Scanning(next, _, _) => 1 + n - if next <= n then next else n
    case Returned(_, _) => 0
  }

  /** With no writer in its way a reader takes the locks it lacks, scans and returns. */
  lemma {:induction false} ReaderReturns<K, V>(hash: K -> nat, s: State<K, V>, t: nat)
    returns (acts: seq<Action<K, V>>, end: State<K, V>)
    requires Inv(hash, s) && t in s.readers && Holding(s) == {}
    ensures Leads(hash, s, acts, end) && Inv(hash, end) && HasReturned(end, t)
    ensures end.writers == s.writers && end.readers == s.readers[t := end.readers[t]] && end.shards == s.shards
    decreases Distance(|s.shards|, s.readers[t])
  {
    hide Inv, Leads, Lists;
    var r := s.readers[t];
    if r.Returned? {
      LeadsNowhere(hash, s);
      return [], s;
    }
    InvSized(hash, s);
    assert forall u | u in s.writers :: u !in Holding(s);
    var a: Action<K, V>;
    if r.Locking? {
      a := LockNext(t);
    } else if r.next < |s.shards| {
      var part := ListOf(s.shards[r.next]);
      a := ScanNext(t, part);
    } else {
      a := Return(t);
    }
    StepKeeps(hash, s, a);
    var next := Step(hash, s, a);
    acts, end := ReaderReturns(hash, next, t);
    LeadsFirst(hash, s, a, acts, end);
    acts := [a] + acts;
  }

  /** From every state of every run there is a way on in which the reader returns, and then may come again. */
  lemma ReaderCanReturn<K, V>(hash: K -> nat, ws: seq<State<K, V>>, acts: seq<Action<K, V>>, j: nat, t: nat)
    returns (more: seq<Action<K, V>>, end: State<K, V>, after: State<K, V>)
    requires Run(hash, ws, acts) && j < |ws| && t in ws[j].readers
    ensures Leads(hash, ws[j], more, end) && HasReturned(end, t)
    ensures Leads(hash, end, [Forget(t)], after) && |after.shards| > 0 && Enabled(hash, after, StartRead(t))
  {
    hide Inv, Leads;
    InvariantAt(hash, ws, acts, j);
    var first, mid := WritersFinish(hash, ws[j]);
    var rest;
    rest, end := ReaderReturns(hash, mid, t);
    LeadsJoin(hash, ws[j], first, mid, rest, end);
    more := first + rest;
    InvSized(hash, end);
    after := Step(hash, end, Action<K, V>.Forget(t));
    LeadsNowhere(hash, after);
    LeadsFirst(hash, end, Forget(t), [], after);
    assert [Action<K, V>.Forget(t)] + [] == [Action<K, V>.Forget(t)];
  }

  // ---------------------------------------------------------------- and writers write

  /** The readers that hold a shard or will. */
  function Reading<K, V>(s: State<K, V>): set<nat> {
    set t | t in s.readers && !s.readers[t].Returned?
  }

  lemma {:induction false} ReadersReturn<K, V>(hash: K -> nat, s: State<K, V>)
    returns (acts: seq<Action<K, V>>, end: State<K, V>)
    requires Inv(hash, s) && Holding(s) == {}
    ensures Leads(hash, s, acts, end) && Inv(hash, end) && Reading(end) == {} && end.writers == s.writers
    decreases |Reading(s)|
  {
    hide Inv, Leads;
    if Reading(s) == {} {
      LeadsNowhere(hash, s);
      return [], s;
    }
    var t :| t in Reading(s);
    var first, mid := ReaderReturns(hash, s, t);
    assert Reading(mid) == Reading(s) - {t};
    var rest;
    rest, end := ReadersReturn(hash, mid);
    LeadsJoin(hash, s, first, mid, rest, end);
    acts := first + rest;
  }

  /** And one in which the writer that waits for its shard gets it and writes. */
  lemma WriterCanWrite<K, V>(hash: K -> nat, ws: seq<State<K, V>>, acts: seq<Action<K, V>>, j: nat, t: nat)
    returns (more: seq<Action<K, V>>, end: State<K, V>)
    requires Run(hash, ws, acts) && j < |ws| && t in ws[j].writers && ws[j].writers[t].Waiting?
    ensures Leads(hash, ws[j], more, end) && more != [] && more[|more| - 1] == Write(t)
  {
    hide Leads, Run;
    InvariantAt(hash, ws, acts, j);
    var first, mid := WritersFinish(hash, ws[j]);
    var second, free := ReadersReturn(hash, mid);
    LeadsJoin(hash, ws[j], first, mid, second, free);
    InvSized(hash, free);
    hide Inv;
    assert forall u | u in free.writers :: u !in Holding(free);
    assert forall u | u in free.readers :: u !in Reading(free);
    var held := Step(hash, free, Action<K, V>.LockShard(t));
    end := Step(hash, held, Action<K, V>.Write(t));
    LeadsNowhere(hash, end);
    LeadsFirst(hash, held, Write(t), [], end);
    LeadsFirst(hash, free, LockShard(t), [Write(t)] + [], end);
    more := (first + second) + ([LockShard(t)] + ([Write(t)] + []));
    LeadsJoin(hash, ws[j], first + second, free, [LockShard(t)] + ([Write(t)] + []), end);
  }
}
