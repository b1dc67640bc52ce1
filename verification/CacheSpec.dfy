/**
  * What one shard of the frontline cache does, on values: a sequence of entries, the most
  * recently touched first, and a byte counter of 64 bits. What holds after every run of puts
  * and gets, and what does not.
  */
module CacheSpec {
  import opened Types

  const SIZE_T: int := 0x1_0000_0000_0000_0000

  /** The value an unsigned 64-bit counter takes. */
  function Wrap(n: int): (r: nat)
    ensures r < SIZE_T
  {
    n % SIZE_T
  }

  type Bytes = string

  datatype Key = Key(container: string, id: string)
  datatype Entry = Entry(key: Key, data: Bytes)
  datatype Shard = Shard(entries: seq<Entry>, size: nat)

  /** The two sizes a shard is made with: of the shard and of the largest object it takes. */
  datatype Limits = Limits(maxShard: nat, maxObject: nat)

  predicate Has(es: seq<Entry>, k: Key) {
    exists i | 0 <= i < |es| :: es[i].key == k
  }

  function Find(es: seq<Entry>, k: Key): (i: nat)
    requires Has(es, k)
    ensures i < |es| && es[i].key == k
  {
    if es[0].key == k then 0 else 1 + Find(es[1..], k)
  }

  function Without(es: seq<Entry>, k: Key): (rest: seq<Entry>)
    ensures !Has(rest, k) && |rest| <= |es|
  {
    if es == [] then [] else if es[0].key == k then Without(es[1..], k) else [es[0]] + Without(es[1..], k)
  }

  /** Give up the oldest entries until `incoming` more bytes fit, or none is left. */
  function Evict(s: Shard, incoming: nat, max: nat): Shard
    decreases |s.entries|
  {
    if Wrap(s.size + incoming) > max && s.entries != [] then
      var last := |s.entries| - 1;
      Evict(Shard(s.entries[..last], Wrap(s.size - |s.entries[last].data|)), incoming, max)
    else s
  }

  predicate AtFront(es: seq<Entry>, k: Key) {
    es != [] && es[0].key == k
  }

  /** Taken out before it is put in again, its bytes given back. */
  function Forget(s: Shard, k: Key): Shard {
    if Has(s.entries, k) then Shard(Without(s.entries, k), Wrap(s.size - |s.entries[Find(s.entries, k)].data|)) else s
  }

  /** An object over the limit is refused; the front entry is overwritten and nothing is counted. */
  function Put(l: Limits, s: Shard, k: Key, data: Bytes): Shard {
    if |data| > l.maxObject then s
    else if AtFront(s.entries, k) then s.(entries := [Entry(k, data)] + s.entries[1..])
    else
      var r := Evict(Forget(s, k), |data|, l.maxShard);
      Shard([Entry(k, data)] + r.entries, Wrap(r.size + |data|))
  }

  function Lookup(s: Shard, k: Key): Option<Bytes> {
    if Has(s.entries, k) then Some(s.entries[Find(s.entries, k)].data) else None
  }

  /** A hit moves the entry to the front. */
  function Get(s: Shard, k: Key): Shard {
    if Has(s.entries, k) then s.(entries := [s.entries[Find(s.entries, k)]] + Without(s.entries, k)) else s
  }

  // ---------------------------------------------------------------- runs

  datatype Op = PutOp(key: Key, data: Bytes) | GetOp(key: Key)

  function Apply(l: Limits, s: Shard, op: Op): Shard {
    match op
    case PutOp(k, data) => Put(l, s, k, data)
    case GetOp(k) => Get(s, k)
  }

  function After(l: Limits, ops: seq<Op>): Shard {
    if ops == [] then Shard([], 0) else Apply(l, After(l, ops[..|ops| - 1]), ops[|ops| - 1])
  }

  predicate Accepted(l: Limits, op: Op) {
    op.PutOp? ==> |op.data| <= l.maxObject
  }

  /** The value of the latest put of the key that was not refused. */
  function LastPut(l: Limits, ops: seq<Op>, k: Key): Option<Bytes> {
    if ops == [] then None
    else
      var op := ops[|ops| - 1];
      if op.PutOp? && op.key == k && Accepted(l, op) then Some(op.data) else LastPut(l, ops[..|ops| - 1], k)
  }

  /** When the key was last put or asked for, and not refused; -1 if never. */
  function LastTouch(l: Limits, ops: seq<Op>, k: Key): int {
    if ops == [] then -1
    else if ops[|ops| - 1].key == k && Accepted(l, ops[|ops| - 1]) then |ops| - 1
    else LastTouch(l, ops[..|ops| - 1], k)
  }

  predicate Distinct(es: seq<Entry>) {
    forall i, j | 0 <= i < j < |es| :: es[i].key != es[j].key
  }

  lemma {:induction false} WithoutAt(es: seq<Entry>, k: Key, i: nat)
    requires Distinct(es) && i < |es| && es[i].key == k
    ensures Without(es, k) == es[..i] + es[i + 1..]
  {
    if i == 0 {
      WithoutAbsent(es[1..], k);
    } else {
      assert es[1..][i - 1] == es[i];
      WithoutAt(es[1..], k, i - 1);
      assert es[0..1] + es[1..][..i - 1] == es[..i] && es[1..][i..] == es[i + 1..];
    }
  }

  lemma {:induction false} WithoutAbsent(es: seq<Entry>, k: Key)
    requires forall i | 0 <= i < |es| :: es[i].key != k
    ensures Without(es, k) == es
  {
    if es != [] {
      WithoutAbsent(es[1..], k);
    }
  }

  /** Evicting takes a suffix off. */
  lemma {:induction false} EvictIsPrefix(s: Shard, incoming: nat, max: nat) returns (p: nat)
    ensures p <= |s.entries| && Evict(s, incoming, max).entries == s.entries[..p]
    decreases |s.entries|
  {
    if Wrap(s.size + incoming) > max && s.entries != [] {
      var last := |s.entries| - 1;
      p := EvictIsPrefix(Shard(s.entries[..last], Wrap(s.size - |s.entries[last].data|)), incoming, max);
      assert s.entries[..last][..p] == s.entries[..p];
    } else {
      p := |s.entries|;
    }
  }

  // ---------------------------------------------------------------- what every run keeps

  /** Distinct keys, each with its last accepted value, in the order in which they were last touched. */
  ghost predicate Recency(l: Limits, ops: seq<Op>, es: seq<Entry>) {
    && Distinct(es)
    && (forall i | 0 <= i < |es| :: LastPut(l, ops, es[i].key) == Some(es[i].data) && 0 <= LastTouch(l, ops, es[i].key))
    && (forall i, j | 0 <= i < j < |es| :: LastTouch(l, ops, es[i].key) > LastTouch(l, ops, es[j].key))
  }

  lemma {:induction false} TouchBounded(l: Limits, ops: seq<Op>, k: Key)
    ensures LastTouch(l, ops, k) < |ops|
  {
    if ops != [] {
      TouchBounded(l, ops[..|ops| - 1], k);
    }
  }

  /** A new front entry over entries that were in order before. */
  lemma FrontedRecency(l: Limits, ops: seq<Op>, op: Op, front: Entry, rest: seq<Entry>)
    requires Recency(l, ops, rest) && Accepted(l, op) && front.key == op.key
    requires if op.PutOp? then front.data == op.data else LastPut(l, ops, op.key) == Some(front.data)
    requires forall i | 0 <= i < |rest| :: rest[i].key != op.key
    ensures Recency(l, ops + [op], [front] + rest)
  {
    assert (ops + [op])[..|ops|] == ops;
    forall i | 0 <= i < |rest| ensures LastTouch(l, ops, rest[i].key) < |ops| {
      TouchBounded(l, ops, rest[i].key);
    }
  }

  lemma SliceRecency(l: Limits, ops: seq<Op>, es: seq<Entry>, i: nat, j: nat)
    requires Recency(l, ops, es) && i <= j <= |es|
    ensures Recency(l, ops, es[..i] + es[j..])
  {
  }

  lemma PutRecency(l: Limits, ops: seq<Op>, s: Shard, k: Key, data: Bytes)
    requires Recency(l, ops, s.entries)
    ensures Recency(l, ops + [PutOp(k, data)], Put(l, s, k, data).entries)
  {
    var op := PutOp(k, data);
    assert (ops + [op])[..|ops|] == ops;
    if !Accepted(l, op) {
    } else if AtFront(s.entries, k) {
      SliceRecency(l, ops, s.entries, 0, 1);
      assert s.entries[..0] + s.entries[1..] == s.entries[1..];
      FrontedRecency(l, ops, op, Entry(k, data), s.entries[1..]);
    } else {
      var f := Forget(s, k);
      ForgetRecency(l, ops, s, k);
      var p := EvictIsPrefix(f, |data|, l.maxShard);
      SliceRecency(l, ops, f.entries, p, |f.entries|);
      assert f.entries[..p] + f.entries[|f.entries|..] == f.entries[..p];
      FrontedRecency(l, ops, op, Entry(k, data), f.entries[..p]);
    }
  }

  lemma ForgetRecency(l: Limits, ops: seq<Op>, s: Shard, k: Key)
    requires Recency(l, ops, s.entries)
    ensures Recency(l, ops, Forget(s, k).entries)
    ensures forall i | 0 <= i < |Forget(s, k).entries| :: Forget(s, k).entries[i].key != k
  {
    if Has(s.entries, k) {
      var i := Find(s.entries, k);
      WithoutAt(s.entries, k, i);
      SliceRecency(l, ops, s.entries, i, i + 1);
    }
  }

  lemma GetRecency(l: Limits, ops: seq<Op>, s: Shard, k: Key)
    requires Recency(l, ops, s.entries)
    ensures Recency(l, ops + [GetOp(k)], Get(s, k).entries)
  {
    var op := GetOp(k);
    assert (ops + [op])[..|ops|] == ops;
    if Has(s.entries, k) {
      var i := Find(s.entries, k);
      ForgetRecency(l, ops, s, k);
      FrontedRecency(l, ops, op, s.entries[i], Without(s.entries, k));
    }
  }

  lemma {:induction false} RecencyAfter(l: Limits, ops: seq<Op>)
    ensures Recency(l, ops, After(l, ops).entries)
  {
    if ops != [] {
      var before, op := ops[..|ops| - 1], ops[|ops| - 1];
      RecencyAfter(l, before);
      assert before + [op] == ops;
      match op
      case PutOp(k, data) => PutRecency(l, before, After(l, before), k, data);
      case GetOp(k) => GetRecency(l, before, After(l, before), k);
    }
  }

  /** After any run, a hit returns the value of the key's last accepted put. */
  lemma HitIsLastPut(l: Limits, ops: seq<Op>, k: Key)
    ensures Lookup(After(l, ops), k).Some? ==> Lookup(After(l, ops), k) == LastPut(l, ops, k)
  {
    RecencyAfter(l, ops);
  }

  /** After any run the entries are strictly in the order of their last touch, so what a put evicts
      is older than whatever it leaves. */
  lemma OrderedByTouch(l: Limits, ops: seq<Op>, i: nat, j: nat)
    requires i < j < |After(l, ops).entries|
    ensures After(l, ops).entries[i].key != After(l, ops).entries[j].key
    ensures LastTouch(l, ops, After(l, ops).entries[i].key) > LastTouch(l, ops, After(l, ops).entries[j].key) >= 0
  {
    RecencyAfter(l, ops);
  }

  // ---------------------------------------------------------------- the byte counter

  function Sum(es: seq<Entry>): nat {
    if es == [] then 0 else |es[0].data| + Sum(es[1..])
  }

  lemma {:induction false} SumConcat(a: seq<Entry>, b: seq<Entry>)
    ensures Sum(a + b) == Sum(a) + Sum(b)
  {
    if a == [] {
      assert a + b == b;
    } else {
      SumConcat(a[1..], b);
      assert (a + b)[1..] == a[1..] + b;
    }
  }

  lemma SumSplit(es: seq<Entry>, i: nat)
    requires i < |es|
    ensures Sum(es) == Sum(es[..i]) + |es[i].data| + Sum(es[i + 1..])
  {
    assert es == es[..i] + [es[i]] + es[i + 1..];
    SumConcat(es[..i] + [es[i]], es[i + 1..]);
    SumConcat(es[..i], [es[i]]);
    assert Sum([es[i]]) == |es[i].data|;
  }

  /** By how much an operation changes the bytes stored without counting it: the front overwrites. */
  function Uncounted(l: Limits, s: Shard, op: Op): int {
    if op.PutOp? && |op.data| <= l.maxObject && AtFront(s.entries, op.key) then |op.data| - |s.entries[0].data| else 0
  }

  function Drift(l: Limits, ops: seq<Op>): int {
    if ops == [] then 0
    else Drift(l, ops[..|ops| - 1]) + Uncounted(l, After(l, ops[..|ops| - 1]), ops[|ops| - 1])
  }

  /** The counter is the bytes stored less the drift, as far as 64 bits go. */
  predicate Counts(s: Shard, drift: int) {
    s.size == Wrap(Sum(s.entries) - drift)
  }

  lemma WrapAdd(a: int, b: int)
    ensures Wrap(Wrap(a) + b) == Wrap(a + b)
  {
  }

  lemma DropCounts(s: Shard, drift: int)
    requires Counts(s, drift) && s.entries != []
    ensures var last := |s.entries| - 1;
      Counts(Shard(s.entries[..last], Wrap(s.size - |s.entries[last].data|)), drift)
  {
    var last := |s.entries| - 1;
    SumSplit(s.entries, last);
    WrapAdd(Sum(s.entries) - drift, -|s.entries[last].data|);
  }

  lemma {:induction false} EvictCounts(s: Shard, incoming: nat, max: nat, drift: int)
    requires Counts(s, drift)
    ensures Counts(Evict(s, incoming, max), drift)
    decreases |s.entries|
  {
    if Wrap(s.size + incoming) > max && s.entries != [] {
      var last := |s.entries| - 1;
      DropCounts(s, drift);
      EvictCounts(Shard(s.entries[..last], Wrap(s.size - |s.entries[last].data|)), incoming, max, drift);
    }
  }

  lemma ForgetCounts(s: Shard, k: Key, drift: int)
    requires Distinct(s.entries) && Counts(s, drift)
    ensures Counts(Forget(s, k), drift)
  {
    if Has(s.entries, k) {
      var i := Find(s.entries, k);
      WithoutAt(s.entries, k, i);
      SumSplit(s.entries, i);
      SumConcat(s.entries[..i], s.entries[i + 1..]);
      WrapAdd(Sum(s.entries) - drift, -|s.entries[i].data|);
    }
  }

  lemma ApplyCounts(l: Limits, s: Shard, op: Op, drift: int)
    requires Distinct(s.entries) && Counts(s, drift)
    ensures Counts(Apply(l, s, op), drift + Uncounted(l, s, op))
  {
    if op.GetOp? {
      if Has(s.entries, op.key) {
        ForgetCounts(s, op.key, drift);
        var i := Find(s.entries, op.key);
        WithoutAt(s.entries, op.key, i);
        SumSplit(s.entries, i);
        SumConcat([s.entries[i]], Without(s.entries, op.key));
        SumConcat(s.entries[..i], s.entries[i + 1..]);
      }
    } else if |op.data| > l.maxObject {
    } else if AtFront(s.entries, op.key) {
      SumConcat([Entry(op.key, op.data)], s.entries[1..]);
    } else {
      ForgetCounts(s, op.key, drift);
      var r := Evict(Forget(s, op.key), |op.data|, l.maxShard);
      EvictCounts(Forget(s, op.key), |op.data|, l.maxShard, drift);
      WrapAdd(Sum(r.entries) - drift, |op.data|);
      SumConcat([Entry(op.key, op.data)], r.entries);
    }
  }

  /** After every run the counter is the number of bytes stored less what front overwrites changed, modulo 2^64. */
  lemma {:induction false} CounterAfter(l: Limits, ops: seq<Op>)
    ensures Counts(After(l, ops), Drift(l, ops))
  {
    if ops != [] {
      CounterAfter(l, ops[..|ops| - 1]);
      RecencyAfter(l, ops[..|ops| - 1]);
      ApplyCounts(l, After(l, ops[..|ops| - 1]), ops[|ops| - 1], Drift(l, ops[..|ops| - 1]));
    }
  }

  /** So it tells the bytes stored exactly when the overwrites of the run cancel out. */
  lemma CounterExactIff(l: Limits, ops: seq<Op>)
    ensures After(l, ops).size == Wrap(Sum(After(l, ops).entries)) <==> Wrap(Drift(l, ops)) == 0
  {
    CounterAfter(l, ops);
    WrapShift(Sum(After(l, ops).entries), Drift(l, ops));
  }

  lemma WrapShift(a: int, b: int)
    ensures Wrap(a - b) == Wrap(a) <==> Wrap(b) == 0
  {
    var q, r := a / SIZE_T, b / SIZE_T;
    var x, y := a % SIZE_T, b % SIZE_T;
    assert a - b == SIZE_T * (q - r) + (x - y);
    WrapOf(a - b, q - r, x - y);
  }

  lemma WrapOf(n: int, q: int, r: int)
    requires n == SIZE_T * q + r && -SIZE_T < r < SIZE_T
    ensures Wrap(n) == if r < 0 then r + SIZE_T else r
  {
    var m := n / SIZE_T;
    assert n == SIZE_T * m + Wrap(n);
    if r < 0 {
      assert m == q - 1;
    } else {
      assert m == q;
    }
  }

  lemma WrapSmall(n: int)
    requires 0 <= n < SIZE_T
    ensures Wrap(n) == n
  {
  }

  // ---------------------------------------------------------------- what a put evicts

  /** The p most recent of the entries can stay beside `incoming` bytes: none do, or the counter is then small
      enough, as far as 64 bits show it. */
  predicate MayStay(es: seq<Entry>, p: nat, drift: int, incoming: nat, max: nat) {
    p <= |es| && (p == 0 || (Sum(es[..p]) - drift + incoming) % 0x1_0000_0000_0000_0000 <= max)
  }

  lemma AllMayStay(s: Shard, drift: int, incoming: nat, max: nat)
    requires Counts(s, drift)
    ensures MayStay(s.entries, |s.entries|, drift, incoming, max) <==>
      s.entries == [] || Wrap(s.size + incoming) <= max
  {
    WrapAdd(Sum(s.entries) - drift, incoming);
    assert s.entries[..|s.entries|] == s.entries;
  }

  lemma PrefixMayStay(es: seq<Entry>, last: nat, q: nat, drift: int, incoming: nat, max: nat)
    requires q <= last <= |es|
    ensures MayStay(es[..last], q, drift, incoming, max) <==> MayStay(es, q, drift, incoming, max)
  {
    assert es[..last][..q] == es[..q];
  }

  lemma {:induction false} EvictExactly(s: Shard, drift: int, incoming: nat, max: nat) returns (p: nat)
    requires Counts(s, drift)
    ensures p <= |s.entries| && Evict(s, incoming, max).entries == s.entries[..p]
    ensures MayStay(s.entries, p, drift, incoming, max)
    ensures forall q | p < q <= |s.entries| :: !MayStay(s.entries, q, drift, incoming, max)
    decreases |s.entries|
  {
    hide Wrap, MayStay, Counts;
    AllMayStay(s, drift, incoming, max);
    p := |s.entries|;
    if Wrap(s.size + incoming) > max && s.entries != [] {
      var last := |s.entries| - 1;
      DropCounts(s, drift);
      p := EvictExactly(Shard(s.entries[..last], Wrap(s.size - |s.entries[last].data|)), drift, incoming, max);
      assert s.entries[..last][..p] == s.entries[..p];
      forall q | 0 <= q <= last
        ensures MayStay(s.entries[..last], q, drift, incoming, max) <==> MayStay(s.entries, q, drift, incoming, max)
      {
        PrefixMayStay(s.entries, last, q, drift, incoming, max);
      }
    }
  }

  /** In every run, whatever front overwrites have done to the counter: a put that is neither refused nor a
      front overwrite leaves its entry and as many of the most recent others as may stay, and no fewer. */
  lemma PutEvictsExactly(l: Limits, ops: seq<Op>, k: Key, data: Bytes) returns (p: nat)
    requires |data| <= l.maxObject && !AtFront(After(l, ops).entries, k)
    ensures var others := Without(After(l, ops).entries, k);
      && MayStay(others, p, Drift(l, ops), |data|, l.maxShard)
      && (forall q | p < q <= |others| :: !MayStay(others, q, Drift(l, ops), |data|, l.maxShard))
      && After(l, ops + [PutOp(k, data)]).entries == [Entry(k, data)] + others[..p]
  {
    var s := After(l, ops);
    CounterAfter(l, ops);
    RecencyAfter(l, ops);
    ForgetCounts(s, k, Drift(l, ops));
    if !Has(s.entries, k) { WithoutAbsent(s.entries, k); }
    assert (ops + [PutOp(k, data)])[..|ops|] == ops;
    p := EvictExactly(Forget(s, k), Drift(l, ops), |data|, l.maxShard);
  }

  // ---------------------------------------------------------------- runs in which the counter is exact

  /** No operation of the run overwrites the front entry by a value of another length. */
  predicate Steady(l: Limits, ops: seq<Op>) {
    ops != [] ==>
      && Uncounted(l, After(l, ops[..|ops| - 1]), ops[|ops| - 1]) == 0
      && Steady(l, ops[..|ops| - 1])
  }

  /** What an exact shard can hold at most: its size, or the one object that exceeds it. */
  function Bound(l: Limits): nat {
    if l.maxObject <= l.maxShard then l.maxShard else l.maxObject
  }

  /** The sizes fit into 64 bits. */
  predicate Sound(l: Limits) {
    Bound(l) + l.maxObject < SIZE_T
  }

  /** The counter is the number of bytes stored, and within the bound. */
  predicate Exact(l: Limits, s: Shard) {
    s.size == Sum(s.entries) <= Bound(l)
  }

  /** The longest prefix of es that leaves room for `incoming` bytes; the empty one if none does. */
  predicate LongestFitting(es: seq<Entry>, p: nat, incoming: nat, max: nat) {
    && p <= |es|
    && (p > 0 ==> Sum(es[..p]) + incoming <= max)
    && (p < |es| ==> Sum(es[..p + 1]) + incoming > max)
  }

  /** `lost` bytes are counted that are not there. */
  lemma {:induction false} EvictMinimal(s: Shard, lost: nat, incoming: nat, max: nat) returns (p: nat)
    requires s.size == Sum(s.entries) + lost && s.size + incoming < SIZE_T
    ensures LongestFitting(s.entries, p, incoming + lost, max)
    ensures Evict(s, incoming, max) == Shard(s.entries[..p], Sum(s.entries[..p]) + lost)
    decreases |s.entries|
  {
    hide Wrap;
    WrapSmall(s.size + incoming);
    assert s.entries[..|s.entries|] == s.entries;
    if s.size + incoming > max && s.entries != [] {
      var last := |s.entries| - 1;
      SumSplit(s.entries, last);
      WrapSmall(s.size - |s.entries[last].data|);
      p := EvictMinimal(Shard(s.entries[..last], s.size - |s.entries[last].data|), lost, incoming, max);
      assert s.entries[..last][..p] == s.entries[..p];
      if p < last { assert s.entries[..last][..p + 1] == s.entries[..p + 1]; }
    } else {
      p := |s.entries|;
    }
  }

  lemma ForgetCounted(s: Shard, k: Key, lost: nat)
    requires Distinct(s.entries) && s.size == Sum(s.entries) + lost < SIZE_T
    ensures Forget(s, k) == Shard(Without(s.entries, k), Sum(Without(s.entries, k)) + lost)
    ensures Sum(Without(s.entries, k)) <= Sum(s.entries)
  {
    hide Wrap;
    if Has(s.entries, k) {
      var i := Find(s.entries, k);
      WithoutAt(s.entries, k, i);
      SumSplit(s.entries, i);
      SumConcat(s.entries[..i], s.entries[i + 1..]);
      WrapSmall(s.size - |s.entries[i].data|);
    } else {
      WithoutAbsent(s.entries, k);
    }
  }

  lemma PutEvicts(l: Limits, s: Shard, lost: nat, k: Key, data: Bytes) returns (p: nat)
    requires Distinct(s.entries) && s.size == Sum(s.entries) + lost && s.size + |data| < SIZE_T
    requires |data| <= l.maxObject && !AtFront(s.entries, k)
    ensures LongestFitting(Without(s.entries, k), p, |data| + lost, l.maxShard)
    ensures var es := [Entry(k, data)] + Without(s.entries, k)[..p];
      Put(l, s, k, data) == Shard(es, Sum(es) + lost)
  {
    ForgetCounted(s, k, lost);
    var f := Forget(s, k);
    p := EvictMinimal(f, lost, |data|, l.maxShard);
    SumPrefix(f.entries, p);
    Counted(l, s, f.entries[..p], lost, k, data);
  }

  lemma SumPrefix(es: seq<Entry>, p: nat)
    requires p <= |es|
    ensures Sum(es[..p]) <= Sum(es)
  {
    SumConcat(es[..p], es[p..]);
    assert es == es[..p] + es[p..];
  }

  lemma Counted(l: Limits, s: Shard, kept: seq<Entry>, lost: nat, k: Key, data: Bytes)
    requires |data| <= l.maxObject && !AtFront(s.entries, k)
    requires Evict(Forget(s, k), |data|, l.maxShard) == Shard(kept, Sum(kept) + lost)
    requires Sum(kept) + lost + |data| < SIZE_T
    ensures var r := [Entry(k, data)] + kept; Put(l, s, k, data) == Shard(r, Sum(r) + lost)
  {
    hide Wrap, Evict, Forget;
    var r := [Entry(k, data)] + kept;
    assert r[1..] == kept;
    WrapSmall(Sum(kept) + lost + |data|);
  }

  /** While the counter is exact, a put that is not a front overwrite leaves the new entry, then the
      longest prefix of the other entries that fits beside it: nothing is evicted without need, and the
      oldest first. The shard is within its size afterwards unless the new entry alone is not. */
  lemma PutEvictsMinimally(l: Limits, s: Shard, k: Key, data: Bytes) returns (p: nat)
    requires Sound(l) && Distinct(s.entries) && Exact(l, s) && |data| <= l.maxObject && !AtFront(s.entries, k)
    ensures LongestFitting(Without(s.entries, k), p, |data|, l.maxShard)
    ensures Put(l, s, k, data).entries == [Entry(k, data)] + Without(s.entries, k)[..p]
    ensures Exact(l, Put(l, s, k, data))
    ensures Sum(Put(l, s, k, data).entries) <= l.maxShard <==> |data| <= l.maxShard
  {
    p := PutEvicts(l, s, 0, k, data);
    SumConcat([Entry(k, data)], Without(s.entries, k)[..p]);
  }

  /** One operation keeps the counter exact if and only if it is not a front overwrite by a value of
      another length. */
  lemma ExactIff(l: Limits, s: Shard, op: Op)
    requires Sound(l) && Distinct(s.entries) && Exact(l, s)
    ensures Exact(l, Apply(l, s, op)) <==> Uncounted(l, s, op) == 0
  {
    if op.GetOp? {
      if Has(s.entries, op.key) {
        var i := Find(s.entries, op.key);
        WithoutAt(s.entries, op.key, i);
        SumSplit(s.entries, i);
        SumConcat([s.entries[i]], Without(s.entries, op.key));
        SumConcat(s.entries[..i], s.entries[i + 1..]);
      }
    } else if |op.data| > l.maxObject {
    } else if AtFront(s.entries, op.key) {
      SumConcat([Entry(op.key, op.data)], s.entries[1..]);
    } else {
      var p := PutEvictsMinimally(l, s, op.key, op.data);
    }
  }

  /** In a run whose front overwrites keep the length, the counter is the bytes stored, it never wraps,
      and it stays within the bound. */
  lemma {:induction false} SteadyIsExact(l: Limits, ops: seq<Op>)
    requires Sound(l) && Steady(l, ops)
    ensures Exact(l, After(l, ops))
  {
    if ops != [] {
      SteadyIsExact(l, ops[..|ops| - 1]);
      RecencyAfter(l, ops[..|ops| - 1]);
      ExactIff(l, After(l, ops[..|ops| - 1]), ops[|ops| - 1]);
    }
  }

  /** In all such runs a shard stays within its size if and only if the largest object it takes does. */
  lemma WithinSizeIff(l: Limits)
    requires Sound(l)
    ensures (forall ops | Steady(l, ops) :: Sum(After(l, ops).entries) <= l.maxShard) <==> l.maxObject <= l.maxShard
  {
    if l.maxObject <= l.maxShard {
      forall ops | Steady(l, ops) ensures Sum(After(l, ops).entries) <= l.maxShard {
        SteadyIsExact(l, ops);
      }
    } else {
      var put := PutOp(Key("", ""), seq(l.maxObject, _ => ' '));
      assert [put][..0] == [];
      assert Steady(l, [put][..0]) && Steady(l, [put]);
      var p := PutEvictsMinimally(l, Shard([], 0), put.key, put.data);
      assert After(l, [put]) == Put(l, Shard([], 0), put.key, put.data);
      assert Sum(After(l, [put]).entries) > l.maxShard;
    }
  }

  // ---------------------------------------------------------------- and runs in which it is not

  /** What front overwrites have made shorter, and none has made good, is lost to the shard: a put evicts
      as if so many bytes more were stored. */
  lemma ShrinkingLosesCapacity(l: Limits, ops: seq<Op>, k: Key, data: Bytes) returns (p: nat)
    requires Drift(l, ops) <= 0 && Sum(After(l, ops).entries) - Drift(l, ops) + |data| < SIZE_T
    requires |data| <= l.maxObject && !AtFront(After(l, ops).entries, k)
    ensures LongestFitting(Without(After(l, ops).entries, k), p, |data| - Drift(l, ops), l.maxShard)
    ensures After(l, ops + [PutOp(k, data)]).entries == [Entry(k, data)] + Without(After(l, ops).entries, k)[..p]
  {
    CounterAfter(l, ops);
    RecencyAfter(l, ops);
    WrapSmall(Sum(After(l, ops).entries) - Drift(l, ops));
    assert (ops + [PutOp(k, data)])[..|ops|] == ops;
    p := PutEvicts(l, After(l, ops), -Drift(l, ops), k, data);
  }

  /** Once that amounts to more than the shard's size, the new object's bytes counted in, a put leaves nothing
      but its own object: so an object with content does as soon as the size itself is lost. */
  lemma ShrunkToOne(l: Limits, ops: seq<Op>, k: Key, data: Bytes)
    requires Drift(l, ops) <= 0 && Sum(After(l, ops).entries) - Drift(l, ops) + |data| < SIZE_T
    requires Drift(l, ops) + l.maxShard < |data| <= l.maxObject && !AtFront(After(l, ops).entries, k)
    ensures After(l, ops + [PutOp(k, data)]).entries == [Entry(k, data)]
  {
    var p := ShrinkingLosesCapacity(l, ops, k, data);
    assert p == 0;
  }

  /** From one entry a put of another key leads to one entry if and only if the two, and the bytes lost, do
      not fit: two empty objects do, when no more than the size itself is lost. */
  lemma OneStaysOneIff(l: Limits, ops: seq<Op>, e: Entry, k: Key, data: Bytes)
    requires Drift(l, ops) <= 0 && |e.data| - Drift(l, ops) + |data| < SIZE_T
    requires After(l, ops).entries == [e] && e.key != k && |data| <= l.maxObject
    ensures |After(l, ops + [PutOp(k, data)]).entries| == 1 <==> Drift(l, ops) + l.maxShard < |e.data| + |data|
  {
    assert Sum([e]) == |e.data| + Sum([e][1..]) && [e][1..] == [];
    var p := ShrinkingLosesCapacity(l, ops, k, data);
    WithoutAbsent([e], k);
    assert [e][..1] == [e] && [e][..0] == [];
  }

  /** No operation overwrites the front entry by a value of another length. */
  ghost predicate Quiet(l: Limits, ops: seq<Op>, more: seq<Op>) {
    forall i | 0 <= i < |more| :: Uncounted(l, After(l, ops + more[..i]), more[i]) == 0
  }

  /** Every object put is longer than what the loss has left of the shard: any object if more than the shard's
      size is lost, any but an empty one if just that. */
  ghost predicate Filling(left: int, more: seq<Op>) {
    forall i | 0 <= i < |more| && more[i].PutOp? :: left < |more[i].data|
  }

  /** One entry, or empty ones. */
  predicate OneWithContent(es: seq<Entry>) {
    |es| <= 1 || forall i | 0 <= i < |es| :: es[i].data == ""
  }

  lemma {:induction false} LastPutFits(l: Limits, ops: seq<Op>, k: Key)
    ensures LastPut(l, ops, k).Some? ==> |LastPut(l, ops, k).value| <= l.maxObject
  {
    if ops != [] { LastPutFits(l, ops[..|ops| - 1], k); }
  }

  lemma {:induction false} EmptySum(es: seq<Entry>)
    requires forall i | 0 <= i < |es| :: es[i].data == ""
    ensures Sum(es) == 0
  {
    if es != [] { EmptySum(es[1..]); }
  }

  lemma {:induction false} SumOfEmpty(es: seq<Entry>)
    requires Sum(es) == 0
    ensures forall i | 0 <= i < |es| :: es[i].data == ""
  {
    if es != [] { SumOfEmpty(es[1..]); }
  }

  lemma OneFits(l: Limits, ops: seq<Op>)
    requires OneWithContent(After(l, ops).entries)
    ensures Sum(After(l, ops).entries) <= l.maxObject
  {
    var es := After(l, ops).entries;
    if |es| == 1 {
      RecencyAfter(l, ops);
      LastPutFits(l, ops, es[0].key);
      assert es[1..] == [];
    } else {
      EmptySum(es);
    }
  }

  lemma QuietPut(l: Limits, ops: seq<Op>, k: Key, data: Bytes)
    requires Drift(l, ops) + l.maxShard <= 0 && 2 * l.maxObject - Drift(l, ops) < SIZE_T
    requires OneWithContent(After(l, ops).entries) && |data| <= l.maxObject && !AtFront(After(l, ops).entries, k)
    ensures OneWithContent(After(l, ops + [PutOp(k, data)]).entries)
    ensures Drift(l, ops) + l.maxShard < |data| ==> |After(l, ops + [PutOp(k, data)]).entries| == 1
  {
    OneFits(l, ops);
    var p := ShrinkingLosesCapacity(l, ops, k, data);
    if p > 0 { SumOfEmpty(Without(After(l, ops).entries, k)[..p]); }
  }

  lemma QuietStep(l: Limits, ops: seq<Op>, op: Op)
    requires Drift(l, ops) + l.maxShard <= 0 && 2 * l.maxObject - Drift(l, ops) < SIZE_T
    requires OneWithContent(After(l, ops).entries) && Uncounted(l, After(l, ops), op) == 0
    ensures var es, after := After(l, ops).entries, After(l, ops + [op]).entries;
      && Drift(l, ops + [op]) == Drift(l, ops) && OneWithContent(after)
      && (|es| <= 1 && (op.PutOp? ==> Drift(l, ops) + l.maxShard < |op.data|) ==> |after| <= 1)
  {
    var s := After(l, ops);
    assert (ops + [op])[..|ops|] == ops;
    assert After(l, ops + [op]) == Apply(l, s, op);
    RecencyAfter(l, ops);
    if op.GetOp? {
      if Has(s.entries, op.key) { WithoutAt(s.entries, op.key, Find(s.entries, op.key)); }
    } else if |op.data| <= l.maxObject && !AtFront(s.entries, op.key) {
      QuietPut(l, ops, op.key, op.data);
    }
  }

  /** And that lasts until a front overwrite by another length: whatever else is asked or put, the drift stays,
      and the shard keeps one entry, or empty ones; one if what is put is longer than what is left. */
  lemma {:induction false} LossLasts(l: Limits, ops: seq<Op>, more: seq<Op>)
    requires Drift(l, ops) + l.maxShard <= 0 && 2 * l.maxObject - Drift(l, ops) < SIZE_T
    requires OneWithContent(After(l, ops).entries) && Quiet(l, ops, more)
    ensures Drift(l, ops + more) == Drift(l, ops) && OneWithContent(After(l, ops + more).entries)
    ensures |After(l, ops).entries| <= 1 && Filling(Drift(l, ops) + l.maxShard, more) ==>
      |After(l, ops + more).entries| <= 1
    decreases |more|
  {
    hide After, Drift, Uncounted, OneWithContent;
    if more == [] {
      assert ops + more == ops;
    } else {
      var last := |more| - 1;
      forall i | 0 <= i < last ensures more[..last][..i] == more[..i] {
      }
      LossLasts(l, ops, more[..last]);
      assert ops + more == (ops + more[..last]) + [more[last]];
      QuietStep(l, ops + more[..last], more[last]);
    }
  }

  /** Two puts of the same key lose the whole shard that way, and a third gives it back. */
  lemma ShrinkAndRestore(l: Limits, a: Key, data: Bytes)
    requires Sound(l) && |data| == l.maxObject == l.maxShard > 0
    ensures var ops := [PutOp(a, data), PutOp(a, "")];
      && Drift(l, ops) + l.maxShard == 0 && After(l, ops) == Shard([Entry(a, "")], l.maxShard)
      && Drift(l, ops + [PutOp(a, data)]) == 0 && Exact(l, After(l, ops + [PutOp(a, data)]))
  {
    hide Wrap, Evict;
    var one, ops, all :=
      [PutOp(a, data)], [PutOp(a, data), PutOp(a, "")], [PutOp(a, data), PutOp(a, ""), PutOp(a, data)];
    WrapSmall(|data|);
    assert one[..0] == [] && ops[..1] == one && all[..2] == ops && ops + [PutOp(a, data)] == all;
    FirstPut(l, a, data);
    assert After(l, one) == Put(l, Shard([], 0), a, data);
    assert After(l, ops) == Put(l, After(l, one), a, "") == Shard([Entry(a, "")], |data|);
    assert After(l, all) == Put(l, After(l, ops), a, data) == Shard([Entry(a, data)], |data|);
    assert Drift(l, one) == 0 && Drift(l, ops) == -|data| && Drift(l, all) == 0;
    assert [Entry(a, data)][1..] == [] && Sum([Entry(a, data)]) == |data|;
  }

  lemma FirstPut(l: Limits, a: Key, data: Bytes)
    requires |data| <= l.maxObject && |data| < SIZE_T
    ensures Put(l, Shard([], 0), a, data) == Shard([Entry(a, data)], |data|)
  {
    WrapSmall(|data|);
  }

  /** Overwrites by longer values do the opposite: three puts can store twice the size of the shard. */
  lemma OverwriteOverflows(l: Limits, a: Key, b: Key, data: Bytes)
    requires Sound(l) && a != b && |data| == l.maxObject == l.maxShard > 0
    ensures var s := After(l, [PutOp(a, data), PutOp(b, ""), PutOp(b, data)]);
      s == Shard([Entry(b, data), Entry(a, data)], l.maxShard) && Sum(s.entries) == 2 * l.maxShard
  {
    hide Wrap;
    var ops := [PutOp(a, data), PutOp(b, ""), PutOp(b, data)];
    WrapSmall(0);
    WrapSmall(|data|);
    assert ops[..2] == [PutOp(a, data), PutOp(b, "")] && ops[..2][..1] == [PutOp(a, data)] && ops[..2][..1][..0] == [];
    assert After(l, ops[..2][..1]) == Put(l, Shard([], 0), a, data) == Shard([Entry(a, data)], |data|);
    assert Evict(Shard([Entry(a, data)], |data|), 0, l.maxShard) == Shard([Entry(a, data)], |data|);
    assert After(l, ops[..2]) == Put(l, Shard([Entry(a, data)], |data|), b, "") ==
      Shard([Entry(b, "")] + [Entry(a, data)], |data|);
    assert After(l, ops) == Put(l, After(l, ops[..2]), b, data);
    var es := [Entry(b, data), Entry(a, data)];
    assert ([Entry(b, "")] + [Entry(a, data)])[1..] == [Entry(a, data)];
    assert After(l, ops) == Shard(es, l.maxShard);
    assert es[1..] == [Entry(a, data)] && es[1..][1..] == [] && Sum(es[1..]) == |data|;
  }
}
