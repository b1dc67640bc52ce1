/** Who is answered what, and how often, by the dispatchers of all partitions. */
module WriteAnswers {
  import opened Types
  import opened CacheSpec
  import opened WritePath

  // ---------------------------------------------------------------- answers

  /** The action brings the dispatcher of p to pc. */
  predicate BringsTo(s: State, a: Action, p: nat, pc: Dispatcher) {
    && p < |s.parts|
    && match pc
       case Waiting => a == Respond(p) && s.parts[p].pc.Cached?
       case Dispatched(t) => a == Dequeue(p, t) && s.parts[p].pc.Waiting? && t in s.parts[p].queue
       case Executed(t, ok) => a == CallEngine(p, ok) && s.parts[p].pc == Dispatched(t)
       case Cached(t, ok) => a == PutIntoCache(p) && s.parts[p].pc == Executed(t, ok)
  }

  lemma StepBringsTo(c: Config, s: State, a: Action, p: nat)
    requires Sized(s) && Enabled(c, s, a) && p < |s.parts|
    ensures var s' := Step(c, s, a);
      && |s'.parts| == |s.parts| && (s'.parts[p].pc == s.parts[p].pc || BringsTo(s, a, p, s'.parts[p].pc))
  {
    hide Apply, Executing;
  }

  /** From just after i up to j the dispatcher of p is at pc. */
  predicate AtSince(ws: seq<State>, i: nat, j: nat, p: nat, pc: Dispatcher) {
    i < j < |ws| && forall m | i < m <= j :: p < |ws[m].parts| && ws[m].parts[p].pc == pc
  }

  lemma {:induction false} PcComesFrom(c: Config, ws: seq<State>, acts: seq<Action>, j: nat, p: nat, pc: Dispatcher)
    returns (i: nat)
    requires Run(c, ws, acts) && j < |ws| && p < |ws[j].parts| && ws[j].parts[p].pc == pc && !pc.Waiting?
    ensures i < |acts| && AtSince(ws, i, j, p, pc) && BringsTo(ws[i], acts[i], p, pc)
  {
    hide Step, Enabled, BringsTo, Ordered, StepAt;
    assert j > 0;
    i := j - 1;
    InRun(c, ws, acts, i);
    OrderedAt(c, ws, acts, i);
    OrderedAt(c, ws, acts, j);
    hide Run;
    StepBringsTo(c, ws[i], acts[i], p);
    if ws[i].parts[p].pc == pc {
      i := PcComesFrom(c, ws, acts, i, p, pc);
    }
  }

  /** Partition p has task t in its engine at i, puts it into the cache at m and answers at e. */
  predicate Serves(ws: seq<State>, acts: seq<Action>, i: nat, m: nat, e: nat, p: nat, t: Task, ok: bool) {
    && i < m < e < |acts| && |ws| == |acts| + 1
    && p < |ws[i].parts| && ws[i].parts[p].pc == Dispatched(t)
    && acts[i] == CallEngine(p, ok) && acts[m] == PutIntoCache(p) && acts[e] == Respond(p)
    && AtSince(ws, i, m, p, Executed(t, ok)) && AtSince(ws, m, e, p, Cached(t, ok))
  }

  /** Whenever a dispatcher answers, it answers the task it has had in the engine and then in the cache, with what
      the engine said. */
  lemma AnswersAreTheEngines(c: Config, ws: seq<State>, acts: seq<Action>, e: nat)
    returns (i: nat, m: nat, p: nat, t: Task, ok: bool)
    requires Run(c, ws, acts) && e < |acts| && acts[e].Respond?
    ensures |ws| == |acts| + 1 && Serves(ws, acts, i, m, e, p, t, ok)
    ensures ws[e + 1].answered == ws[e].answered + {(t, ok)}
  {
    InRun(c, ws, acts, e);
    p := acts[e].p;
    t, ok := ws[e].parts[p].pc.task, ws[e].parts[p].pc.ok;
    hide Run;
    m := PcComesFrom(c, ws, acts, e, p, Cached(t, ok));
    i := PcComesFrom(c, ws, acts, m, p, Executed(t, ok));
  }

  lemma OthersAnswerNothing(c: Config, s: State, a: Action)
    requires Sized(s) && Enabled(c, s, a) && !a.Respond?
    ensures Step(c, s, a).answered == s.answered
  {
    hide Apply, Executing;
  }

  lemma ServesOne(ws: seq<State>, acts: seq<Action>, e: nat, i: nat, m: nat, p: nat, t: Task, ok: bool,
                  i': nat, m': nat, p': nat, t': Task, ok': bool)
    requires Serves(ws, acts, i, m, e, p, t, ok) && Serves(ws, acts, i', m', e, p', t', ok')
    ensures t == t' && ok == ok'
  {
    assert ws[e].parts[p].pc == Cached(t, ok) && ws[e].parts[p'].pc == Cached(t', ok');
  }

  /** The task was served before j, and the engine said ok. */
  ghost predicate ServedBefore(ws: seq<State>, acts: seq<Action>, j: nat, t: Task, ok: bool) {
    exists i: nat, m: nat, e: nat, p: nat :: e < j && Serves(ws, acts, i, m, e, p, t, ok)
  }

  /** In every run a task is answered with success if and only if an engine took it, the cache was given it and then
      its dispatcher answered; with failure if and only if the engine refused it, and then the dispatcher answered. */
  lemma {:induction false} AnsweredIff(c: Config, ws: seq<State>, acts: seq<Action>, j: nat, t: Task, ok: bool)
    requires Run(c, ws, acts) && j < |ws|
    ensures (t, ok) in ws[j].answered <==> ServedBefore(ws, acts, j, t, ok)
  {
    hide Step, Enabled, StepAt, Serves;
    if j > 0 {
      var e := j - 1;
      AnsweredIff(c, ws, acts, e, t, ok);
      InRun(c, ws, acts, e);
      hide Run;
      if acts[e].Respond? {
        var i, m, p, t', ok' := AnswersAreTheEngines(c, ws, acts, e);
        if ServedBefore(ws, acts, j, t, ok) && !ServedBefore(ws, acts, e, t, ok) {
          var i2: nat, m2: nat, e2: nat, p2: nat :| e2 < j && Serves(ws, acts, i2, m2, e2, p2, t, ok);
          ServesOne(ws, acts, e, i, m, p, t', ok', i2, m2, p2, t, ok);
        }
      } else {
        OthersAnswerNothing(c, ws[e], acts[e]);
        if ServedBefore(ws, acts, j, t, ok) {
          var i2: nat, m2: nat, e2: nat, p2: nat :| e2 < j && Serves(ws, acts, i2, m2, e2, p2, t, ok);
          ServesEnds(ws, acts, i2, m2, e2, p2, t, ok);
        }
      }
    }
  }

  lemma ServesEnds(ws: seq<State>, acts: seq<Action>, i: nat, m: nat, e: nat, p: nat, t: Task, ok: bool)
    requires Serves(ws, acts, i, m, e, p, t, ok)
    ensures e < |acts| && acts[e].Respond?
  {
  }

  // ---------------------------------------------------------------- requests

  /** How often a partition has the request: in its queue and in its dispatcher's hands. */
  function InPartition(part: Partition, t: Task): nat {
    part.queue[t] + if !part.pc.Waiting? && part.pc.task == t then 1 else 0
  }

  function InPartitions(parts: seq<Partition>, t: Task): nat {
    if parts == [] then 0 else InPartitions(parts[..|parts| - 1], t) + InPartition(parts[|parts| - 1], t)
  }

  /** How often it was asked for. */
  function Asked(acts: seq<Action>, t: Task): nat {
    if acts == [] then 0 else Asked(acts[..|acts| - 1], t) + if acts[|acts| - 1] == Enqueue(t) then 1 else 0
  }

  /** Action a, in state s, answers the request. */
  predicate AnswersIt(s: State, a: Action, t: Task) {
    a.Respond? && a.p < |s.parts| && s.parts[a.p].pc.Cached? && s.parts[a.p].pc.task == t
  }

  /** How often it was answered. */
  function Answered(ws: seq<State>, acts: seq<Action>, t: Task): nat
    requires |acts| < |ws|
  {
    if acts == [] then 0
    else
      var last := |acts| - 1;
      Answered(ws, acts[..last], t) + if AnswersIt(ws[last], acts[last], t) then 1 else 0
  }

  lemma {:induction false} InPartitionsMore(parts: seq<Partition>, p: nat, part: Partition, t: Task)
    requires p < |parts|
    ensures InPartitions(parts[p := part], t) + InPartition(parts[p], t)
         == InPartitions(parts, t) + InPartition(part, t)
  {
    hide InPartition;
    var last := |parts| - 1;
    if p < last {
      InPartitionsMore(parts[..last], p, part, t);
      assert parts[p := part][..last] == parts[..last][p := part];
    } else {
      assert parts[p := part][..last] == parts[..last];
    }
  }

  lemma InPartitionStep(c: Config, s: State, a: Action, t: Task)
    requires Sized(s) && Enabled(c, s, a) && MovesPart(a)
    ensures var p := PartOf(c, s, a); var s' := Step(c, s, a);
      && s'.parts == s.parts[p := s'.parts[p]]
      && InPartition(s'.parts[p], t) + (if AnswersIt(s, a, t) then 1 else 0)
         == InPartition(s.parts[p], t) + if a == Enqueue(t) then 1 else 0
  {
    hide Apply, Executing;
  }

  lemma OthersMoveNoPart(c: Config, s: State, a: Action)
    requires Sized(s) && Enabled(c, s, a)
    ensures !MovesPart(a) ==> Step(c, s, a).parts == s.parts
  {
    hide Apply;
  }

  lemma {:induction false} NothingAsked(parts: seq<Partition>, t: Task)
    requires forall p | 0 <= p < |parts| :: parts[p].queue == multiset{} && parts[p].pc == Waiting
    ensures InPartitions(parts, t) == 0
  {
    if parts != [] { NothingAsked(parts[..|parts| - 1], t); }
  }

  /** No request is lost and none is answered twice: at every point of every run it has been asked for as often as it
      is in a queue, in a dispatcher's hands, or answered. */
  lemma {:induction false} RequestsAreConserved(c: Config, ws: seq<State>, acts: seq<Action>, j: nat, t: Task)
    requires Run(c, ws, acts) && j < |ws|
    ensures |ws| == |acts| + 1
    ensures Asked(acts[..j], t) == InPartitions(ws[j].parts, t) + Answered(ws, acts[..j], t)
  {
    hide Step, Enabled, InPartition;
    if j == 0 {
      NothingAsked(ws[0].parts, t);
    } else {
      RequestsAreConserved(c, ws, acts, j - 1, t);
      InRun(c, ws, acts, j - 1);
      hide Run;
      assert acts[..j][..j - 1] == acts[..j - 1];
      var s, a := ws[j - 1], acts[j - 1];
      if MovesPart(a) {
        InPartitionStep(c, s, a, t);
        InPartitionsMore(s.parts, PartOf(c, s, a), ws[j].parts[PartOf(c, s, a)], t);
      } else {
        OthersMoveNoPart(c, s, a);
      }
    }
  }

  // ---------------------------------------------------------------- reads of the cache

  /** A client that asks for an object of a live container makes it the most recently touched of its shard, if the
      shard has it; and nobody's object gets lost by that. */
  lemma ReadTouches(c: Config, ws: seq<State>, acts: seq<Action>, j: nat, k: Key, m: Key)
    requires Run(c, ws, acts) && j < |acts| && acts[j] == ClientGet(k)
    ensures j + 1 < |ws| && Sized(ws[j]) && Sized(ws[j + 1])
    ensures Hit(c, ws[j + 1], m) == Hit(c, ws[j], m)
    ensures k.container in ws[j].live && Hit(c, ws[j], k).Some? ==>
      var es := ShardOf(c, ws[j + 1], k).entries; es != [] && Some(es[0].data) == Hit(c, ws[j], k) && es[0].key == k
  {
    OrderedAt(c, ws, acts, j);
    InRun(c, ws, acts, j);
    hide Run;
    var i := Slot(c, |ws[j].shards|, k);
    RecencyAfter(c.limits, ws[j].ops[i]);
    GetLookups(ws[j].shards[i], k, m);
  }

  /** Whether the container was there when the session began, and was not last seen going. */
  function MarkedLive(start: set<string>, acts: seq<Action>, n: string): bool {
    if acts == [] then n in start
    else
      var last := acts[|acts| - 1];
      if last == ContainerGone(n) then false
      else if last == ContainerBack(n) then true
      else MarkedLive(start, acts[..|acts| - 1], n)
  }

  lemma {:induction false} LiveAsMarked(c: Config, ws: seq<State>, acts: seq<Action>, j: nat, n: string)
    requires Run(c, ws, acts) && j < |ws|
    ensures |ws| == |acts| + 1 && (n in ws[j].live <==> MarkedLive(ws[0].live, acts[..j], n))
  {
    if j > 0 {
      LiveAsMarked(c, ws, acts, j - 1, n);
      InRun(c, ws, acts, j - 1);
      assert acts[..j][..j - 1] == acts[..j - 1];
      hide Run, Apply, Executing;
    }
  }
}
