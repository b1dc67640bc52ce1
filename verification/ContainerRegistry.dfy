/** Which handles boot found for which container on which partition, and whether that is all of them. */
module ContainerRegistry {
  import opened Types

  /** One accepted registration; the program also takes a null reference, once. */
  datatype Registration = Registration(name: Name, slot: nat, ref: Option<Ref>)

  /** What the registrations so far leave in a slot: the latest of them, null if there is none. */
  function SlotOf(log: seq<Registration>, n: Name, i: nat): Option<Ref> {
    if log == [] then None
    else if log[|log| - 1].name == n && log[|log| - 1].slot == i then log[|log| - 1].ref
    else SlotOf(log[..|log| - 1], n, i)
  }

  predicate Knows(log: seq<Registration>, n: Name) {
    exists j | 0 <= j < |log| :: log[j].name == n
  }

  predicate Accepted(log: seq<Registration>, n: Name, i: nat) {
    exists j | 0 <= j < |log| :: log[j].name == n && log[j].slot == i
  }

  predicate NoneTwice(log: seq<Registration>) {
    forall i, j | 0 <= i < j < |log| :: log[i].ref != log[j].ref
  }

  predicate NonNull(log: seq<Registration>) {
    forall j | 0 <= j < |log| :: log[j].ref.Some?
  }

  lemma {:induction false} SlotFrom(log: seq<Registration>, n: Name, i: nat) returns (j: nat)
    requires SlotOf(log, n, i).Some?
    ensures j < |log| && log[j] == Registration(n, i, SlotOf(log, n, i))
  {
    j := |log| - 1;
    if !(log[j].name == n && log[j].slot == i) {
      j := SlotFrom(log[..j], n, i);
    }
  }

  lemma {:induction false} SlotFilled(log: seq<Registration>, n: Name, i: nat, j: nat)
    requires NonNull(log) && j < |log| && log[j].name == n && log[j].slot == i
    ensures SlotOf(log, n, i).Some?
  {
    var last := |log| - 1;
    if !(log[last].name == n && log[last].slot == i) {
      SlotFilled(log[..last], n, i, j);
    }
  }

  /** No handle is in two slots, of one container or of two. */
  lemma SlotsDistinct(log: seq<Registration>, m: Name, i: nat, n: Name, j: nat)
    requires NoneTwice(log) && SlotOf(log, m, i).Some? && SlotOf(log, m, i) == SlotOf(log, n, j)
    ensures m == n && i == j
  {
    var a := SlotFrom(log, m, i);
    var b := SlotFrom(log, n, j);
    assert log[a].ref == log[b].ref;
  }

  /** Every slot of the container holds a handle. */
  predicate Intact(log: seq<Registration>, k: nat, n: Name) {
    forall i | 0 <= i < k :: SlotOf(log, n, i).Some?
  }

  lemma FilledMeansAccepted(log: seq<Registration>, n: Name, i: nat)
    requires NonNull(log)
    ensures SlotOf(log, n, i).Some? <==> Accepted(log, n, i)
  {
    if SlotOf(log, n, i).Some? {
      var j := SlotFrom(log, n, i);
    } else if Accepted(log, n, i) {
      var j :| 0 <= j < |log| && log[j].name == n && log[j].slot == i;
      SlotFilled(log, n, i, j);
    }
  }

  /** With handles that are not null, a container is intact exactly if each of its slots was accepted. */
  lemma IntactMeansAccepted(log: seq<Registration>, k: nat, n: Name)
    requires NonNull(log)
    ensures Intact(log, k, n) <==> forall i | 0 <= i < k :: Accepted(log, n, i)
  {
    forall i | 0 <= i < k ensures SlotOf(log, n, i).Some? <==> Accepted(log, n, i) {
      FilledMeansAccepted(log, n, i);
    }
  }

  type Table = map<Name, seq<Option<Ref>>>

  /** The table shows for each name that was registered what the registrations leave in its slots. */
  predicate Tabulates(k: nat, log: seq<Registration>, table: Table) {
    && (forall n | n in table ::
          Knows(log, n) && |table[n]| == k && forall i | 0 <= i < k :: table[n][i] == SlotOf(log, n, i))
    && (forall j | 0 <= j < |log| :: log[j].name in table)
  }

  predicate Discovers(log: seq<Registration>, discovered: set<Option<Ref>>) {
    && (forall j | 0 <= j < |log| :: log[j].ref in discovered)
    && (forall r | r in discovered :: exists j | 0 <= j < |log| :: log[j].ref == r)
  }

  function EmptySlots(k: nat): (slots: seq<Option<Ref>>)
    ensures |slots| == k && forall i | 0 <= i < k :: slots[i] == None
  {
    seq(k, _ => None)
  }

  /** The slot takes the reference; a name that is new gets empty slots first. */
  function Enter(k: nat, table: Table, r: Registration): Table
    requires r.slot < k && forall n | n in table :: |table[n]| == k
  {
    table[r.name := (if r.name in table then table[r.name] else EmptySlots(k))[r.slot := r.ref]]
  }

  lemma SlotMore(log: seq<Registration>, r: Registration, n: Name, i: nat)
    ensures SlotOf(log + [r], n, i) == if r.name == n && r.slot == i then r.ref else SlotOf(log, n, i)
  {
    assert (log + [r])[..|log|] == log;
  }

  lemma SlotsMore(log: seq<Registration>, r: Registration)
    ensures forall n, i :: SlotOf(log + [r], n, i) == if r.name == n && r.slot == i then r.ref else SlotOf(log, n, i)
  {
    hide SlotOf;
    forall n, i ensures SlotOf(log + [r], n, i) == if r.name == n && r.slot == i then r.ref else SlotOf(log, n, i) {
      SlotMore(log, r, n, i);
    }
  }

  lemma KnowsMore(log: seq<Registration>, r: Registration, n: Name)
    ensures Knows(log + [r], n) <==> n == r.name || Knows(log, n)
  {
    var more := log + [r];
    assert more[|log|] == r;
    if Knows(log, n) {
      var j :| 0 <= j < |log| && log[j].name == n;
      assert more[j].name == n;
    }
  }

  lemma UnknownSlot(log: seq<Registration>, n: Name, i: nat)
    requires !Knows(log, n)
    ensures SlotOf(log, n, i) == None
  {
    if SlotOf(log, n, i).Some? {
      var j := SlotFrom(log, n, i);
    }
  }

  lemma EnterTabulates(k: nat, log: seq<Registration>, table: Table, r: Registration)
    requires Tabulates(k, log, table) && r.slot < k
    ensures Tabulates(k, log + [r], Enter(k, table, r))
  {
    var after := Enter(k, table, r);
    forall n | n in after
      ensures Knows(log + [r], n) && |after[n]| == k && forall i | 0 <= i < k :: after[n][i] == SlotOf(log + [r], n, i)
    {
      KnowsMore(log, r, n);
      forall i | 0 <= i < k ensures after[n][i] == SlotOf(log + [r], n, i) {
        SlotMore(log, r, n, i);
        if n !in table { UnknownSlot(log, n, i); }
      }
    }
  }

  lemma DiscoversMore(log: seq<Registration>, discovered: set<Option<Ref>>, r: Registration)
    requires Discovers(log, discovered)
    ensures Discovers(log + [r], discovered + {r.ref})
    ensures r.ref !in discovered && NoneTwice(log) ==> NoneTwice(log + [r])
  {
    var more := log + [r];
    forall s | s in discovered + {r.ref} ensures exists j | 0 <= j < |more| :: more[j].ref == s {
      if s == r.ref {
        assert more[|log|].ref == s;
      } else {
        var j :| 0 <= j < |log| && log[j].ref == s;
        assert more[j].ref == s;
      }
    }
  }

  class Registry {
    const k: nat
    var references: Table
    var discovered: map<Option<Ref>, nat>
    ghost var log: seq<Registration>

    ghost predicate Valid()
      reads this
    {
      NoneTwice(log) && Discovers(log, discovered.Keys) && Tabulates(k, log, references)
    }

    constructor (k: nat)
      ensures Valid() && this.k == k && log == []
    {
      this.k, references, discovered, log := k, map[], map[], [];
    }

    /** A handle is accepted the first time it comes, and then it is its slot's. */
    method RegisterContainerReference(name: Name, collocation: nat, ref: Option<Ref>) returns (status: Status)
      requires Valid() && collocation < k
      modifies this
      ensures Valid()
      ensures status ==
        if exists j | 0 <= j < |old(log)| :: old(log)[j].ref == ref then DuplicateEngineReferences else Success
      ensures status == Success ==> log == old(log) + [Registration(name, collocation, ref)]
      ensures status == Success ==> forall n, i ::
        SlotOf(log, n, i) == if n == name && i == collocation then ref else old(SlotOf(log, n, i))
      ensures status != Success ==> log == old(log) && references == old(references) && discovered == old(discovered)
    {
      if ref in discovered {
        return DuplicateEngineReferences;
      }
      var r := Registration(name, collocation, ref);
      EnterTabulates(k, log, references, r);
      DiscoversMore(log, discovered.Keys, r);
      SlotsMore(log, r);
      hide NoneTwice, Tabulates, Discovers, SlotOf, EmptySlots, Enter;
      discovered := discovered[ref := collocation];
      assert discovered.Keys == old(discovered).Keys + {ref};
      references := Enter(k, references, r);
      log := log + [r];
      return Success;
    }

    /** A known container is intact exactly if none of its slots is null. */
    method ExecuteIntegrityValidation(name: Name) returns (status: Status)
      requires Valid()
      ensures status == ContainerNotExists <==> !Knows(log, name)
      ensures status == Success <==> Knows(log, name) && Intact(log, k, name)
      ensures status in {Success, ContainerNotExists, InvalidNumberEngineReferences}
    {
      if name !in references {
        return ContainerNotExists;
      }
      var slots := references[name];
      if |slots| != k {
        return InvalidNumberEngineReferences;
      }
      for i := 0 to |slots|
        invariant forall j | 0 <= j < i :: slots[j].Some?
      {
        if slots[i] == None {
          assert SlotOf(log, name, i) == None;
          return InvalidNumberEngineReferences;
        }
      }
      return Success;
    }

    function GetReferences(name: Name): (slots: Option<seq<Option<Ref>>>)
      requires Valid()
      reads this
      ensures slots.Some? <==> Knows(log, name)
      ensures slots.Some? ==> |slots.value| == k && forall i | 0 <= i < k :: slots.value[i] == SlotOf(log, name, i)
    {
      if name in references then Some(references[name]) else None
    }
  }
}
