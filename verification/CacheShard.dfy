/** One shard of the frontline cache as it is built: a doubly linked list, a map from keys to its nodes, a
    byte counter. */
module CacheShard {
  import opened Types
  import opened CacheSpec

  class Node {
    const key: Key
    var data: Bytes
    var prev: Node?
    var next: Node?

    constructor (key: Key, data: Bytes)
      ensures this.key == key && this.data == data
    {
      this.key, this.data := key, data;
    }
  }

  /** The sequence without its i-th element. */
  ghost function Cut<T>(s: seq<T>, i: nat): (rest: seq<T>)
    requires i < |s|
    ensures |rest| == |s| - 1
  {
    s[..i] + s[i + 1..]
  }

  lemma CutMembers<T>(s: seq<T>, i: nat)
    requires i < |s|
    ensures forall j | 0 <= j < |Cut(s, i)| :: Cut(s, i)[j] in s
  {
  }

  ghost function At(nodes: seq<Node>, i: int): Node? {
    if 0 <= i < |nodes| then nodes[i] else null
  }

  /** The i-th node points at its neighbours. */
  ghost predicate LinkedAt(nodes: seq<Node>, i: nat)
    requires i < |nodes|
    reads nodes[i]
  {
    nodes[i].prev == At(nodes, i - 1) && nodes[i].next == At(nodes, i + 1)
  }

  ghost predicate NoDup(nodes: seq<Node>) {
    forall i, j | 0 <= i < j < |nodes| :: nodes[i] != nodes[j]
  }

  lemma NoDupWithout(nodes: seq<Node>, i: nat)
    requires NoDup(nodes) && i < |nodes|
    ensures NoDup(Cut(nodes, i)) && nodes[i] !in Cut(nodes, i)
  {
  }

  /** The map leads from each key of the list to its node, and has no other keys. */
  ghost predicate Mapped(nodes: seq<Node>, lookup: map<Key, Node>) {
    && (forall i | 0 <= i < |nodes| :: nodes[i].key in lookup && lookup[nodes[i].key] == nodes[i])
    && (forall k | k in lookup :: lookup[k] in nodes && lookup[k].key == k)
  }

  lemma MappedWithout(nodes: seq<Node>, lookup: map<Key, Node>, i: nat)
    requires Mapped(nodes, lookup) && i < |nodes|
    requires NoDup(nodes)
    ensures Mapped(Cut(nodes, i), lookup - {nodes[i].key})
  {
    var rest := Cut(nodes, i);
    forall k | k in lookup && k != nodes[i].key ensures lookup[k] in rest {
      var j :| 0 <= j < |nodes| && nodes[j] == lookup[k];
      assert rest[if j < i then j else j - 1] == nodes[j];
    }
    forall m | 0 <= m < |rest| ensures rest[m].key in lookup && lookup[rest[m].key] == rest[m] && rest[m] != nodes[i] {
      assert rest[m] == nodes[if m < i then m else m + 1];
    }
  }

  lemma MappedWith(nodes: seq<Node>, lookup: map<Key, Node>, node: Node)
    requires Mapped(nodes, lookup) && node.key !in lookup
    ensures Mapped([node] + nodes, lookup[node.key := node])
  {
    assert forall m | 0 < m < |[node] + nodes| :: ([node] + nodes)[m] == nodes[m - 1];
    forall k | k in lookup ensures lookup[k] in [node] + nodes {
      var j :| 0 <= j < |nodes| && nodes[j] == lookup[k];
      assert ([node] + nodes)[j + 1] == nodes[j];
    }
  }

  lemma MappedMoved(nodes: seq<Node>, lookup: map<Key, Node>, i: nat)
    requires Mapped(nodes, lookup) && i < |nodes|
    requires NoDup(nodes)
    ensures Mapped([nodes[i]] + (Cut(nodes, i)), lookup)
  {
    var node := nodes[i];
    assert lookup[node.key] == node;
    MappedWithout(nodes, lookup, i);
    MappedWith(Cut(nodes, i), lookup - {node.key}, node);
    assert (lookup - {node.key})[node.key := node] == lookup;
  }

  ghost function EntriesOf(nodes: seq<Node>): (es: seq<Entry>)
    reads nodes
    ensures |es| == |nodes|
  {
    seq(|nodes|, i requires 0 <= i < |nodes| reads nodes => Entry(nodes[i].key, nodes[i].data))
  }

  class LruShard {
    const limits: Limits
    var size: nat
    var head: Node?
    var tail: Node?
    var lookup: map<Key, Node>
    /** The nodes of the list from head to tail. */
    ghost var nodes: seq<Node>

    /** Each node points at its neighbours. */
    ghost predicate Linked()
      reads `head, `tail, `nodes, nodes
    {
      && NoDup(nodes)
      && head == At(nodes, 0) && tail == At(nodes, |nodes| - 1)
      && (forall i | 0 <= i < |nodes| :: LinkedAt(nodes, i))
    }

    ghost predicate Valid()
      reads this, nodes
    {
      Linked() && Mapped(nodes, lookup) && size < SIZE_T && limits.maxShard < SIZE_T && limits.maxObject < SIZE_T
    }

    ghost function Entries(): (es: seq<Entry>)
      reads `nodes, nodes
    {
      EntriesOf(nodes)
    }

    ghost function Contents(): Shard
      reads this, nodes
    {
      Shard(Entries(), size)
    }

    constructor (limits: Limits)
      requires limits.maxShard < SIZE_T && limits.maxObject < SIZE_T
      ensures Valid() && this.limits == limits && Contents() == Shard([], 0) && nodes == []
    {
      this.limits := limits;
      size, head, tail, lookup, nodes := 0, null, null, map[], [];
    }

    /** Take a node out of the list; the map is not touched. */
    method Unlink(node: Node, ghost i: nat)
      requires Linked() && i < |nodes| && nodes[i] == node
      modifies this`head, this`tail, this`nodes, nodes
      ensures Linked() && nodes == Cut(old(nodes), i)
      ensures Entries() == Cut(old(Entries()), i) && node.data == old(node.data)
    {
      ghost var es, was := Entries(), nodes;
      NoDupWithout(nodes, i);
      assert LinkedAt(nodes, i);
      if node.prev == null { head := node.next; } else { node.prev.next := node.next; }
      if node.next == null { tail := node.prev; } else { node.next.prev := node.prev; }
      nodes := nodes[..i] + nodes[i + 1..];
      forall j | 0 <= j < |nodes| ensures LinkedAt(nodes, j) {
        ghost var p := if j < i then j else j + 1;
        assert nodes[j] == was[p] && old(LinkedAt(nodes, p));
        assert At(nodes, j - 1) == At(was, if j <= i then j - 1 else j);
        assert At(nodes, j + 1) == At(was, if j + 1 < i then j + 1 else j + 2);
      }
      assert Entries() == Cut(es, i) by {
        hide LinkedAt, NoDup, At;
      }
      hide EntriesOf;
    }

    /** Put a node that is not in the list at its front; the map is not touched. */
    method PushFront(node: Node)
      requires Linked() && node !in nodes
      modifies this`head, this`tail, this`nodes, nodes, node
      ensures Linked() && nodes == [node] + old(nodes)
      ensures Entries() == [Entry(node.key, old(node.data))] + old(Entries()) && node.data == old(node.data)
    {
      node.prev, node.next := null, head;
      if head == null { tail := node; } else { head.prev := node; }
      head := node;
      ghost var was := nodes;
      nodes := [node] + nodes;
      forall j | 0 < j < |nodes| ensures LinkedAt(nodes, j) {
        assert nodes[j] == was[j - 1];
        assert old(LinkedAt(nodes, j - 1));
      }
    }

    /** The entry leaves list, map and counter. */
    method Drop(node: Node, ghost i: nat)
      requires Valid() && i < |nodes| && nodes[i] == node
      modifies this`size, this`lookup, this`head, this`tail, this`nodes, nodes
      ensures Valid() && nodes == Cut(old(nodes), i) && node.key !in lookup
      ensures forall j | 0 <= j < |nodes| :: nodes[j] in old(nodes)
      ensures Contents() == Shard(Cut(old(Entries()), i), Wrap(old(size) - |old(node.data)|))
    {
      hide Mapped, LinkedAt, At, Linked, EntriesOf, NoDup, Cut;
      CutKeeps(i);
      Unlink(node, i);
      size := Wrap(size - |node.data|);
      lookup := lookup - {node.key};
    }

    /** The node becomes the first entry of list and map. */
    method Enter(node: Node)
      requires Valid() && node.key !in lookup
      modifies this`lookup, this`head, this`tail, this`nodes, nodes, node
      ensures Valid() && nodes == [node] + old(nodes)
      ensures Contents() == Shard([Entry(node.key, old(node.data))] + old(Entries()), old(size))
    {
      assert node !in nodes;
      MappedWith(nodes, lookup, node);
      hide Mapped, LinkedAt, At, Linked, EntriesOf, Wrap, NoDup, Cut, Has, Find, Without;
      lookup := lookup[node.key := node];
      PushFront(node);
    }

    /** What taking the i-th node out does to list and map. */
    lemma CutKeeps(i: nat)
      requires Valid() && i < |nodes|
      ensures Mapped(Cut(nodes, i), lookup - {nodes[i].key}) && Mapped([nodes[i]] + Cut(nodes, i), lookup)
      ensures nodes[i] !in Cut(nodes, i) && forall j | 0 <= j < |Cut(nodes, i)| :: Cut(nodes, i)[j] in nodes
    {
      MappedWithout(nodes, lookup, i);
      MappedMoved(nodes, lookup, i);
      NoDupWithout(nodes, i);
      CutMembers(nodes, i);
    }

    lemma Ends()
      requires Valid()
      ensures tail == null <==> nodes == []
      ensures tail != null ==> tail == nodes[|nodes| - 1] && Entries()[|nodes| - 1] == Entry(tail.key, tail.data)
      ensures head != null ==> nodes != [] && head == nodes[0] && head.key in lookup && lookup[head.key] == head
    {
    }

    lemma KeysDistinct()
      requires Valid()
      ensures Distinct(Entries())
      ensures forall k :: k in lookup <==> Has(Entries(), k)
      ensures forall k | AtFront(Entries(), k) :: k in lookup
      ensures forall k | k !in lookup :: CacheSpec.Forget(Contents(), k) == Contents()
    {
      forall k | k in lookup ensures Has(Entries(), k) {
        var j :| 0 <= j < |nodes| && nodes[j] == lookup[k];
        assert Entries()[j].key == k;
      }
    }

    /** Where the map leads is where the list has the key. */
    lemma Located(k: Key) returns (i: nat)
      requires Valid() && k in lookup
      ensures i < |nodes| && nodes[i] == lookup[k] && Has(Entries(), k) && i == Find(Entries(), k)
      ensures Without(Entries(), k) == Cut(Entries(), i)
      ensures CacheSpec.Forget(Contents(), k) == Shard(Cut(Entries(), i), Wrap(size - |lookup[k].data|))
      ensures lookup[k].key == k && Entries()[i] == Entry(k, lookup[k].data)
      ensures AtFront(Entries(), k) <==> head == lookup[k]
    {
      KeysDistinct();
      i := Find(Entries(), k);
      assert nodes[i].key == k;
      WithoutAt(Entries(), k, i);
    }

    /** The node moves to the front of the list. */
    method ToFront(node: Node, ghost i: nat)
      requires Valid() && i < |nodes| && nodes[i] == node
      modifies this`head, this`tail, this`nodes, nodes
      ensures Valid() && forall j | 0 <= j < |nodes| :: nodes[j] in old(nodes)
      ensures Entries() == [Entry(node.key, node.data)] + Cut(old(Entries()), i) && node.data == old(node.data)
    {
      hide Mapped, LinkedAt, At, Linked, EntriesOf, NoDup, Cut;
      CutKeeps(i);
      Unlink(node, i);
      PushFront(node);
    }

    /** Evict from the back until `incoming` more bytes fit, or nothing is left. */
    method EvictFor(incoming: nat)
      requires Valid()
      modifies this, nodes
      ensures Valid() && lookup.Keys <= old(lookup.Keys) && forall j | 0 <= j < |nodes| :: nodes[j] in old(nodes)
      ensures Contents() == Evict(old(Contents()), incoming, limits.maxShard)
    {
      hide Mapped, LinkedAt, At, Linked, EntriesOf, Wrap, NoDup;
      Ends();
      while Wrap(size + incoming) > limits.maxShard && tail != null
        invariant Valid() && (tail == null <==> nodes == [])
        invariant lookup.Keys <= old(lookup.Keys) && forall j | 0 <= j < |nodes| :: nodes[j] in old(nodes)
        invariant Evict(Contents(), incoming, limits.maxShard) == Evict(old(Contents()), incoming, limits.maxShard)
        decreases |nodes|
      {
        EvictOldest();
        Ends();
      }
    }

    method EvictOldest()
      requires Valid() && tail != null
      modifies this, nodes
      ensures Valid() && lookup.Keys <= old(lookup.Keys) && forall j | 0 <= j < |nodes| :: nodes[j] in old(nodes)
      ensures old(nodes) != [] && nodes == old(nodes[..|nodes| - 1])
      ensures Contents() == old(var last := |nodes| - 1; Shard(Entries()[..last], Wrap(size - |Entries()[last].data|)))
    {
      ghost var last := |nodes| - 1;
      ghost var es := Entries();
      Ends();
      assert Cut(es, last) == es[..last] && Cut(nodes, last) == nodes[..last];
      hide Mapped, LinkedAt, At, Linked, EntriesOf, Wrap, NoDup, Cut, Has, Find, Without;
      Drop(tail, last);
    }

    /** If the key is in the list, but not at its front, its entry is taken out. */
    method Forget(key: Key)
      requires Valid() && !AtFront(Entries(), key)
      modifies this, nodes
      ensures Valid() && key !in lookup && forall j | 0 <= j < |nodes| :: nodes[j] in old(nodes)
      ensures Contents() == CacheSpec.Forget(old(Contents()), key)
    {
      hide CacheSpec.Forget, Mapped, LinkedAt, At, Linked, EntriesOf, Wrap, NoDup, Cut, Has, Find, Without, AtFront;
      KeysDistinct();
      if key in lookup {
        ghost var i := Located(key);
        Drop(lookup[key], i);
      }
    }

    /** Overwrite the front entry; nothing is counted. */
    method Overwrite(data: Bytes)
      requires Valid() && head != null
      modifies head`data
      ensures Valid() && Entries() == [Entry(head.key, data)] + old(Entries())[1..]
    {
      Ends();
      ghost var es := Entries();
      assert NoDup(nodes);
      head.data := data;
      forall j | 0 <= j < |nodes| ensures LinkedAt(nodes, j) {
        assert old(LinkedAt(nodes, j));
      }
      assert Entries() == [Entry(head.key, data)] + es[1..] by {
        hide LinkedAt, At;
      }
      hide EntriesOf;
    }

    /** Make room for the object and put it at the front. */
    method Insert(key: Key, data: Bytes)
      requires Valid() && !AtFront(Entries(), key) && |data| <= limits.maxObject
      modifies this, nodes
      ensures Valid() && forall j | 0 <= j < |nodes| :: nodes[j] in old(nodes) || fresh(nodes[j])
      ensures Contents() == CacheSpec.Put(limits, old(Contents()), key, data)
    {
      hide Evict, CacheSpec.Forget, AtFront, Mapped, Linked, EntriesOf, Wrap;
      Forget(key);
      EvictFor(|data|);
      var node := new Node(key, data);
      Enter(node);
      size := Wrap(size + |data|);
    }

    /** Store an object. Refused if it is too large. */
    method Put(id: string, data: Bytes, container: string) returns (status: Status)
      requires Valid()
      modifies this, nodes
      ensures Valid() && forall j | 0 <= j < |nodes| :: nodes[j] in old(nodes) || fresh(nodes[j])
      ensures status == if |data| > limits.maxObject then ObjectDataSizeExceedsCacheLimit else Success
      ensures Contents() == CacheSpec.Put(limits, old(Contents()), Key(container, id), data)
    {
      hide Evict, CacheSpec.Forget, Mapped, LinkedAt, At, Linked, EntriesOf, Wrap, NoDup, Cut, Has, Find, Without;
      if |data| > limits.maxObject {
        return ObjectDataSizeExceedsCacheLimit;
      }
      var key := Key(container, id);
      Ends();
      KeysDistinct();
      if key in lookup { ghost var i := Located(key); }
      if key in lookup && head == lookup[key] {
        Overwrite(data);
      } else {
        Insert(key, data);
      }
      return Success;
    }

    /** Look an object up; a hit moves it to the front. */
    method Get(id: string, container: string) returns (data: Option<Bytes>)
      requires Valid()
      modifies this, nodes
      ensures Valid() && forall j | 0 <= j < |nodes| :: nodes[j] in old(nodes)
      ensures data == Lookup(old(Contents()), Key(container, id))
      ensures Contents() == CacheSpec.Get(old(Contents()), Key(container, id))
    {
      hide Mapped, LinkedAt, At, Linked, EntriesOf, Wrap, NoDup, Cut, Has, Find, Without;
      var key := Key(container, id);
      KeysDistinct();
      if key !in lookup {
        return None;
      }
      ghost var i := Located(key);
      ToFront(lookup[key], i);
      return Some(lookup[key].data);
    }
  }
}
