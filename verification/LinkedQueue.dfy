/**
 The doubly linked queue of src/queue.c.  `nodes` is the sequence it stands for.
 */
module LinkedQueue {

  class Node {
    var next: Node?
    var prev: Node?
    const value: nat

    constructor (value: nat)
      ensures this.value == value
    {
      this.value := value;
      next, prev := null, null;
    }
  }

  predicate Distinct(ns: seq<Node>) {
    forall i, j :: 0 <= i < j < |ns| ==> ns[i] != ns[j]
  }

  /** ns is one acyclic chain, linked in both directions. */
  ghost predicate Chain(ns: seq<Node>)
    reads ns
  {
    Distinct(ns) && forall i :: 0 <= i < |ns| ==> LinkAt(ns, i)
  }

  ghost predicate LinkAt(ns: seq<Node>, i: nat)
    requires i < |ns|
    reads ns
  {
    && ns[i].next == (if i == |ns| - 1 then null else ns[i + 1])
    && ns[i].prev == (if i == 0 then null else ns[i - 1])
  }

  class Queue {
    var size: int
    var head: Node?
    var tail: Node?
    ghost var nodes: seq<Node>

    /** Head, tail and links describe the chain `nodes`. */
    ghost predicate Linked()
      reads this, nodes
    {
      && Chain(nodes)
      && head == (if nodes == [] then null else nodes[0])
      && tail == (if nodes == [] then null else nodes[|nodes| - 1])
    }

    ghost predicate Valid()
      reads this, nodes
    {
      Linked() && size == |nodes|
    }

    constructor ()
      ensures Valid() && nodes == []
    {
      size, head, tail, nodes := 0, null, null, [];
    }

    /** pthreads_queue_push */
    method Push(item: Node)
      requires Linked() && item !in nodes
      modifies this, nodes, item
      ensures Linked() && nodes == old(nodes) + [item]
      ensures size == old(size) + 1
    {
      if tail == null {
        tail := item;
        head := item;
        item.prev, item.next := null, null;
      } else {
        tail.next := item;
        item.prev, item.next := tail, null;
        tail := item;
      }
      nodes := nodes + [item];
      size := size + 1;
      forall j | 0 <= j < |nodes|
        ensures LinkAt(nodes, j)
      {
        assert j < |nodes| - 1 ==> old(LinkAt(nodes, j));
      }
    }

    /** pthreads_queue_push_new */
    method PushNew(value: nat) returns (item: Node)
      requires Linked()
      modifies this, nodes
      ensures Linked() && fresh(item) && item.value == value
      ensures nodes == old(nodes) + [item] && size == old(size) + 1
    {
      item := new Node(value);
      Push(item);
    }

    /** pthreads_queue_unshift: links the item in front, but does not count it. */
    method Unshift(item: Node)
      requires Linked() && item !in nodes
      modifies this, nodes, item
      ensures Linked() && nodes == [item] + old(nodes)
      ensures size == old(size)
    {
      if head == null {
        tail := item;
        head := item;
        item.prev, item.next := null, null;
      } else {
        head.prev := item;
        item.prev, item.next := null, head;
        head := item;
      }
      nodes := [item] + nodes;
      forall j | 0 <= j < |nodes|
        ensures LinkAt(nodes, j)
      {
        assert j > 0 ==> old(LinkAt(nodes, j - 1));
      }
    }

    /** pthreads_queue_remove of a member, wherever it is; of nothing, it does nothing. */
    method Remove(item: Node?, ghost i: nat) returns (left: int)
      requires Linked()
      requires item != null ==> i < |nodes| && nodes[i] == item
      modifies this, nodes
      ensures Linked()
      ensures item == null ==> left == 0 && nodes == old(nodes) && size == old(size)
      ensures item != null ==>
                && nodes == old(nodes)[..i] + old(nodes)[i + 1..]
                && size == old(size) - 1 && left == size
    {
      if item == null {
        return 0;
      }
      ghost var rest := nodes[..i] + nodes[i + 1..];
      assert forall j :: 0 <= j < |rest| ==> rest[j] == if j < i then nodes[j] else nodes[j + 1];
      assert LinkAt(nodes, i);
      if head == item && tail == item {
        head := null;
        tail := null;
      } else if head == item {
        head := item.next;
        head.prev := null;
      } else if tail == item {
        tail := item.prev;
        tail.next := null;
      } else {
        var after, before := item.next, item.prev;
        after.prev := before;
        before.next := after;
      }
      size := size - 1;
      nodes := rest;
      left := size;
      forall j | 0 <= j < |rest|
        ensures LinkAt(rest, j)
      {
        assert old(LinkAt(nodes, if j < i then j else j + 1));
      }
    }

    /** pthreads_queue_shift */
    method Shift() returns (item: Node?, left: int)
      requires Linked()
      modifies this, nodes
      ensures Linked()
      ensures if old(nodes) == [] then item == null && left == 0 && nodes == [] && size == old(size)
              else item == old(nodes)[0] && nodes == old(nodes)[1..] && size == old(size) - 1 && left == size
    {
      item := head;
      left := Remove(item, 0);
      assert item != null ==> old(nodes)[..0] + old(nodes)[1..] == old(nodes)[1..];
    }

    /** pthreads_queue_pop */
    method Pop() returns (item: Node?, left: int)
      requires Linked()
      modifies this, nodes
      ensures Linked()
      ensures if old(nodes) == [] then item == null && left == 0 && nodes == [] && size == old(size)
              else item == old(nodes)[|old(nodes)| - 1] && nodes == old(nodes)[..|old(nodes)| - 1]
                   && size == old(size) - 1 && left == size
    {
      item := tail;
      ghost var last := if nodes == [] then 0 else |nodes| - 1;
      left := Remove(item, last);
      assert item != null ==> old(nodes)[..last] + old(nodes)[last + 1..] == old(nodes)[..last];
    }

    /** The member at position i, by walking the links. */
    method Find(i: nat) returns (item: Node?)
      requires Linked()
      ensures item == if i < |nodes| then nodes[i] else null
    {
      item := head;
      var j := 0;
      while item != null && j < i
        invariant j <= i && j <= |nodes|
        invariant item == if j < |nodes| then nodes[j] else null
      {
        assert LinkAt(nodes, j);
        item := item.next;
        j := j + 1;
      }
    }

    /** pthreads_queue_clean walks the whole chain once, front to back. */
    method Clean() returns (freed: seq<Node>)
      requires Linked()
      ensures freed == nodes
    {
      freed := [];
      var item := head;
      while item != null
        invariant |freed| <= |nodes| && freed == nodes[..|freed|]
        invariant item == if |freed| == |nodes| then null else nodes[|freed|]
        decreases |nodes| - |freed|
      {
        assert LinkAt(nodes, |freed|);
        freed := freed + [item];
        item := item.next;
      }
    }
  }

  /** What a run of operations does to the sequence of values. */
  datatype Op = PushOp(v: nat) | ShiftOp | PopOp | RemoveOp(i: nat)

  function Apply(q: seq<nat>, op: Op): seq<nat> {
    match op
    case PushOp(v) => q + [v]
    case ShiftOp => if q == [] then q else q[1..]
    case PopOp => if q == [] then q else q[..|q| - 1]
    case RemoveOp(i) => if i < |q| then q[..i] + q[i + 1..] else q
  }

  function ApplyAll(q: seq<nat>, ops: seq<Op>): seq<nat> {
    if ops == [] then q else Apply(ApplyAll(q, ops[..|ops| - 1]), ops[|ops| - 1])
  }

  ghost function Values(ns: seq<Node>): seq<nat> {
    seq(|ns|, i requires 0 <= i < |ns| => ns[i].value)
  }

  lemma ValuesSlices(ns: seq<Node>, i: nat, n: Node)
    ensures Values(ns + [n]) == Values(ns) + [n.value]
    ensures i < |ns| ==> Values(ns[..i] + ns[i + 1..]) == Values(ns)[..i] + Values(ns)[i + 1..]
    ensures ns != [] ==> Values(ns[1..]) == Values(ns)[1..] && Values(ns[..|ns| - 1]) == Values(ns)[..|ns| - 1]
  {
  }

  /** One operation on the linked structure is one operation on the sequence. */
  method Perform(q: Queue, op: Op)
    requires q.Valid()
    modifies q, q.nodes
    ensures q.Valid() && Values(q.nodes) == Apply(Values(old(q.nodes)), op)
    ensures forall j :: 0 <= j < |q.nodes| ==> q.nodes[j] in old(q.nodes) || fresh(q.nodes[j])
  {
    match op
    case PushOp(v) =>
      var item := q.PushNew(v);
      ValuesSlices(old(q.nodes), 0, item);
    case ShiftOp =>
      var item, left := q.Shift();
      if item != null {
        ValuesSlices(old(q.nodes), 0, item);
      }
    case PopOp =>
      var item, left := q.Pop();
      if item != null {
        ValuesSlices(old(q.nodes), 0, item);
      }
    case RemoveOp(i) =>
      var item := q.Find(i);
      var left := q.Remove(item, i);
      if item != null {
        ValuesSlices(old(q.nodes), i, item);
      }
  }

  /** Any run of push, shift, pop and removal of members keeps the queue a faithful sequence. */
  method RunQueue(ops: seq<Op>) returns (q: Queue)
    ensures fresh(q) && q.Valid() && Values(q.nodes) == ApplyAll([], ops) && q.size == |ApplyAll([], ops)|
  {
    q := new Queue();
    var i := 0;
    while i < |ops|
      invariant i <= |ops| && fresh(q) && q.Valid()
      invariant forall j :: 0 <= j < |q.nodes| ==> fresh(q.nodes[j])
      invariant Values(q.nodes) == ApplyAll([], ops[..i])
    {
      Perform(q, ops[i]);
      assert ops[..i + 1][..i] == ops[..i];
      i := i + 1;
    }
    assert ops[..i] == ops;
    assert |Values(q.nodes)| == |q.nodes|;
  }
}
