/**
 Connections: zend objects on their threads, the reference-counted thread-safe objects they
 share, the registry of live objects, and each thread's resolve table.
 Addresses are numbers that are not used twice.
 */
module Registry {
  import opened Wrappers

  type Address = nat
  type ThreadId = nat
  /** struct _pthreads_zend_object_t: `ts` is the shared object, `original` the object it was connected to. */
  datatype Zend = Zend(ts: Address, owner: ThreadId, original: Option<Address>)

  datatype Registry = Registry(
    objects: map<Address, Zend>,                    // zend objects not yet freed
    registered: set<Address>,                       // PTHREADS_G(objects)
    refcount: map<Address, nat>,                    // allocated thread-safe objects
    resolve: map<(ThreadId, Address), Address>,     // PTHREADS_ZG(resolve) of every thread
    dying: set<Address>,                            // between the two halves of pthreads_base_free
    next: Address)

  const EMPTY := Registry(map[], {}, map[], map[], {}, 0)

  // ---- Operations ---------------------------------------------------------------------

  /** Constructor: a zend object that owns a new thread-safe object. */
  function New(r: Registry, th: ThreadId): Registry {
    r.(objects := r.objects[r.next := Zend(r.next, th, None)], registered := r.registered + {r.next},
       refcount := r.refcount[r.next := 1], next := r.next + 1)
  }

  function Release(rc: map<Address, nat>, ts: Address): map<Address, nat>
    requires ts in rc && rc[ts] > 0
  {
    if rc[ts] == 1 then rc - {ts} else rc[ts := rc[ts] - 1]
  }

  /** The object that a connection goes back to: what it was connected to, or itself. */
  function OriginalOf(r: Registry, source: Address): Address
    requires source in r.objects
  {
    if r.objects[source].original.Some? then r.objects[source].original.value else source
  }

  /** _pthreads_connect_nolock */
  function Connect(r: Registry, source: Address, destination: Address): Registry
    requires source in r.objects && destination in r.objects
    requires r.objects[destination].ts in r.refcount && r.refcount[r.objects[destination].ts] > 0
  {
    var s, d := r.objects[source], r.objects[destination];
    var rc := Release(r.refcount, d.ts);
    if s.ts !in rc then r
    else
      r.(refcount := rc[s.ts := rc[s.ts] + 1],
         objects := r.objects[destination :=
           Zend(s.ts, d.owner, Some(OriginalOf(r, source)))])
  }

  datatype Op =
    | Alloc(th: ThreadId)
    | Resolve(th: ThreadId, address: Address)   // pthreads_globals_object_connect
    | Attach(th: ThreadId, source: Address)     // a new object connected by pthreads_routine
    | FreeBegin(z: Address)                     // pthreads_base_free up to the global lock
    | FreeEnd(z: Address)                       // the rest of it

  predicate Enabled(r: Registry, op: Op) {
    match op
    case Alloc(_) => true
    // a thread that is freeing an object does nothing else meanwhile
    case Resolve(th, address) => address in r.dying && address in r.objects ==> r.objects[address].owner != th
    case Attach(_, source) => source in r.objects
    case FreeBegin(z) => z in r.objects && z !in r.dying
    case FreeEnd(z) => z in r.dying
  }

  /** A new object of thread th, connected to source. */
  function Attached(r: Registry, th: ThreadId, source: Address): Registry
    requires source in r.objects && source != r.next
  {
    Connect(New(r, th), source, r.next)
  }

  function Apply(r: Registry, op: Op): (Registry, Option<Address>)
    requires Inv(r) && Enabled(r, op)
  {
    match op
    case Alloc(th) => (New(r, th), Some(r.next))
    case Resolve(th, address) =>
      if address !in r.registered then (r, None)
      else if r.objects[address].owner == th then (r, Some(address))
      else if (th, r.objects[address].ts) in r.resolve then (r, Some(r.resolve[(th, r.objects[address].ts)]))
      else
        var c := Attached(r, th, address);
        (c.(resolve := c.resolve[(th, r.objects[address].ts) := r.next]), Some(r.next))
    case Attach(th, source) => (Attached(r, th, source), Some(r.next))
    case FreeBegin(z) =>
      var key := (r.objects[z].owner, r.objects[z].ts);
      (r.(dying := r.dying + {z},
          resolve := if key in r.resolve && r.resolve[key] == z then r.resolve - {key} else r.resolve), None)
    case FreeEnd(z) =>
      (r.(refcount := Release(r.refcount, r.objects[z].ts), registered := r.registered - {z},
          objects := r.objects - {z}, dying := r.dying - {z}), None)
  }

  // ---- The invariant --------------------------------------------------------------------

  /** The live connections to a shared object. */
  function Connections(r: Registry, ts: Address): set<Address> {
    set z | z in r.objects && r.objects[z].ts == ts
  }

  predicate Counted(r: Registry) {
    && (forall z :: z in r.objects ==> r.objects[z].ts in r.refcount)
    && (forall ts :: ts in r.refcount ==> CountedAt(r, ts))
  }

  /** The count of an allocated object is the number of live connections to it, and positive. */
  predicate CountedAt(r: Registry, ts: Address)
    requires ts in r.refcount
  {
    r.refcount[ts] == |Connections(r, ts)| && r.refcount[ts] > 0
  }

  /** Originals are not connections themselves, and share the same object. */
  predicate ShallowAt(r: Registry, z: Address)
    requires z in r.objects
  {
    var o := r.objects[z].original;
    o.Some? ==>
      && o.value < r.next && o.value != z
      && (o.value in r.objects ==> r.objects[o.value].original == None && r.objects[o.value].ts == r.objects[z].ts)
  }

  predicate Resolved(r: Registry, th: ThreadId, ts: Address)
    requires (th, ts) in r.resolve
  {
    var z := r.resolve[(th, ts)];
    z in r.objects && z !in r.dying && r.objects[z].owner == th && r.objects[z].ts == ts
  }

  ghost predicate Inv(r: Registry) {
    && r.registered == r.objects.Keys
    && r.dying <= r.objects.Keys
    && (forall z :: z in r.objects ==> z < r.next)
    && (forall ts :: ts in r.refcount ==> ts < r.next)
    && Counted(r)
    && (forall z :: z in r.objects ==> ShallowAt(r, z))
    && (forall th, ts :: (th, ts) in r.resolve ==> Resolved(r, th, ts))
  }

  // ---- Preservation -----------------------------------------------------------------------

  lemma SameCount(r: Registry, r': Registry, ts: Address)
    requires ts in r.refcount && ts in r'.refcount && r'.refcount[ts] == r.refcount[ts] && CountedAt(r, ts)
    requires forall z :: z in Connections(r, ts) <==> z in Connections(r', ts)
    ensures CountedAt(r', ts)
  {
    assert Connections(r, ts) == Connections(r', ts);
  }

  lemma NewCounted(r: Registry, th: ThreadId)
    requires Counted(r) && r.next !in r.refcount && r.next !in r.objects
    ensures Counted(New(r, th))
  {
    var n := New(r, th);
    assert Connections(n, r.next) == {r.next};
    assert CountedAt(n, r.next);
    forall ts | ts in r.refcount
      ensures CountedAt(n, ts)
    {
      assert CountedAt(r, ts);
      NewConnections(r, th, ts);
      SameCount(r, n, ts);
    }
  }

  lemma NewConnections(r: Registry, th: ThreadId, ts: Address)
    requires ts != r.next && r.next !in r.objects
    ensures Connections(New(r, th), ts) == Connections(r, ts)
  {
  }

  lemma NewInv(r: Registry, th: ThreadId)
    requires Inv(r)
    ensures Inv(New(r, th))
  {
    NewCounted(r, th);
    NewShallow(r, th);
    forall t, ts | (t, ts) in New(r, th).resolve
      ensures Resolved(New(r, th), t, ts)
    {
      assert Resolved(r, t, ts);
    }
  }

  lemma NewShallow(r: Registry, th: ThreadId)
    requires Inv(r)
    ensures forall z :: z in New(r, th).objects ==> ShallowAt(New(r, th), z)
  {
    var n := New(r, th);
    forall z | z in n.objects
      ensures ShallowAt(n, z)
    {
      assert z != r.next ==> ShallowAt(r, z);
    }
  }

  /** A destination that nobody else knows: the only connection to its own object. */
  ghost predicate Fresh(r: Registry, d: Address) {
    && d in r.objects && d !in r.dying
    && r.objects[d].original == None
    && Connections(r, r.objects[d].ts) == {d}
    && (forall z :: z in r.objects ==> r.objects[z].original != Some(d))
    && (forall th, ts :: (th, ts) in r.resolve ==> r.resolve[(th, ts)] != d)
  }

  /** c is r after its fresh object d was connected to s: what happened, field by field. */
  predicate Connected(r: Registry, s: Address, d: Address, c: Registry)
    requires s in r.objects && d in r.objects
  {
    var own, ts := r.objects[d].ts, r.objects[s].ts;
    && own != ts && own in r.refcount && ts in r.refcount && r.refcount[own] == 1
    && c.refcount == (r.refcount - {own})[ts := r.refcount[ts] + 1]
    && c.objects == r.objects[d := Zend(ts, r.objects[d].owner, Some(OriginalOf(r, s)))]
    && c.resolve == r.resolve && c.dying == r.dying && c.registered == r.registered && c.next == r.next
  }

  lemma ConnectShape(r: Registry, s: Address, d: Address)
    requires Inv(r) && Fresh(r, d) && s in r.objects && s != d
    ensures Connected(r, s, d, Connect(r, s, d))
  {
    var own := r.objects[d].ts;
    assert s in Connections(r, r.objects[s].ts);
    assert CountedAt(r, own);
    assert |{d}| == 1;
  }

  lemma ConnectCountedAt(r: Registry, s: Address, d: Address, c: Registry, t: Address)
    requires Inv(r) && Fresh(r, d) && s in r.objects && s != d && Connected(r, s, d, c) && t in c.refcount
    ensures CountedAt(c, t)
  {
    assert CountedAt(r, t);
    if t == r.objects[s].ts {
      assert Connections(c, t) == Connections(r, t) + {d};
    } else {
      SameCount(r, c, t);
    }
  }

  lemma ConnectCounted(r: Registry, s: Address, d: Address, c: Registry)
    requires Inv(r) && Fresh(r, d) && s in r.objects && s != d && Connected(r, s, d, c)
    ensures Counted(c)
  {
    forall t | t in c.refcount
      ensures CountedAt(c, t)
    {
      ConnectCountedAt(r, s, d, c, t);
    }
    forall z | z in c.objects
      ensures c.objects[z].ts in c.refcount
    {
      assert z in Connections(r, r.objects[z].ts);
    }
  }

  lemma ConnectShallow(r: Registry, s: Address, d: Address, c: Registry)
    requires Inv(r) && Fresh(r, d) && s in r.objects && s != d && Connected(r, s, d, c)
    ensures forall z :: z in c.objects ==> ShallowAt(c, z)
  {
    forall z | z in c.objects
      ensures ShallowAt(c, z)
    {
      assert ShallowAt(r, z) && ShallowAt(r, s);
      assert r.objects[z].original != Some(d) && r.objects[s].original != Some(d);
    }
  }

  lemma ConnectResolved(r: Registry, s: Address, d: Address, c: Registry)
    requires Inv(r) && Fresh(r, d) && s in r.objects && s != d && Connected(r, s, d, c)
    ensures forall t, ts :: (t, ts) in c.resolve ==> Resolved(c, t, ts)
  {
    forall t, ts | (t, ts) in c.resolve
      ensures Resolved(c, t, ts)
    {
      assert Resolved(r, t, ts);
    }
  }

  lemma ConnectInv(r: Registry, s: Address, d: Address, c: Registry)
    requires Inv(r) && Fresh(r, d) && s in r.objects && s != d && Connected(r, s, d, c)
    ensures Inv(c)
  {
    ConnectCounted(r, s, d, c);
    ConnectShallow(r, s, d, c);
    ConnectResolved(r, s, d, c);
  }

  lemma AttachedInv(r: Registry, th: ThreadId, s: Address)
    requires Inv(r) && s in r.objects
    ensures var c := Attached(r, th, s);
            && Inv(c) && r.next in c.objects && c.objects[r.next].ts == r.objects[s].ts && c.objects[r.next].owner == th
            && c.resolve == r.resolve && c.dying == r.dying
            && forall z :: z in r.objects ==> z in c.objects && c.objects[z] == r.objects[z]
  {
    NewInv(r, th);
    NewIsFresh(r, th);
    ConnectShape(New(r, th), s, r.next);
    ConnectInv(New(r, th), s, r.next, Attached(r, th, s));
    AttachedFields(r, th, s, Attached(r, th, s));
  }

  lemma AttachedFields(r: Registry, th: ThreadId, s: Address, c: Registry)
    requires s in r.objects && r.next !in r.objects && Connected(New(r, th), s, r.next, c)
    ensures r.next in c.objects && c.objects[r.next].ts == r.objects[s].ts && c.objects[r.next].owner == th
    ensures c.resolve == r.resolve && c.dying == r.dying
    ensures forall z :: z in r.objects ==> z in c.objects && c.objects[z] == r.objects[z]
  {
  }

  lemma NewIsFresh(r: Registry, th: ThreadId)
    requires Inv(r)
    ensures Fresh(New(r, th), r.next)
  {
    var n := New(r, th);
    assert Connections(n, r.next) == {r.next};
    forall z | z in n.objects
      ensures n.objects[z].original != Some(r.next)
    {
      assert z != r.next ==> ShallowAt(r, z);
    }
    forall t, ts | (t, ts) in n.resolve
      ensures n.resolve[(t, ts)] != r.next
    {
      assert Resolved(r, t, ts);
    }
  }

  lemma FreeEndInv(r: Registry, z: Address)
    requires Inv(r) && z in r.dying
    ensures Inv(Apply(r, FreeEnd(z)).0)
  {
    var f := Apply(r, FreeEnd(z)).0;
    var ts := r.objects[z].ts;
    FreeEndCounted(r, z);
    forall y | y in f.objects
      ensures ShallowAt(f, y)
    {
      assert ShallowAt(r, y);
    }
    forall t, s | (t, s) in f.resolve
      ensures Resolved(f, t, s)
    {
      assert Resolved(r, t, s);
    }
  }

  lemma FreeEndCounted(r: Registry, z: Address)
    requires Inv(r) && z in r.dying
    ensures Counted(Apply(r, FreeEnd(z)).0)
  {
    var f := Apply(r, FreeEnd(z)).0;
    var ts := r.objects[z].ts;
    assert CountedAt(r, ts);
    assert z in Connections(r, ts) && Connections(f, ts) == Connections(r, ts) - {z};
    forall t | t in f.refcount
      ensures CountedAt(f, t)
    {
      assert CountedAt(r, t);
      if t != ts {
        SameCount(r, f, t);
      }
    }
    forall y | y in f.objects
      ensures f.objects[y].ts in f.refcount
    {
      if f.objects[y].ts == ts {
        TwoMembers(Connections(r, ts), y, z);
      }
    }
  }

  lemma TwoMembers(s: set<Address>, y: Address, z: Address)
    requires y in s && z in s && y != z
    ensures |s| > 1
  {
    assert {y, z} <= s;
    assert s == {y, z} + (s - {y, z});
    assert |s| == |{y, z}| + |s - {y, z}|;
  }

  lemma FreeBeginInv(r: Registry, z: Address)
    requires Inv(r) && z in r.objects && z !in r.dying
    ensures Inv(Apply(r, FreeBegin(z)).0)
  {
    var f := Apply(r, FreeBegin(z)).0;
    SameObjectsCounted(r, f);
    forall y | y in f.objects
      ensures ShallowAt(f, y)
    {
      assert ShallowAt(r, y);
    }
    forall t, s | (t, s) in f.resolve
      ensures Resolved(f, t, s)
    {
      assert Resolved(r, t, s);
    }
  }

  lemma StepInv(r: Registry, op: Op)
    requires Inv(r) && Enabled(r, op)
    ensures Inv(Apply(r, op).0)
  {
    match op
    case Alloc(th) => NewInv(r, th);
    case Attach(th, s) => AttachedInv(r, th, s);
    case FreeBegin(z) => FreeBeginInv(r, z);
    case FreeEnd(z) => FreeEndInv(r, z);
    case Resolve(th, address) =>
      if address in r.registered && r.objects[address].owner != th && (th, r.objects[address].ts) !in r.resolve {
        AttachedInv(r, th, address);
        ResolveInv(r, th, address);
      }
  }

  lemma SameObjectsCounted(r: Registry, f: Registry)
    requires Counted(r) && f.objects == r.objects && f.refcount == r.refcount
    ensures Counted(f)
  {
    forall ts | ts in f.refcount
      ensures CountedAt(f, ts)
    {
      assert CountedAt(r, ts);
      SameCount(r, f, ts);
    }
  }

  lemma ResolveInv(r: Registry, th: ThreadId, address: Address)
    requires Inv(r) && address in r.objects && Inv(Attached(r, th, address))
    requires var c := Attached(r, th, address);
             && r.next in c.objects && c.objects[r.next].ts == r.objects[address].ts
             && c.objects[r.next].owner == th && c.dying == r.dying
    ensures var c := Attached(r, th, address);
            Inv(c.(resolve := c.resolve[(th, r.objects[address].ts) := r.next]))
  {
    var c := Attached(r, th, address);
    var f := c.(resolve := c.resolve[(th, r.objects[address].ts) := r.next]);
    EntryAddedInv(c, th, r.objects[address].ts, r.next);
  }

  lemma EntryAddedInv(c: Registry, th: ThreadId, ts: Address, z: Address)
    requires Inv(c) && z in c.objects && c.objects[z].ts == ts && c.objects[z].owner == th && z !in c.dying
    ensures Inv(c.(resolve := c.resolve[(th, ts) := z]))
  {
    var f := c.(resolve := c.resolve[(th, ts) := z]);
    SameObjectsCounted(c, f);
    forall y | y in f.objects
      ensures ShallowAt(f, y)
    {
      assert ShallowAt(c, y);
    }
    forall t, s | (t, s) in f.resolve
      ensures Resolved(f, t, s)
    {
      if (t, s) != (th, ts) {
        assert Resolved(c, t, s);
      }
    }
  }

  // ---- Runs -----------------------------------------------------------------------------------

  ghost predicate Run(rs: seq<Registry>, ops: seq<Op>) {
    && |rs| == |ops| + 1
    && forall i :: 0 <= i < |ops| ==> RunStep(rs[i], ops[i], rs[i + 1])
  }

  ghost predicate RunStep(r: Registry, op: Op, r': Registry) {
    Enabled(r, op) && (Inv(r) ==> r' == Apply(r, op).0)
  }

  lemma EmptyInv()
    ensures Inv(EMPTY)
  {
  }

  /**
   In every state of every run: a shared object's count is the number of live connections to
   it, it exists exactly while there is one, originals are one level deep, and every resolve
   entry names a live connection of that thread to that object.
   */
  lemma {:induction false} RunAccurate(rs: seq<Registry>, ops: seq<Op>, i: nat)
    requires Run(rs, ops) && Inv(rs[0]) && i < |rs|
    ensures Inv(rs[i])
    ensures forall ts :: ts in rs[i].refcount <==> Connections(rs[i], ts) != {}
    ensures forall ts :: ts in rs[i].refcount ==> rs[i].refcount[ts] == |Connections(rs[i], ts)|
    decreases i
  {
    if i > 0 {
      RunAccurate(rs, ops, i - 1);
      assert RunStep(rs[i - 1], ops[i - 1], rs[i - 1 + 1]);
      StepInv(rs[i - 1], ops[i - 1]);
    }
    var r := rs[i];
    forall ts
      ensures ts in r.refcount <==> Connections(r, ts) != {}
    {
      assert forall z :: z in Connections(r, ts) ==> ts in r.refcount;
      assert ts in r.refcount ==> CountedAt(r, ts);
    }
    assert forall ts :: ts in r.refcount ==> CountedAt(r, ts);
  }

  /** An object is freed in the very step in which its last connection goes, and in no other. */
  lemma FreedWithLastConnection(r: Registry, op: Op, ts: Address)
    requires Inv(r) && Enabled(r, op) && ts in r.refcount
    ensures ts !in Apply(r, op).0.refcount <==> op.FreeEnd? && Connections(r, ts) == {op.z}
  {
    StepInv(r, op);
    match op
    case Alloc(th) =>
    case FreeBegin(z) =>
    case FreeEnd(z) =>
      if r.objects[z].ts == ts {
        assert z in Connections(r, ts);
        if |Connections(r, ts)| == 1 {
          assert |Connections(r, ts) - {z}| == 0;
        }
      } else {
        assert z !in Connections(r, ts);
      }
    case Attach(th, s) => AttachedKeeps(r, th, s, ts);
    case Resolve(th, address) =>
      if address in r.objects {
        AttachedKeeps(r, th, address, ts);
      }
  }

  lemma AttachedKeeps(r: Registry, th: ThreadId, s: Address, ts: Address)
    requires Inv(r) && s in r.objects && ts in r.refcount
    ensures ts in Attached(r, th, s).refcount
  {
    AttachedInv(r, th, s);
    var c := Attached(r, th, s);
    assert Connections(r, ts) != {};
    var z :| z in Connections(r, ts);
    assert z in c.objects && c.objects[z] == r.objects[z];
  }

  /** The effect of a step on an object that it does not free. */
  lemma StepKeeps(r: Registry, op: Op, z: Address)
    requires Inv(r) && Enabled(r, op) && z in r.objects && op != FreeEnd(z)
    ensures z in Apply(r, op).0.objects && Apply(r, op).0.objects[z] == r.objects[z]
  {
    match op
    case Attach(th, s) => AttachedInv(r, th, s);
    case Resolve(th, address) =>
      if address in r.objects {
        AttachedInv(r, th, address);
      }
    case _ =>
  }

  /** Addresses are given out in order, so an address that was used up is not used again. */
  lemma StepAdds(r: Registry, op: Op)
    requires Inv(r) && Enabled(r, op)
    ensures r.next <= Apply(r, op).0.next
    ensures forall z :: z in Apply(r, op).0.objects && z < r.next ==> z in r.objects
  {
    match op
    case Attach(th, s) => ConnectShapeOf(r, th, s);
    case Resolve(th, address) =>
      if address in r.objects {
        ConnectShapeOf(r, th, address);
      }
    case _ =>
  }

  lemma ConnectShapeOf(r: Registry, th: ThreadId, s: Address)
    requires Inv(r) && s in r.objects
    ensures Attached(r, th, s).next == r.next + 1
    ensures forall z :: z in Attached(r, th, s).objects ==> z in r.objects || z == r.next
  {
    NewInv(r, th);
    NewIsFresh(r, th);
    ConnectShape(New(r, th), s, r.next);
  }

  /** Only beginning to free an object makes it a dying one. */
  lemma StepDying(r: Registry, op: Op)
    requires Inv(r) && Enabled(r, op)
    ensures Apply(r, op).0.dying <= r.dying + if op.FreeBegin? then {op.z} else {}
  {
    match op
    case Attach(th, s) => AttachedInv(r, th, s);
    case Resolve(th, address) =>
      if address in r.objects {
        AttachedInv(r, th, address);
      }
    case _ =>
  }

  /**
   Whatever other threads allocate, connect and free: as long as a connection is not freed
   itself, the shared object behind it stays allocated with a positive count.
   */
  lemma {:induction false} ConnectionKeepsAlive(rs: seq<Registry>, ops: seq<Op>, z: Address, i: nat)
    requires Run(rs, ops) && Inv(rs[0]) && z in rs[0].objects && i < |rs|
    requires forall j :: 0 <= j < i ==> ops[j] != FreeEnd(z)
    ensures var r := rs[i];
            && z in r.objects && r.objects[z] == rs[0].objects[z]
            && r.objects[z].ts in r.refcount && r.refcount[r.objects[z].ts] > 0
    decreases i
  {
    RunAccurate(rs, ops, i);
    if i > 0 {
      ConnectionKeepsAlive(rs, ops, z, i - 1);
      RunAccurate(rs, ops, i - 1);
      assert RunStep(rs[i - 1], ops[i - 1], rs[i - 1 + 1]);
      StepKeeps(rs[i - 1], ops[i - 1], z);
    }
    assert z in Connections(rs[i], rs[i].objects[z].ts);
  }

  /** Resolving a live object yields a live connection of the asking thread to the same shared object. */
  lemma ResolveConnects(r: Registry, th: ThreadId, address: Address)
    requires Inv(r) && Enabled(r, Resolve(th, address))
    ensures var (r', z) := Apply(r, Resolve(th, address));
            && (z.Some? <==> address in r.objects)
            && (z.Some? ==>
                  && z.value in r'.objects && z.value !in r'.dying
                  && r'.objects[z.value].owner == th
                  && r'.objects[z.value].ts == r.objects[address].ts)
  {
    if address in r.objects {
      AttachedInv(r, th, address);
      var key := (th, r.objects[address].ts);
      if key in r.resolve {
        assert Resolved(r, th, r.objects[address].ts);
      }
      assert r.next !in r.dying;
    }
  }

  // ---- What resolving does, exactly --------------------------------------------------------------

  /** A registered address of another thread, whose shared object this thread has no entry for. */
  predicate Unknown(r: Registry, th: ThreadId, address: Address) {
    address in r.objects && r.objects[address].owner != th && (th, r.objects[address].ts) !in r.resolve
  }

  /**
   Resolving an address that was freed gives nothing; the owner gets the object itself; a thread that
   has an entry for the shared object gets the connection there.  None of these changes anything.
   Only otherwise is a connection made: it is new, it belongs to the thread, it goes back to the
   object that the address goes back to, it is counted, registered and entered, and that is all.
   */
  lemma ResolveExact(r: Registry, th: ThreadId, address: Address)
    requires Inv(r) && Enabled(r, Resolve(th, address))
    ensures var (r', z) := Apply(r, Resolve(th, address));
            && (address !in r.objects ==> z == None && r' == r)
            && (address in r.objects && r.objects[address].owner == th ==> z == Some(address) && r' == r)
            && (address in r.objects && r.objects[address].owner != th && !Unknown(r, th, address) ==>
                  z == Some(r.resolve[(th, r.objects[address].ts)]) && r' == r)
            && (Unknown(r, th, address) ==> z == Some(r.next) && Joined(r, th, address, r'))
  {
    if Unknown(r, th, address) {
      NewInv(r, th);
      NewIsFresh(r, th);
      ConnectShape(New(r, th), address, r.next);
      JoinedShape(r, th, address, Attached(r, th, address));
    }
  }

  /** r' has one more connection of thread th, to the object at `address`, and its resolve entry. */
  predicate Joined(r: Registry, th: ThreadId, address: Address, r': Registry)
    requires address in r.objects
  {
    var a := r.objects[address];
    && r.next !in r.objects && a.ts in r.refcount
    && r'.objects == r.objects[r.next := Zend(a.ts, th, Some(if a.original.Some? then a.original.value else address))]
    && r'.registered == r.registered + {r.next}
    && r'.refcount == r.refcount[a.ts := r.refcount[a.ts] + 1]
    && r'.resolve == r.resolve[(th, a.ts) := r.next]
    && r'.dying == r.dying && r'.next == r.next + 1
  }

  lemma JoinedShape(r: Registry, th: ThreadId, address: Address, c: Registry)
    requires Inv(r) && address in r.objects && Connected(New(r, th), address, r.next, c)
    ensures Joined(r, th, address, c.(resolve := c.resolve[(th, r.objects[address].ts) := r.next]))
  {
    var ts := r.objects[address].ts;
    assert r.next !in r.refcount && r.next != ts;
    assert (New(r, th).refcount - {r.next}) == r.refcount;
  }

  /** An entry stays until the connection that it names begins to be freed. */
  lemma EntryStays(r: Registry, op: Op, th: ThreadId, ts: Address)
    requires Inv(r) && Enabled(r, op) && (th, ts) in r.resolve && op != FreeBegin(r.resolve[(th, ts)])
    ensures (th, ts) in Apply(r, op).0.resolve && Apply(r, op).0.resolve[(th, ts)] == r.resolve[(th, ts)]
  {
    match op
    case Attach(_, s) => AttachedInv(r, op.th, s);
    case Resolve(_, address) => ResolveExact(r, op.th, address);
    case _ =>
  }

  lemma {:induction false} EntryLasts(rs: seq<Registry>, ops: seq<Op>, i: nat, j: nat, th: ThreadId, ts: Address)
    requires Run(rs, ops) && Inv(rs[0]) && i <= j < |rs| && (th, ts) in rs[i].resolve
    requires forall k :: i <= k < j ==> ops[k] != FreeBegin(rs[i].resolve[(th, ts)])
    ensures (th, ts) in rs[j].resolve && rs[j].resolve[(th, ts)] == rs[i].resolve[(th, ts)]
    decreases j
  {
    if i < j {
      EntryLasts(rs, ops, i, j - 1, th, ts);
      RunAccurate(rs, ops, j - 1);
      assert RunStep(rs[j - 1], ops[j - 1], rs[j - 1 + 1]);
      EntryStays(rs[j - 1], ops[j - 1], th, ts);
    }
  }

  /**
   Reuse: whatever happens in between, a thread that resolves two addresses of one shared object,
   neither being its own, gets the same connection, unless that began to be freed meanwhile.
   */
  lemma ResolvedTwice(rs: seq<Registry>, ops: seq<Op>, i: nat, j: nat, th: ThreadId, a: Address, b: Address, z: Address)
    requires Run(rs, ops) && Inv(rs[0]) && i < j < |ops|
    requires ops[i] == Resolve(th, a) && ops[j] == Resolve(th, b)
    requires a in rs[i].objects && rs[i].objects[a].owner != th
    requires b in rs[j].objects && rs[j].objects[b].owner != th && rs[j].objects[b].ts == rs[i].objects[a].ts
    requires Inv(rs[i]) ==> Apply(rs[i], ops[i]).1 == Some(z)
    requires forall k :: i < k < j ==> ops[k] != FreeBegin(z)
    ensures Inv(rs[j]) && Enabled(rs[j], ops[j]) && Apply(rs[j], ops[j]) == (rs[j], Some(z))
  {
    RunAccurate(rs, ops, i);
    RunAccurate(rs, ops, j);
    assert RunStep(rs[i], ops[i], rs[i + 1]) && RunStep(rs[j], ops[j], rs[j + 1]);
    ResolveExact(rs[i], th, a);
    EntryLasts(rs, ops, i + 1, j, th, rs[i].objects[a].ts);
    ResolveExact(rs[j], th, b);
  }

  /** Beginning to free a connection takes away the entry that names it, and no other. */
  lemma FreeBeginExact(r: Registry, z: Address)
    requires Inv(r) && Enabled(r, FreeBegin(z))
    ensures var r' := Apply(r, FreeBegin(z)).0;
            && r' == r.(dying := r.dying + {z}, resolve := r'.resolve)
            && (forall e :: e in r'.resolve <==> (e in r.resolve && r.resolve[e] != z))
            && forall e :: e in r'.resolve ==> r'.resolve[e] == r.resolve[e]
  {
    forall e: (ThreadId, Address) | e in r.resolve && r.resolve[e] == z
      ensures e == (r.objects[z].owner, r.objects[z].ts)
    {
      assert Resolved(r, e.0, e.1);
    }
  }
}
