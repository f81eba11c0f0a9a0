/**
 Allocation, connection and destruction of objects as src/object.c and src/globals.c update
 the registry in place, each proved to be the operation that `Registry` reasons about.
 */
module RegistryObjects {
  import opened Wrappers
  import opened Registry

  class Globals {
    var objects: map<Address, Zend>
    var registered: set<Address>
    var refcount: map<Address, nat>
    var resolve: map<(ThreadId, Address), Address>
    var dying: set<Address>
    var next: Address

    constructor ()
      ensures Value() == EMPTY
    {
      objects, registered, refcount, resolve, dying, next := map[], {}, map[], map[], {}, 0;
    }

    ghost function Value(): Registry
      reads this
    {
      Registry(objects, registered, refcount, resolve, dying, next)
    }

    /** pthreads_globals_object_alloc and pthreads_base_ctor */
    method Construct(th: ThreadId) returns (z: Address)
      modifies this
      ensures z == old(next) && Value() == New(old(Value()), th)
    {
      z := next;
      registered := registered + {z};
      refcount := refcount[z := 1];
      objects := objects[z := Zend(z, th, None)];
      next := next + 1;
    }

    /**
     pthreads_globals_object_valid: an address is valid exactly while the connection there was not
     freed, and then the shared object behind it is allocated and counts its live connections.
     */
    method IsValid(address: Address) returns (valid: bool)
      requires Inv(Value())
      ensures valid <==> address in objects
      ensures valid ==>
                var ts := objects[address].ts;
                ts in refcount && refcount[ts] == |Connections(Value(), ts)| > 0
    {
      valid := address in registered;
      if valid {
        assert CountedAt(Value(), objects[address].ts);
      }
    }

    /** --ts_obj->refcount == 0, freeing the shared object if so */
    method DropReference(ts: Address)
      requires ts in refcount && refcount[ts] > 0
      modifies this`refcount
      ensures refcount == Release(old(refcount), ts)
    {
      refcount := refcount[ts := refcount[ts] - 1];
      if refcount[ts] == 0 {
        refcount := refcount - {ts};
      }
      assert refcount == Release(old(refcount), ts);
    }

    /** _pthreads_connect_nolock */
    method ConnectNolock(source: Address, destination: Address)
      requires Inv(Value()) && Fresh(Value(), destination) && source in objects && source != destination
      modifies this
      ensures Value() == Connect(old(Value()), source, destination)
    {
      ConnectShape(Value(), source, destination);
      var s, d := objects[source], objects[destination];
      DropReference(d.ts);
      refcount := refcount[s.ts := refcount[s.ts] + 1];
      var original := if s.original.Some? then s.original.value else source;
      objects := objects[destination := Zend(s.ts, d.owner, Some(original))];
    }

    /** A new object of thread th connected to source. */
    method AttachNew(th: ThreadId, source: Address) returns (z: Address)
      requires Inv(Value()) && source in objects
      modifies this
      ensures z == old(next) && Value() == Attached(old(Value()), th, source)
    {
      NewInv(Value(), th);
      NewIsFresh(Value(), th);
      z := Construct(th);
      ConnectNolock(source, z);
    }

    /** pthreads_globals_object_connect */
    method ObjectConnect(th: ThreadId, address: Address) returns (z: Option<Address>)
      requires Inv(Value()) && Enabled(Value(), Resolve(th, address))
      modifies this
      ensures (Value(), z) == Apply(old(Value()), Resolve(th, address))
      ensures Inv(Value())
    {
      StepInv(Value(), Resolve(th, address));
      var valid := IsValid(address);
      if !valid {
        return None;
      }
      var ts := objects[address].ts;
      if objects[address].owner == th {
        return Some(address);
      }
      if (th, ts) in resolve {
        return Some(resolve[(th, ts)]);
      }
      var connection := AttachNew(th, address);
      resolve := resolve[(th, ts) := connection];
      z := Some(connection);
    }

    /** pthreads_base_free, before the global lock: give up the resolve entry. */
    method FreeUnresolve(z: Address)
      requires Inv(Value()) && Enabled(Value(), FreeBegin(z))
      modifies this
      ensures Value() == Apply(old(Value()), FreeBegin(z)).0 && Inv(Value())
    {
      StepInv(Value(), FreeBegin(z));
      var key := (objects[z].owner, objects[z].ts);
      if key in resolve && resolve[key] == z {
        resolve := resolve - {key};
      }
      dying := dying + {z};
    }

    /** pthreads_base_free, under the global lock; tells whether the shared object survives. */
    method FreeLocked(z: Address) returns (survives: bool)
      requires Inv(Value()) && Enabled(Value(), FreeEnd(z))
      modifies this
      ensures Value() == Apply(old(Value()), FreeEnd(z)).0 && Inv(Value())
      ensures survives <==> exists y :: y in objects && objects[y].ts == old(objects)[z].ts
    {
      StepInv(Value(), FreeEnd(z));
      var ts := objects[z].ts;
      assert z in Connections(Value(), ts) && CountedAt(Value(), ts);
      DropReference(ts);
      survives := ts in refcount;
      registered := registered - {z};
      objects := objects - {z};
      dying := dying - {z};
      assert survives ==> CountedAt(Value(), ts);
      assert survives ==> Connections(Value(), ts) != {};
    }
  }
}
