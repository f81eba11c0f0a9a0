/**
 Agreement of the local caches with the shared table, over every interleaving.

 The counter protocol does not make every operation safe.  `Stales` says exactly which
 operations leave some cache wrong: they overwrite a cached key with a value that is not
 retained, or they replace or remove a plain string that another in-sync connection caches.
 */
module StoreCoherence {
  import opened Wrappers
  import opened OrderedTable
  import opened Store

  // ---- The invariant -------------------------------------------------------

  /** v is right for the slot: its content, or null for an object that was destroyed. */
  predicate Fits(slot: Slot, gone: set<ZObject>, v: Value) {
    || (Retained(v) && ContentOf(v) == SlotContent(slot))
    || (slot.ThreadedSlot? && slot.z in gone && v == Scalar(Null))
  }

  predicate AgreesAt(t: Table<Slot>, gone: set<ZObject>, k: Key, v: Value) {
    k in t.slots && Fits(t.slots[k], gone, v)
  }

  predicate Agrees(t: Table<Slot>, gone: set<ZObject>, cache: map<Key, Value>) {
    forall k :: k in cache ==> AgreesAt(t, gone, k, cache[k])
  }

  predicate ConnOk(t: Table<Slot>, gone: set<ZObject>, modcount: int, c: Conn) {
    && c.synced <= modcount
    && (!c.built ==> c.cache == map[])
    && (c.synced == modcount ==> Agrees(t, gone, Effective(c)))
  }

  ghost predicate Coherent(s: State) {
    && Valid(s.table)
    && 0 <= s.modcount
    && forall c :: c in s.conns ==> ConnOk(s.table, s.gone, s.modcount, s.conns[c])
  }

  // ---- Which operations break it -------------------------------------------

  function Lookup(t: Table<Slot>, k: Key): Option<Slot> {
    if k in t.slots then Some(t.slots[k]) else None
  }

  predicate CachedElsewhere(s: State, c: ConnId, k: Key) {
    exists d :: d in s.conns && d != c && s.conns[d].synced == s.modcount && k in Effective(s.conns[d])
  }

  /** A plain string that some other in-sync connection caches gives way to `after`. */
  predicate PlainLost(s: State, c: ConnId, k: Key, after: Option<Slot>) {
    && k in s.table.slots
    && s.table.slots[k].Plain?
    && (after.None? || SlotContent(after.value) != SlotContent(s.table.slots[k]))
    && CachedElsewhere(s, c, k)
  }

  /** None of the keys announces its change through the counter. */
  predicate Quiet(t: Table<Slot>, keys: set<Key>) {
    forall k :: k in keys ==> !CacheableAt(t, k)
  }

  /** An unretained value goes over a key that this in-sync connection caches. */
  predicate OwnStale(x: View, gone: set<ZObject>, k: Key, v: Value, slot: Slot) {
    && x.conn.synced == x.modcount
    && !Retained(v)
    && k in x.conn.cache
    && !Fits(slot, gone, x.conn.cache[k])
  }

  ghost predicate Stales(s: State, op: Op)
    requires op.c in s.conns
  {
    match op
    case Write(c, k, v) =>
      var slot := Save(s.conns[c].thread, v);
      && slot.Some?
      && (OwnStale(At(s, c), s.gone, k, v, slot.value) || PlainLost(s, c, k, slot))
    case Delete(c, k) => PlainLost(s, c, k, None)
    case Shift(c) => s.table.order != [] && PlainLost(s, c, s.table.order[0], None)
    case Pop(c) => s.table.order != [] && PlainLost(s, c, s.table.order[|s.table.order| - 1], None)
    case Chunk(c, n) =>
      var keys := KeySet(s.table.order[..ChunkSize(s.table, n)]);
      Quiet(s.table, keys) && exists k :: k in keys && PlainLost(s, c, k, None)
    case Merge(c, src, overwrite) =>
      var keys := Merged(s.table, src, overwrite);
      Quiet(s.table, keys) && exists k :: k in keys && PlainLost(s, c, k, Some(HardCopy(src.slots[k])))
    case _ => false
  }

  // ---- Small facts ---------------------------------------------------------

  lemma SyncAgrees(t: Table<Slot>, gone: set<ZObject>, thread: ThreadId, live: set<ZObject>, cache: map<Key, Value>)
    ensures Agrees(t, gone, SyncCache(t, thread, live, cache))
  {
  }

  lemma {:induction false} CreateContent(owner: ThreadId, v: Value)
    ensures Create(owner, v).Some? ==>
              var slot := Create(owner, v).value;
              Cacheable(slot) || slot.OpaqueSlot?
    ensures Create(owner, v).Some? && !Core(v).Object? ==> SlotContent(Create(owner, v).value) == ContentOf(v)
    ensures Create(owner, v).Some? && Core(v).Object? && OriginalOk(Core(v)) ==>
              SlotContent(Create(owner, v).value) == ContentOf(v)
  {
    if v.Reference? {
      CreateContent(owner, v.to);
    }
  }

  function Core(v: Value): Value {
    if v.Reference? then Core(v.to) else v
  }

  /** A connection and the object it was connected to share one thread-safe object. */
  predicate OriginalOk(v: Value) {
    v.Object? && v.original.Some? ==> v.original.value.shared == v.z.shared
  }

  lemma SaveContent(owner: ThreadId, v: Value)
    requires OriginalOk(Core(v))
    ensures Save(owner, v).Some? ==> SlotContent(Save(owner, v).value) == ContentOf(v)
  {
    CreateContent(owner, v);
  }

  lemma RestoreContent(s: Slot, t: ThreadId, live: set<ZObject>, v: Value)
    requires Restores(s, t, live, v)
    ensures ContentOf(v) == SlotContent(s) || (s.ThreadedSlot? && s.z !in live && v == Scalar(Null))
    ensures Retained(v) ==> ContentOf(v) == SlotContent(s)
  {
  }

  // ---- The effect of a locked section on the other connections --------------

  ghost predicate OthersOk(s: State, c: ConnId, t: Table<Slot>, modcount: int) {
    forall d :: d in s.conns && d != c ==> ConnOk(t, s.gone, modcount, s.conns[d])
  }

  /** The table changes at `keys` only, and the counter moves iff one of them was cacheable. */
  lemma OthersExact(s: State, c: ConnId, t: Table<Slot>, modcount: int, keys: set<Key>)
    requires Coherent(s)
    requires forall k :: k !in keys ==> Lookup(t, k) == Lookup(s.table, k)
    requires modcount == s.modcount + if Quiet(s.table, keys) then 0 else 1
    ensures OthersOk(s, c, t, modcount)
        <==> !(Quiet(s.table, keys) && exists k :: k in keys && PlainLost(s, c, k, Lookup(t, k)))
  {
    if Quiet(s.table, keys) {
      if k :| k in keys && PlainLost(s, c, k, Lookup(t, k)) {
        var d :| d in s.conns && d != c && s.conns[d].synced == s.modcount && k in Effective(s.conns[d]);
        assert AgreesAt(s.table, s.gone, k, Effective(s.conns[d])[k]);
        assert !AgreesAt(t, s.gone, k, Effective(s.conns[d])[k]);
        assert !ConnOk(t, s.gone, modcount, s.conns[d]);
      } else {
        forall d | d in s.conns && d != c
          ensures ConnOk(t, s.gone, modcount, s.conns[d])
        {
          QuietKeeps(s, c, d, t, keys);
        }
      }
    }
  }

  lemma QuietKeeps(s: State, c: ConnId, d: ConnId, t: Table<Slot>, keys: set<Key>)
    requires Coherent(s) && d in s.conns && d != c
    requires forall k :: k !in keys ==> Lookup(t, k) == Lookup(s.table, k)
    requires Quiet(s.table, keys)
    requires forall k :: k in keys ==> !PlainLost(s, c, k, Lookup(t, k))
    ensures ConnOk(t, s.gone, s.modcount, s.conns[d])
  {
    var conn := s.conns[d];
    if conn.synced == s.modcount {
      forall k | k in Effective(conn)
        ensures AgreesAt(t, s.gone, k, Effective(conn)[k])
      {
        assert AgreesAt(s.table, s.gone, k, Effective(conn)[k]);
        assert Lookup(s.table, k) == Some(s.table.slots[k]);
        if k in keys {
          assert s.table.slots[k].Plain?;
          assert CachedElsewhere(s, c, k);
          assert !PlainLost(s, c, k, Lookup(t, k));
        } else {
          assert Lookup(t, k) == Some(s.table.slots[k]);
        }
      }
    }
  }

  lemma InstallCoherent(s: State, c: ConnId, x: View)
    requires c in s.conns
    ensures Coherent(Install(s, c, x))
        <==> (&& Valid(x.table) && 0 <= x.modcount
              && ConnOk(x.table, s.gone, x.modcount, x.conn) && OthersOk(s, c, x.table, x.modcount))
  {
    var s' := Install(s, c, x);
    if Coherent(s') {
      assert ConnOk(s'.table, s.gone, s'.modcount, s'.conns[c]);
      forall d | d in s.conns && d != c
        ensures ConnOk(x.table, s.gone, x.modcount, s.conns[d])
      {
        assert s'.conns[d] == s.conns[d];
      }
    }
  }

  // ---- One operation at a time ----------------------------------------------

  lemma WriteOwn(x: View, gone: set<ZObject>, k: Key, v: Value, slot: Slot, live: set<ZObject>)
    requires ConnOk(x.table, gone, x.modcount, x.conn) && x.conn.pending.Idle?
    requires Retained(v) ==> SlotContent(slot) == ContentOf(v)
    ensures var y := WriteSection(x, k, v, slot, live);
            ConnOk(y.table, gone, y.modcount, y.conn) <==> !OwnStale(x, gone, k, v, slot)
  {
    var y := WriteSection(x, k, v, slot, live);
    if x.conn.synced == x.modcount {
      assert y.conn.cache == x.conn.cache;
      if OwnStale(x, gone, k, v, slot) {
        assert k in Effective(y.conn) && !AgreesAt(y.table, gone, k, Effective(y.conn)[k]);
      } else {
        forall j | j in Effective(y.conn)
          ensures AgreesAt(y.table, gone, j, Effective(y.conn)[j])
        {
          if j in x.conn.cache {
            assert AgreesAt(x.table, gone, j, x.conn.cache[j]);
          }
        }
      }
    } else {
      SyncAgrees(y.table, gone, x.conn.thread, live, x.conn.cache);
    }
  }

  lemma WriteExact(s: State, c: ConnId, k: Key, v: Value, live: set<ZObject>)
    requires Coherent(s) && c in s.conns && s.conns[c].pending.Idle? && OriginalOk(Core(v))
    requires Save(s.conns[c].thread, v).Some?
    ensures var slot := Save(s.conns[c].thread, v).value;
            Coherent(Install(s, c, WriteSection(At(s, c), k, v, slot, live))) <==> !Stales(s, Write(c, k, v))
  {
    var x := At(s, c);
    var slot := Save(x.conn.thread, v).value;
    var y := WriteSection(x, k, v, slot, live);
    SaveContent(x.conn.thread, v);
    PutValid(x.table, k, slot);
    WriteOwn(x, s.gone, k, v, slot, live);
    assert Quiet(x.table, {k}) <==> !CacheableAt(x.table, k);
    OthersExact(s, c, y.table, y.modcount, {k});
    InstallCoherent(s, c, y);
    assert Lookup(y.table, k) == Some(slot);
    assert Stales(s, Write(c, k, v)) <==> OwnStale(x, s.gone, k, v, slot) || PlainLost(s, c, k, Some(slot));
  }

  lemma DeleteExact(s: State, c: ConnId, k: Key)
    requires Coherent(s) && c in s.conns && s.conns[c].pending.Idle?
    ensures Coherent(Install(s, c, DeleteSection(At(s, c), k))) <==> !Stales(s, Delete(c, k))
  {
    var x := At(s, c);
    var y := DeleteSection(x, k);
    DelValid(x.table, k);
    assert ConnOk(x.table, s.gone, x.modcount, x.conn);
    if k in x.table.slots {
      assert ConnOk(y.table, s.gone, y.modcount, y.conn);
      assert Quiet(x.table, {k}) <==> !CacheableAt(x.table, k);
      OthersExact(s, c, y.table, y.modcount, {k});
      assert Lookup(y.table, k) == None;
    } else {
      OthersExact(s, c, y.table, y.modcount, {});
    }
    InstallCoherent(s, c, y);
  }

  lemma RemoveExact(s: State, c: ConnId, rest: Table<Slot>, keys: set<Key>)
    requires Coherent(s) && c in s.conns && s.conns[c].pending.Idle?
    requires Valid(rest) && rest.slots == s.table.slots - keys && keys <= s.table.slots.Keys
    ensures Coherent(Install(s, c, RemoveSection(At(s, c), rest, keys)))
        <==> !(Quiet(s.table, keys) && exists k :: k in keys && PlainLost(s, c, k, None))
  {
    var x := At(s, c);
    var y := RemoveSection(x, rest, keys);
    assert ConnOk(x.table, s.gone, x.modcount, x.conn);
    forall j | x.conn.synced == x.modcount && j in Effective(y.conn)
      ensures AgreesAt(rest, s.gone, j, Effective(y.conn)[j])
    {
      assert AgreesAt(x.table, s.gone, j, x.conn.cache[j]);
    }
    assert ConnOk(y.table, s.gone, y.modcount, y.conn);
    OthersExact(s, c, y.table, y.modcount, keys);
    assert forall k :: k in keys ==> Lookup(y.table, k) == None;
    InstallCoherent(s, c, y);
  }

  lemma ShiftExact(s: State, c: ConnId)
    requires Coherent(s) && c in s.conns && s.conns[c].pending.Idle?
    ensures Coherent(Install(s, c, ShiftSection(At(s, c)))) <==> !Stales(s, Shift(c))
  {
    if s.table.order == [] {
      assert Install(s, c, At(s, c)) == s;
    } else {
      var k := s.table.order[0];
      DropFirstValid(s.table, 1);
      assert s.table.order[..1] == [k] && KeySet(s.table.order[..1]) == {k};
      assert k in KeySet(s.table.order);
      RemoveExact(s, c, DropFirst(s.table, 1), {k});
    }
  }

  lemma PopExact(s: State, c: ConnId)
    requires Coherent(s) && c in s.conns && s.conns[c].pending.Idle?
    ensures Coherent(Install(s, c, PopSection(At(s, c)))) <==> !Stales(s, Pop(c))
  {
    if s.table.order == [] {
      assert Install(s, c, At(s, c)) == s;
    } else {
      var k := s.table.order[|s.table.order| - 1];
      DropLastValid(s.table);
      assert k in KeySet(s.table.order);
      RemoveExact(s, c, DropLast(s.table), {k});
    }
  }

  lemma ChunkExact(s: State, c: ConnId, n: int)
    requires Coherent(s) && c in s.conns && s.conns[c].pending.Idle?
    ensures Coherent(Install(s, c, ChunkSection(At(s, c), n))) <==> !Stales(s, Chunk(c, n))
  {
    var m := ChunkSize(s.table, n);
    DropFirstValid(s.table, m);
    assert KeySet(s.table.order[..m]) <= KeySet(s.table.order);
    RemoveExact(s, c, DropFirst(s.table, m), KeySet(s.table.order[..m]));
  }

  /** A merge writes exactly the keys in `Merged`, with hard copies. */
  lemma {:induction false} MergeFromValid(dst: Table<Slot>, src: Table<Slot>, overwrite: bool, n: nat)
    requires Valid(dst) && Valid(src) && n <= |src.order|
    ensures Valid(MergeFrom(dst, src, overwrite, n))
  {
    if n > 0 {
      MergeFromValid(dst, src, overwrite, n - 1);
      var k := src.order[n - 1];
      assert k in KeySet(src.order);
      PutValid(MergeFrom(dst, src, overwrite, n - 1), k, HardCopy(src.slots[k]));
    }
  }

  lemma {:induction false} MergeFromSlot(dst: Table<Slot>, src: Table<Slot>, overwrite: bool, n: nat, k: Key)
    requires Valid(src) && n <= |src.order|
    ensures Lookup(MergeFrom(dst, src, overwrite, n), k) ==
            if k in src.order[..n] && (overwrite || k !in dst.slots) && k in src.slots
            then Some(HardCopy(src.slots[k])) else Lookup(dst, k)
  {
    if n > 0 {
      MergeFromSlot(dst, src, overwrite, n - 1, k);
      var last := src.order[n - 1];
      assert last in KeySet(src.order);
      assert src.order[..n] == src.order[..n - 1] + [last] && last !in src.order[..n - 1];
      var d := MergeFrom(dst, src, overwrite, n - 1);
      assert k in d.slots <==> Lookup(d, k).Some?;
      assert k in dst.slots <==> Lookup(dst, k).Some?;
    }
  }

  lemma MergeSlots(dst: Table<Slot>, src: Table<Slot>, overwrite: bool)
    requires Valid(dst) && Valid(src)
    ensures Valid(MergeTable(dst, src, overwrite))
    ensures forall k :: Lookup(MergeTable(dst, src, overwrite), k) ==
                        if k in Merged(dst, src, overwrite) then Some(HardCopy(src.slots[k])) else Lookup(dst, k)
  {
    MergeFromValid(dst, src, overwrite, |src.order|);
    assert src.order[..|src.order|] == src.order;
    forall k
      ensures Lookup(MergeTable(dst, src, overwrite), k) ==
              if k in Merged(dst, src, overwrite) then Some(HardCopy(src.slots[k])) else Lookup(dst, k)
    {
      MergeFromSlot(dst, src, overwrite, |src.order|, k);
      assert k in src.order <==> k in KeySet(src.order);
    }
  }

  lemma MergeExact(s: State, c: ConnId, src: Table<Slot>, overwrite: bool)
    requires Coherent(s) && c in s.conns && s.conns[c].pending.Idle? && Valid(src)
    ensures Coherent(Install(s, c, MergeSection(At(s, c), src, overwrite))) <==> !Stales(s, Merge(c, src, overwrite))
  {
    var x := At(s, c);
    var keys := Merged(x.table, src, overwrite);
    var y := MergeSection(x, src, overwrite);
    MergeSlots(x.table, src, overwrite);
    assert ConnOk(x.table, s.gone, x.modcount, x.conn);
    forall j | x.conn.synced == x.modcount && j in Effective(y.conn)
      ensures AgreesAt(y.table, s.gone, j, Effective(y.conn)[j])
    {
      assert AgreesAt(x.table, s.gone, j, x.conn.cache[j]);
      assert Lookup(y.table, j) == Lookup(x.table, j);
    }
    assert ConnOk(y.table, s.gone, y.modcount, y.conn);
    OthersExact(s, c, y.table, y.modcount, keys);
    assert forall k :: k in keys ==> Lookup(y.table, k) == Some(HardCopy(src.slots[k]));
    InstallCoherent(s, c, y);
  }

  lemma SyncOk(x: View, gone: set<ZObject>, live: set<ZObject>)
    requires ConnOk(x.table, gone, x.modcount, x.conn) && x.conn.pending.Idle?
    ensures var y := Sync(x, live);
            && ConnOk(y.table, gone, y.modcount, y.conn) && Agrees(x.table, gone, y.conn.cache)
            && y.table == x.table && y.modcount == x.modcount
  {
    SyncAgrees(x.table, gone, x.conn.thread, live, x.conn.cache);
  }

  lemma SameTableCoherent(s: State, c: ConnId, x: View)
    requires Coherent(s) && c in s.conns && x.table == s.table && x.modcount == s.modcount
    requires ConnOk(x.table, s.gone, x.modcount, x.conn)
    ensures Coherent(Install(s, c, x))
  {
    InstallCoherent(s, c, x);
  }

  lemma ReadCoherent(s: State, c: ConnId, k: Key, mode: Mode, live: set<ZObject>, out: Outcome, x': View)
    requires Coherent(s) && c in s.conns && s.conns[c].pending.Idle?
    requires ReadStep(At(s, c), k, mode, live, out, x')
    ensures Coherent(Install(s, c, x'))
  {
    var x := At(s, c);
    assert ConnOk(x.table, s.gone, x.modcount, x.conn);
    SyncOk(x, s.gone, live);
    var y := if x.conn.built then Sync(x, live) else x;
    assert ConnOk(y.table, s.gone, y.modcount, y.conn);
    if x'.conn.pending.Keep? {
      RestoreContent(x.table.slots[k], x.conn.thread, live, out.v);
      assert x'.conn.cache == y.conn.cache;
      assert forall j :: j in Effective(x'.conn) ==> AgreesAt(x.table, s.gone, j, Effective(x'.conn)[j]);
    }
    assert ConnOk(x'.table, s.gone, x'.modcount, x'.conn);
    SameTableCoherent(s, c, x');
  }

  lemma ExportCoherent(s: State, c: ConnId, live: set<ZObject>, x': View)
    requires Coherent(s) && c in s.conns && s.conns[c].pending.Idle?
    requires ExportStep(At(s, c), live, x')
    ensures Coherent(Install(s, c, x'))
  {
    var x := At(s, c);
    assert ConnOk(x.table, s.gone, x.modcount, x.conn);
    SyncOk(x, s.gone, live);
    var y := Sync(x, live);
    if x'.conn.synced == x.modcount {
      forall j | j in x'.conn.cache
        ensures AgreesAt(x.table, s.gone, j, x'.conn.cache[j])
      {
        assert j in y.conn.cache;
      }
    }
    SameTableCoherent(s, c, x');
  }

  lemma FreeCoherent(s: State, c: ConnId)
    requires Coherent(s) && c in s.conns
    ensures Coherent(State(PersistTable(s.table, s.conns[c].thread), s.modcount, s.conns - {c}, s.gone))
  {
    var t' := PersistTable(s.table, s.conns[c].thread);
    assert t'.slots.Keys == s.table.slots.Keys;
    forall d | d in s.conns && d != c
      ensures ConnOk(t', s.gone, s.modcount, s.conns[d])
    {
      assert ConnOk(s.table, s.gone, s.modcount, s.conns[d]);
      forall k | s.conns[d].synced == s.modcount && k in Effective(s.conns[d])
        ensures AgreesAt(t', s.gone, k, Effective(s.conns[d])[k])
      {
        assert AgreesAt(s.table, s.gone, k, Effective(s.conns[d])[k]);
      }
    }
  }

  lemma FinishCoherent(s: State, c: ConnId)
    requires Coherent(s) && c in s.conns
    ensures Coherent(s.(conns := s.conns[c := FinishConn(s.conns[c])]))
  {
    var conn := FinishConn(s.conns[c]);
    assert ConnOk(s.table, s.gone, s.modcount, s.conns[c]);
    assert Effective(conn) == Effective(s.conns[c]);
    if !conn.built {
      assert conn.cache == map[];
    }
    assert ConnOk(s.table, s.gone, s.modcount, conn);
  }

  // ---- Main theorems ---------------------------------------------------------

  ghost predicate Writable(op: Op) {
    op.Write? ==> OriginalOk(Core(op.v))
  }

  lemma NotedCoherent(s: State, live: set<ZObject>)
    requires Coherent(s)
    ensures Coherent(Noted(s, live))
  {
    var n := Noted(s, live);
    forall c | c in n.conns
      ensures ConnOk(n.table, n.gone, n.modcount, n.conns[c])
    {
      assert ConnOk(s.table, s.gone, s.modcount, s.conns[c]);
      forall k | s.conns[c].synced == s.modcount && k in Effective(s.conns[c])
        ensures AgreesAt(n.table, n.gone, k, Effective(s.conns[c])[k])
      {
        assert AgreesAt(s.table, s.gone, k, Effective(s.conns[c])[k]);
      }
    }
  }

  lemma FullSyncCoherent(s: State, c: ConnId, live: set<ZObject>, x': View)
    requires Coherent(s) && c in s.conns && s.conns[c].pending.Idle? && Dead(s.table, live) <= s.gone
    requires FullSyncStep(At(s, c), live, x')
    ensures Coherent(Install(s, c, x'))
  {
    var x := At(s, c);
    assert ConnOk(x.table, s.gone, x.modcount, x.conn);
    SyncOk(x, s.gone, live);
    var y := Sync(x, live);
    forall j | j in x'.conn.cache
      ensures AgreesAt(x.table, s.gone, j, x'.conn.cache[j])
    {
      if j in y.conn.cache {
        assert AgreesAt(x.table, s.gone, j, y.conn.cache[j]);
      } else {
        assert CacheableAt(x.table, j);
        RestoreContent(x.table.slots[j], x.conn.thread, live, x'.conn.cache[j]);
      }
    }
    SameTableCoherent(s, c, x');
  }

  /** The key of a threaded object that a sync leaves uncached. */
  predicate Uncached(x: View, live: set<ZObject>, k: Key) {
    k in x.table.slots && x.table.slots[k].ThreadedSlot? && k !in Sync(x, live).conn.cache
  }

  /**
   When full synchronization caches a null, exactly: for each key it has to fill, when the object
   is not registered.  So from a cache without nulls it makes one that agrees with the table, nulls
   being wrong, if and only if every object it has to fill in is registered.
   */
  lemma FullSyncNulls(x: View, live: set<ZObject>, x': View)
    requires FullSyncStep(x, live, x') && Agrees(x.table, {}, Sync(x, live).conn.cache)
    ensures forall k :: Uncached(x, live, k) ==>
              k in x'.conn.cache && (x'.conn.cache[k] == Scalar(Null) <==> x.table.slots[k].z !in live)
    ensures Agrees(x.table, {}, x'.conn.cache) <==> forall k :: Uncached(x, live, k) ==> x.table.slots[k].z in live
  {
    var y := Sync(x, live);
    forall k | Uncached(x, live, k)
      ensures k in x'.conn.cache && (x'.conn.cache[k] == Scalar(Null) <==> x.table.slots[k].z !in live)
      ensures AgreesAt(x.table, {}, k, x'.conn.cache[k]) <==> x.table.slots[k].z in live
    {
      assert CacheableAt(x.table, k);
    }
    forall k | k in x'.conn.cache && !Uncached(x, live, k)
      ensures AgreesAt(x.table, {}, k, x'.conn.cache[k])
    {
      if k in y.conn.cache {
        assert AgreesAt(x.table, {}, k, y.conn.cache[k]);
      } else {
        RestoreContent(x.table.slots[k], x.conn.thread, live, x'.conn.cache[k]);
      }
    }
  }

  // The steps by kind; `s` has already noted what is destroyed.

  lemma ReaderExact(s: State, op: Op, live: set<ZObject>, out: Outcome, s': State)
    requires Coherent(s) && op.c in s.conns && s.conns[op.c].pending.Idle? && Dead(s.table, live) <= s.gone
    requires op.Read? || op.Export? || op.FullSync? || op.Synchronize?
    requires LockedStep(s, op, live, out, s')
    ensures Coherent(s')
  {
    match op
    case Read(c, k, mode) =>
      var x' :| ReadStep(At(s, c), k, mode, live, out, x') && s' == Install(s, c, x');
      ReadCoherent(s, c, k, mode, live, out, x');
    case Export(c) =>
      var x' :| ExportStep(At(s, c), live, x') && s' == Install(s, c, x');
      ExportCoherent(s, c, live, x');
    case FullSync(c) =>
      var x' :| FullSyncStep(At(s, c), live, x') && s' == Install(s, c, x');
      FullSyncCoherent(s, c, live, x');
    case Synchronize(c) =>
      assert ConnOk(s.table, s.gone, s.modcount, s.conns[c]);
      SyncOk(At(s, c), s.gone, live);
      SameTableCoherent(s, c, Sync(At(s, c), live));
  }

  lemma RemoverExact(s: State, op: Op, live: set<ZObject>, out: Outcome, s': State)
    requires Coherent(s) && op.c in s.conns && s.conns[op.c].pending.Idle?
    requires op.Delete? || op.Shift? || op.Pop? || op.Chunk?
    requires LockedStep(s, op, live, out, s')
    ensures Coherent(s') <==> !Stales(s, op)
  {
    match op
    case Delete(c, k) => DeleteExact(s, c, k);
    case Shift(c) => ShiftExact(s, c);
    case Pop(c) => PopExact(s, c);
    case Chunk(c, n) => ChunkExact(s, c, n);
  }

  lemma WriterExact(s: State, op: Op, live: set<ZObject>, out: Outcome, s': State)
    requires Coherent(s) && op.c in s.conns && s.conns[op.c].pending.Idle? && Writable(op)
    requires op.Write? || op.Merge? || op.Free?
    requires LockedStep(s, op, live, out, s')
    ensures Coherent(s') <==> !Stales(s, op)
  {
    match op
    case Write(c, k, v) =>
      if Save(s.conns[c].thread, v).Some? {
        WriteExact(s, c, k, v, live);
      }
    case Merge(c, src, overwrite) => MergeExact(s, c, src, overwrite);
    case Free(c) => FreeCoherent(s, c);
  }

  /** One step keeps every in-sync cache right if and only if it is not a staling operation. */
  lemma StepExact(s: State, op: Op, live: set<ZObject>, out: Outcome, s': State)
    requires Coherent(s) && Next(s, op, live, out, s') && Writable(op)
    ensures op.Connect? ==> Coherent(s')
    ensures !op.Connect? ==> op.c in s.conns && (Coherent(s') <==> !Stales(Noted(s, live), op))
  {
    if op.Finish? {
      FinishCoherent(s, op.c);
    } else if !op.Connect? {
      NotedCoherent(s, live);
      var n := Noted(s, live);
      if op.Delete? || op.Shift? || op.Pop? || op.Chunk? {
        RemoverExact(n, op, live, out, s');
      } else if op.Write? || op.Merge? || op.Free? {
        WriterExact(n, op, live, out, s');
      } else {
        ReaderExact(n, op, live, out, s');
      }
    }
  }

  // ---- Runs ----------------------------------------------------------------

  datatype Event = Event(op: Op, live: set<ZObject>, out: Outcome)

  ghost predicate Run(ss: seq<State>, es: seq<Event>) {
    && |ss| == |es| + 1
    && forall i {:trigger StepAt(ss, es, i)} :: 0 <= i < |es| ==> StepAt(ss, es, i)
  }

  ghost predicate StepAt(ss: seq<State>, es: seq<Event>, i: nat)
    requires i < |es| && i + 1 < |ss|
  {
    Next(ss[i], es[i].op, es[i].live, es[i].out, ss[i + 1])
  }

  /** A run without its last step. */
  lemma RunPrefix(ss: seq<State>, es: seq<Event>)
    requires Run(ss, es) && es != []
    ensures Run(ss[..|es|], es[..|es| - 1]) && StepAt(ss, es, |es| - 1)
  {
    var ss', es' := ss[..|es|], es[..|es| - 1];
    forall i | 0 <= i < |es'|
      ensures StepAt(ss', es', i)
    {
      assert StepAt(ss, es, i);
    }
    assert StepAt(ss, es, |es| - 1);
  }

  ghost predicate StepAvoids(s: State, e: Event) {
    Writable(e.op) && (e.op.Connect? || (e.op.c in s.conns && !Stales(Noted(s, e.live), e.op)))
  }

  /** No step of the run is one that leaves a cache wrong. */
  ghost predicate Avoids(ss: seq<State>, es: seq<Event>)
    requires |ss| == |es| + 1
  {
    forall i :: 0 <= i < |es| ==> StepAvoids(ss[i], es[i])
  }

  /** A new object, held by the thread that created it. */
  function Fresh(c: ConnId, thread: ThreadId): State {
    State(Table([], map[]), 0, map[c := Conn(thread, map[], false, -1, Idle)], {})
  }

  /** What a read of key k promises against the plain map. */
  ghost predicate ReadsPlain(s: State, op: Op, live: set<ZObject>, out: Outcome)
    requires op.Read? && op.c in s.conns
  {
    var m := Meaning(s.table);
    && (op.mode.Fetch? ==> (out == Failed <==> op.k !in m))
    && (out == Failed || out.Got?)
    && (out.Got? ==>
          && op.k in m
          && (|| ContentOf(out.v) == m[op.k]
              || (&& s.table.slots[op.k].ThreadedSlot?
                  && (s.table.slots[op.k].z !in live || s.table.slots[op.k].z in s.gone)
                  && out.v == Scalar(Null))))
  }

  lemma ReadPlain(s: State, op: Op, live: set<ZObject>, out: Outcome, s': State)
    requires Coherent(s) && op.Read? && Next(s, op, live, out, s')
    ensures ReadsPlain(s, op, live, out)
  {
    var x := At(s, op.c);
    assert ConnOk(x.table, s.gone, x.modcount, x.conn);
    SyncOk(x, s.gone, live);
    var x' :| ReadStep(x, op.k, op.mode, live, out, x') && s' == Install(Noted(s, live), op.c, x');
    var y := Sync(x, live);
    if x.conn.built && op.k in y.conn.cache {
      assert AgreesAt(x.table, s.gone, op.k, y.conn.cache[op.k]);
    } else if out.Got? {
      RestoreContent(x.table.slots[op.k], x.conn.thread, live, out.v);
    }
  }

  lemma EventCoherent(s: State, e: Event, s': State)
    requires Coherent(s) && Next(s, e.op, e.live, e.out, s') && StepAvoids(s, e)
    ensures Coherent(s')
    ensures e.op.Read? ==> ReadsPlain(s, e.op, e.live, e.out)
  {
    StepExact(s, e.op, e.live, e.out, s');
    if e.op.Read? {
      ReadPlain(s, e.op, e.live, e.out, s');
    }
  }

  /**
   Over every run of every number of connections, with the halves of each operation
   interleaved at will: as long as no staling operation occurs, all caches agree with the
   table in every state and every read answers what a plain shared map would.
   */
  lemma {:induction false} RunCoherent(ss: seq<State>, es: seq<Event>)
    requires Run(ss, es) && Coherent(ss[0]) && Avoids(ss, es)
    ensures forall i :: 0 <= i < |ss| ==> Coherent(ss[i])
    ensures forall i :: 0 <= i < |es| && es[i].op.Read? ==> ReadsPlain(ss[i], es[i].op, es[i].live, es[i].out)
    decreases |es|
  {
    if es != [] {
      var n := |es| - 1;
      var ss', es' := ss[..n + 1], es[..n];
      RunPrefix(ss, es);
      RunCoherent(ss', es');
      assert ss'[n] == ss[n] && Coherent(ss[n]);
      assert StepAvoids(ss[n], es[n]);
      EventCoherent(ss[n], es[n], ss[n + 1]);
      forall i | 0 <= i < |ss|
        ensures Coherent(ss[i])
      {
        assert i <= n ==> ss'[i] == ss[i];
      }
      forall i | 0 <= i < |es| && es[i].op.Read?
        ensures ReadsPlain(ss[i], es[i].op, es[i].live, es[i].out)
      {
        assert i < n ==> ss'[i] == ss[i] && es'[i] == es[i];
      }
    }
  }

  /**
   What one caller can check against the shared table and its own connection: it replaces
   or removes no plain string, and writes unretained values only where it caches nothing.
   */
  ghost predicate Careful(s: State, op: Op)
    requires op.c in s.conns
  {
    match op
    case Write(c, k, v) => !PlainAt(s.table, k) && (Retained(v) || k !in s.conns[c].cache)
    case Delete(c, k) => !PlainAt(s.table, k)
    case Shift(c) => s.table.order == [] || !PlainAt(s.table, s.table.order[0])
    case Pop(c) => s.table.order == [] || !PlainAt(s.table, s.table.order[|s.table.order| - 1])
    case Chunk(c, n) => forall k :: k in s.table.order[..ChunkSize(s.table, n)] ==> !PlainAt(s.table, k)
    case Merge(c, src, overwrite) => forall k :: k in Merged(s.table, src, overwrite) ==> !PlainAt(s.table, k)
    case _ => true
  }

  predicate PlainAt(t: Table<Slot>, k: Key) {
    k in t.slots && t.slots[k].Plain?
  }

  lemma CarefulRunCoherent(ss: seq<State>, es: seq<Event>, c: ConnId, t: ThreadId)
    requires Run(ss, es) && ss[0] == Fresh(c, t)
    requires forall i :: 0 <= i < |es| ==>
               Writable(es[i].op) && (es[i].op.Connect? || (es[i].op.c in ss[i].conns && Careful(ss[i], es[i].op)))
    ensures forall i :: 0 <= i < |ss| ==> Coherent(ss[i])
    ensures forall i :: 0 <= i < |es| && es[i].op.Read? ==> ReadsPlain(ss[i], es[i].op, es[i].live, es[i].out)
  {
    forall i | 0 <= i < |es|
      ensures StepAvoids(ss[i], es[i])
    {
      assert Writable(es[i].op);
      if !es[i].op.Connect? {
        assert Careful(ss[i], es[i].op);
        assert !Stales(Noted(ss[i], es[i].live), es[i].op);
      }
    }
    RunCoherent(ss, es);
  }

  // ---- The exclusions are needed ---------------------------------------------

  function One(c: Conn): map<ConnId, Conn> { map[0 := c] }
  function Two(c: Conn, d: Conn): map<ConnId, Conn> { map[0 := c, 1 := d] }

  const KEY := Name("a")
  const OBJECT := Object(ZObject(7, 7, 0), None)
  const INTEGER := Scalar(Long(1))
  const STRING := Str(StringPtr(7, "x", true))

  /** Overwriting a cached object with an integer: the next read still yields the object. */
  lemma OwnWriteGoesStale() returns (ss: seq<State>, es: seq<Event>)
    ensures Run(ss, es) && ss[0] == Fresh(0, 0) && |es| == 5
    ensures es[4].op == Read(0, KEY, Fetch) && es[4].out.Got?
    ensures KEY in ss[4].table.slots && ContentOf(es[4].out.v) != SlotContent(ss[4].table.slots[KEY])
  {
    forall i: nat | i < 5
      ensures Goes(OwnTrace(i), OwnEvent(i), OwnTrace(i + 1))
    {
      OwnStep(i);
    }
    ss, es := TraceRuns(OwnTrace, OwnEvent, 5);
  }

  ghost predicate Goes(s: State, e: Event, s': State) {
    Next(s, e.op, e.live, e.out, s')
  }

  lemma TraceRuns(trace: nat -> State, event: nat -> Event, n: nat) returns (ss: seq<State>, es: seq<Event>)
    requires forall i: nat | i < n :: Goes(trace(i), event(i), trace(i + 1))
    ensures Run(ss, es) && |es| == n
    ensures (forall i: nat | i <= n :: ss[i] == trace(i)) && forall i: nat | i < n :: es[i] == event(i)
  {
    ss := seq(n + 1, i requires 0 <= i => trace(i));
    es := seq(n, i requires 0 <= i => event(i));
    forall i | 0 <= i < n
      ensures StepAt(ss, es, i)
    {
      assert Goes(trace(i), event(i), trace(i + 1));
      assert ss[i] == trace(i) && ss[i + 1] == trace(i + 1) && es[i] == event(i);
    }
  }

  // The states of that run.
  const SHARED := Table([KEY], map[KEY := ThreadedSlot(ZObject(7, 7, 0))])
  const NUMBER := Table([KEY], map[KEY := Direct(Long(1))])
  const OWNED := map[KEY := OBJECT]
  const LIVE := {ZObject(7, 7, 0)}

  function OwnTrace(i: nat): State {
    match i
    case 0 => Fresh(0, 0)
    case 1 => State(SHARED, 0, One(Conn(0, map[], false, 0, Keep(KEY, OBJECT))), {})
    case 2 => State(SHARED, 0, One(Conn(0, OWNED, true, 0, Idle)), {})
    case 3 => State(NUMBER, 1, One(Conn(0, OWNED, true, 1, Keep(KEY, INTEGER))), {})
    case _ => State(NUMBER, 1, One(Conn(0, OWNED, true, 1, Idle)), {})
  }

  function OwnEvent(i: nat): Event {
    match i
    case 0 => Event(Write(0, KEY, OBJECT), LIVE, Silent)
    case 1 => Event(Finish(0), LIVE, Silent)
    case 2 => Event(Write(0, KEY, INTEGER), LIVE, Silent)
    case 3 => Event(Finish(0), LIVE, Silent)
    case _ => Event(Read(0, KEY, Fetch), LIVE, Got(OBJECT))
  }

  lemma OwnStep(i: nat)
    requires i < 5
    ensures Goes(OwnTrace(i), OwnEvent(i), OwnTrace(i + 1))
  {
    match i
    case 0 => OwnWriteFirst(OwnTrace(1));
    case 2 => OwnWriteSecond(OwnTrace(2), OwnTrace(3));
    case 4 => CachedRead(OwnTrace(4), 0, OBJECT);
    case _ => LoneFinish(OwnTrace(i), OwnTrace(i + 1));
  }

  lemma OwnWriteFirst(s': State)
    requires s' == State(SHARED, 0, One(Conn(0, map[], false, 0, Keep(KEY, OBJECT))), {})
    ensures Next(Fresh(0, 0), Write(0, KEY, OBJECT), LIVE, Silent, s')
  {
    var y := WriteSection(At(Fresh(0, 0), 0), KEY, OBJECT, ThreadedSlot(ZObject(7, 7, 0)), LIVE);
    assert y.conn == Conn(0, map[], false, 0, Keep(KEY, OBJECT));
    assert Dead(Fresh(0, 0).table, LIVE) == {};
  }

  lemma OwnWriteSecond(s: State, s': State)
    requires s == State(SHARED, 0, One(Conn(0, OWNED, true, 0, Idle)), {})
    requires s' == State(NUMBER, 1, One(Conn(0, OWNED, true, 1, Keep(KEY, INTEGER))), {})
    ensures Next(s, Write(0, KEY, INTEGER), LIVE, Silent, s')
  {
    var y := WriteSection(At(s, 0), KEY, INTEGER, Direct(Long(1)), LIVE);
    assert y.conn == Conn(0, OWNED, true, 1, Keep(KEY, INTEGER));
    assert Dead(s.table, LIVE) == {};
  }

  lemma LoneFinish(s: State, s': State)
    requires s.conns.Keys == {0} && s' == State(s.table, s.modcount, One(FinishConn(s.conns[0])), s.gone)
    ensures Next(s, Finish(0), LIVE, Silent, s')
  {
    assert s.conns[0 := FinishConn(s.conns[0])] == s'.conns;
  }

  lemma CachedRead(s: State, c: ConnId, v: Value)
    requires c in s.conns && s.conns[c].pending.Idle? && s.conns[c].built && s.conns[c].synced == s.modcount
    requires KEY in s.conns[c].cache && s.conns[c].cache[KEY] == v
    requires forall k :: k in s.table.slots ==> !s.table.slots[k].ThreadedSlot?
    ensures forall live :: Next(s, Read(c, KEY, Fetch), live, Got(v), s)
  {
    forall live: set<ZObject>
      ensures Next(s, Read(c, KEY, Fetch), live, Got(v), s)
    {
      var x := At(s, c);
      assert Dead(s.table, live) == {} && Noted(s, live) == s;
      assert ReadStep(x, KEY, Fetch, live, Got(v), x);
      assert s == Install(s, c, x);
    }
  }

  // The states of a run in which connection 0 deletes a plain string that connection 1 caches.
  const NONE: Table<Slot> := Table([], map[])
  const PLAIN := Table([KEY], map[KEY := Plain("x")])
  const HELD := map[KEY := STRING]
  const NEWCOMER := Conn(1, map[], true, -1, Idle)
  const READER := Conn(1, HELD, true, 0, Idle)
  const WRITER := Conn(0, HELD, true, 0, Idle)

  function PlainTrace(i: nat): State {
    match i
    case 0 => Fresh(0, 0)
    case 1 => State(NONE, 0, Two(Conn(0, map[], false, -1, Idle), NEWCOMER), {})
    case 2 => State(PLAIN, 0, Two(Conn(0, map[], false, 0, Keep(KEY, STRING)), NEWCOMER), {})
    case 3 => State(PLAIN, 0, Two(WRITER, NEWCOMER), {})
    case 4 => State(PLAIN, 0, Two(WRITER, Conn(1, map[], true, 0, Keep(KEY, STRING))), {})
    case 5 => State(PLAIN, 0, Two(WRITER, READER), {})
    case 6 => State(NONE, 0, Two(WRITER.(pending := Forget(KEY)), READER), {})
    case _ => State(NONE, 0, Two(Conn(0, map[], true, 0, Idle), READER), {})
  }

  function PlainEvent(i: nat): Event {
    match i
    case 0 => Event(Connect(1, 1), {}, Silent)
    case 1 => Event(Write(0, KEY, STRING), {}, Silent)
    case 2 => Event(Finish(0), {}, Silent)
    case 3 => Event(Read(1, KEY, Fetch), {}, Got(STRING))
    case 4 => Event(Finish(1), {}, Silent)
    case 5 => Event(Delete(0, KEY), {}, Silent)
    case 6 => Event(Finish(0), {}, Silent)
    case _ => Event(Read(1, KEY, Fetch), {}, Got(STRING))
  }

  lemma FinishNext(s: State, c: ConnId, s': State)
    requires c in s.conns && s' == s.(conns := s.conns[c := FinishConn(s.conns[c])])
    ensures Next(s, Finish(c), {}, Silent, s')
  {
  }

  lemma PlainStep(i: nat)
    requires i < 8
    ensures Goes(PlainTrace(i), PlainEvent(i), PlainTrace(i + 1))
  {
    match i
    case 0 => assert PlainTrace(1) == Fresh(0, 0).(conns := Fresh(0, 0).conns[1 := NEWCOMER]);
    case 1 => PlainWrite(PlainTrace(1), PlainTrace(2));
    case 2 => FinishNext(PlainTrace(2), 0, PlainTrace(3));
    case 3 => PlainRead(PlainTrace(3), PlainTrace(4));
    case 4 => FinishNext(PlainTrace(4), 1, PlainTrace(5));
    case 5 => PlainDelete(PlainTrace(5), PlainTrace(6));
    case 6 => assert HELD - {KEY} == map[]; FinishNext(PlainTrace(6), 0, PlainTrace(7));
    case _ => CachedRead(PlainTrace(7), 1, STRING);
  }

  /** Deleting a plain string: another connection goes on reading it although the key is gone. */
  lemma PlainStringGoesStale() returns (ss: seq<State>, es: seq<Event>)
    ensures Run(ss, es) && ss[0] == Fresh(0, 0) && |es| == 8
    ensures es[7].op == Read(1, KEY, Fetch) && es[7].out.Got?
    ensures KEY !in ss[7].table.slots
  {
    forall i: nat | i < 8
      ensures Goes(PlainTrace(i), PlainEvent(i), PlainTrace(i + 1))
    {
      PlainStep(i);
    }
    ss, es := TraceRuns(PlainTrace, PlainEvent, 8);
  }

  lemma PlainWrite(s: State, s': State)
    requires 0 in s.conns && s.conns[0] == Conn(0, map[], false, -1, Idle)
    requires s.table == Table([], map[]) && s.modcount == 0
    requires s' == State(Table([KEY], map[KEY := Plain("x")]), 0,
                         s.conns[0 := Conn(0, map[], false, 0, Keep(KEY, STRING))], s.gone)
    ensures Next(s, Write(0, KEY, STRING), {}, Silent, s')
  {
    assert Noted(s, {}) == s;
    var y := WriteSection(At(s, 0), KEY, STRING, Plain("x"), {});
    assert y.conn == Conn(0, map[], false, 0, Keep(KEY, STRING));
  }

  lemma PlainRead(s: State, s': State)
    requires 1 in s.conns && s.conns[1] == Conn(1, map[], true, -1, Idle)
    requires s.table == Table([KEY], map[KEY := Plain("x")]) && s.modcount == 0
    requires s' == s.(conns := s.conns[1 := Conn(1, map[], true, 0, Keep(KEY, STRING))])
    ensures Next(s, Read(1, KEY, Fetch), {}, Got(STRING), s')
  {
    var x' := View(s.table, 0, Conn(1, map[], true, 0, Keep(KEY, STRING)));
    assert Noted(s, {}) == s;
    assert ReadStep(At(s, 1), KEY, Fetch, {}, Got(STRING), x');
  }

  lemma PlainDelete(s: State, s': State)
    requires 0 in s.conns && s.conns[0].pending.Idle?
    requires s.table == Table([KEY], map[KEY := Plain("x")])
    requires s' == State(Table([], map[]), s.modcount, s.conns[0 := s.conns[0].(pending := Forget(KEY))], s.gone)
    ensures Next(s, Delete(0, KEY), {}, Silent, s')
  {
    assert Noted(s, {}) == s;
    assert Without([KEY], KEY) == [];
    assert Del(s.table, KEY) == Table([], map[]);
  }

  // The states of a run in which connection 1 fully synchronizes after the object was destroyed.
  const NULLED := map[KEY := Scalar(Null)]
  const OWNER := Conn(0, OWNED, true, 0, Idle)

  function NullTrace(i: nat): State {
    match i
    case 0 => Fresh(0, 0)
    case 1 => State(NONE, 0, Two(Conn(0, map[], false, -1, Idle), NEWCOMER), {})
    case 2 => State(SHARED, 0, Two(Conn(0, map[], false, 0, Keep(KEY, OBJECT)), NEWCOMER), {})
    case 3 => State(SHARED, 0, Two(OWNER, NEWCOMER), {})
    case _ => State(SHARED, 0, Two(OWNER, Conn(1, NULLED, true, 0, Idle)), LIVE)
  }

  function NullEvent(i: nat): Event {
    match i
    case 0 => Event(Connect(1, 1), {}, Silent)
    case 1 => Event(Write(0, KEY, OBJECT), LIVE, Silent)
    case 2 => Event(Finish(0), LIVE, Silent)
    case 3 => Event(FullSync(1), {}, Silent)
    case _ => Event(Read(1, KEY, Fetch), {}, Got(Scalar(Null)))
  }

  /**
   Full synchronization after an object was destroyed: the cache holds a null, counts as in sync, and
   answers the next read.
   */
  lemma CachedNullIsRead() returns (ss: seq<State>, es: seq<Event>)
    ensures Run(ss, es) && ss[0] == Fresh(0, 0) && |es| == 5
    ensures es[3].op == FullSync(1) && 1 in ss[4].conns && ss[4].conns[1].synced == ss[4].modcount
    ensures KEY in ss[4].conns[1].cache && ss[4].conns[1].cache[KEY] == Scalar(Null)
    ensures KEY in ss[4].table.slots && ss[4].table.slots[KEY] == ThreadedSlot(ZObject(7, 7, 0))
    ensures es[4].op == Read(1, KEY, Fetch) && es[4].out == Got(Scalar(Null))
  {
    forall i: nat | i < 5
      ensures Goes(NullTrace(i), NullEvent(i), NullTrace(i + 1))
    {
      NullStep(i);
    }
    ss, es := TraceRuns(NullTrace, NullEvent, 5);
  }

  lemma NullStep(i: nat)
    requires i < 5
    ensures Goes(NullTrace(i), NullEvent(i), NullTrace(i + 1))
  {
    match i
    case 0 => assert NullTrace(1) == Fresh(0, 0).(conns := Fresh(0, 0).conns[1 := NEWCOMER]);
    case 1 => ObjectWrite(NullTrace(1), NullTrace(2));
    case 2 => FinishStep(NullTrace(2), 0, LIVE, NullTrace(3));
    case 3 => NullSync(NullTrace(3), NullTrace(4));
    case _ => NullRead(NullTrace(4));
  }

  lemma ObjectWrite(s: State, s': State)
    requires s == NullTrace(1) && s' == NullTrace(2)
    ensures Next(s, Write(0, KEY, OBJECT), LIVE, Silent, s')
  {
    var y := WriteSection(At(s, 0), KEY, OBJECT, ThreadedSlot(ZObject(7, 7, 0)), LIVE);
    assert y.conn == Conn(0, map[], false, 0, Keep(KEY, OBJECT));
    assert Noted(s, LIVE) == s;
  }

  lemma FinishStep(s: State, c: ConnId, live: set<ZObject>, s': State)
    requires c in s.conns && s' == s.(conns := s.conns[c := FinishConn(s.conns[c])])
    ensures Next(s, Finish(c), live, Silent, s')
  {
  }

  lemma NullSync(s: State, s': State)
    requires s == NullTrace(3) && s' == NullTrace(4)
    ensures Next(s, FullSync(1), {}, Silent, s')
  {
    var x := At(s, 1);
    var x' := View(SHARED, 0, Conn(1, NULLED, true, 0, Idle));
    assert Sync(x, {}).conn.cache == map[];
    assert FullSyncStep(x, {}, x');
    assert Dead(SHARED, {}) == LIVE by {
      assert KEY in SHARED.slots;
    }
    assert s' == Install(Noted(s, {}), 1, x');
  }

  lemma NullRead(s: State)
    requires s == NullTrace(4)
    ensures Next(s, Read(1, KEY, Fetch), {}, Got(Scalar(Null)), s)
  {
    var x := At(s, 1);
    assert Noted(s, {}) == s;
    assert ReadStep(x, KEY, Fetch, {}, Got(Scalar(Null)), x);
    assert s == Install(s, 1, x);
  }

  // ---- The shared table is a plain ordered map ---------------------------------

  function Abstract(t: Table<Slot>): Table<Content> {
    Table(t.order, Meaning(t))
  }

  function PlainMerge(dst: Table<Content>, src: Table<Content>, overwrite: bool, n: nat): Table<Content>
    requires Valid(src) && n <= |src.order|
  {
    if n == 0 then dst
    else
      var k := src.order[n - 1];
      assert k in KeySet(src.order);
      var d := PlainMerge(dst, src, overwrite, n - 1);
      if !overwrite && k in d.slots then d else Put(d, k, src.slots[k])
  }

  /** The effect of each operation on a plain ordered map. */
  ghost function PlainEffect(op: Op, m: Table<Content>): Table<Content>
    requires Valid(m)
    requires op.Merge? ==> Valid(op.src)
  {
    match op
    case Write(_, k, v) => Put(m, k, ContentOf(v))
    case Delete(_, k) => Del(m, k)
    case Shift(_) => if m.order == [] then m else Del(m, m.order[0])
    case Pop(_) => if m.order == [] then m else Del(m, m.order[|m.order| - 1])
    case Chunk(_, n) => DropFirst(m, if n < 0 then 0 else if n < |m.order| then n else |m.order|)
    case Merge(_, src, overwrite) => PlainMerge(m, Abstract(src), overwrite, |src.order|)
    case _ => m
  }

  lemma {:induction false} MergePlain(dst: Table<Slot>, src: Table<Slot>, overwrite: bool, n: nat)
    requires Valid(src) && n <= |src.order|
    ensures Abstract(MergeFrom(dst, src, overwrite, n)) == PlainMerge(Abstract(dst), Abstract(src), overwrite, n)
  {
    if n > 0 {
      MergePlain(dst, src, overwrite, n - 1);
      var k := src.order[n - 1];
      assert k in KeySet(src.order);
      AbstractPut(MergeFrom(dst, src, overwrite, n - 1), k, HardCopy(src.slots[k]));
      assert SlotContent(HardCopy(src.slots[k])) == SlotContent(src.slots[k]);
    }
  }

  lemma AbstractValid(t: Table<Slot>)
    requires Valid(t)
    ensures Valid(Abstract(t))
  {
    assert Meaning(t).Keys == t.slots.Keys;
  }

  lemma AbstractPut(t: Table<Slot>, k: Key, slot: Slot)
    ensures Abstract(Put(t, k, slot)) == Put(Abstract(t), k, SlotContent(slot))
  {
  }

  lemma AbstractDrops(t: Table<Slot>, n: nat)
    requires Valid(t) && n <= |t.order|
    ensures Abstract(DropFirst(t, n)) == DropFirst(Abstract(t), n)
    ensures t.order != [] ==> Abstract(DropLast(t)) == DropLast(Abstract(t))
  {
    MeaningDrops(t, KeySet(t.order[..n]));
    if t.order != [] {
      MeaningDrops(t, {t.order[|t.order| - 1]});
    }
  }

  lemma MeaningDrops(t: Table<Slot>, keys: set<Key>)
    ensures forall order :: Meaning(Table(order, t.slots - keys)) == Meaning(t) - keys
  {
    forall order: seq<Key>
      ensures Meaning(Table(order, t.slots - keys)) == Meaning(t) - keys
    {
      var m := Meaning(Table(order, t.slots - keys));
      assert m.Keys == (Meaning(t) - keys).Keys;
    }
  }

  lemma DeleteRefines(x: View, k: Key)
    requires Valid(x.table)
    ensures Abstract(DeleteSection(x, k).table) == Del(Abstract(x.table), k)
  {
    var m := Abstract(x.table);
    if k in x.table.slots {
      assert Meaning(Del(x.table, k)) == m.slots - {k};
    } else {
      assert k !in KeySet(x.table.order);
      assert m.slots - {k} == m.slots;
    }
  }

  lemma EndsRefine(x: View)
    requires Valid(x.table) && x.table.order != []
    ensures Abstract(ShiftSection(x).table) == Del(Abstract(x.table), x.table.order[0])
    ensures Abstract(PopSection(x).table) == Del(Abstract(x.table), x.table.order[|x.table.order| - 1])
  {
    AbstractValid(x.table);
    AbstractDrops(x.table, 1);
    DelEnds(Abstract(x.table));
  }

  lemma QuietStepRefines(s: State, op: Op, live: set<ZObject>, out: Outcome, s': State)
    requires Next(s, op, live, out, s')
    requires op.Read? || op.Export? || op.FullSync? || op.Synchronize? || op.Finish? || op.Connect?
    ensures s'.table == s.table
  {
    var n := Noted(s, live);
    match op
    case Read(c, k, mode) =>
      var x' :| ReadStep(At(n, c), k, mode, live, out, x') && s' == Install(n, c, x');
      ReadSameTable(At(n, c), k, mode, live, out, x');
    case Export(c) =>
      var x' :| ExportStep(At(n, c), live, x') && s' == Install(n, c, x');
    case FullSync(c) =>
      var x' :| FullSyncStep(At(n, c), live, x') && s' == Install(n, c, x');
    case _ =>
  }

  lemma ReadSameTable(x: View, k: Key, mode: Mode, live: set<ZObject>, out: Outcome, x': View)
    requires ReadStep(x, k, mode, live, out, x')
    ensures x'.table == x.table
  {
  }

  lemma WriteRefines(s: State, op: Op, live: set<ZObject>, out: Outcome, s': State)
    requires op.Write? && Next(s, op, live, out, s') && Writable(op) && out != Failed
    ensures Abstract(s'.table) == Put(Abstract(s.table), op.k, ContentOf(op.v))
  {
    SaveContent(s.conns[op.c].thread, op.v);
    var slot := Save(s.conns[op.c].thread, op.v).value;
    assert s'.table == Put(s.table, op.k, slot);
    AbstractPut(s.table, op.k, slot);
  }

  /** Whatever the caches do, the shared table itself moves as a plain ordered map. */
  lemma StepRefinesMap(s: State, op: Op, live: set<ZObject>, out: Outcome, s': State)
    requires Valid(s.table) && Next(s, op, live, out, s') && Writable(op)
    ensures Valid(Abstract(s.table))
    ensures if op.Write? && out == Failed then s'.table == s.table
            else Abstract(s'.table) == PlainEffect(op, Abstract(s.table))
  {
    AbstractValid(s.table);
    if op.Write? && out == Failed {
    } else if op.Write? {
      WriteRefines(s, op, live, out, s');
    } else if op.Read? || op.Export? || op.FullSync? || op.Synchronize? || op.Finish? || op.Connect? {
      QuietStepRefines(s, op, live, out, s');
    } else if op.Free? {
      assert Meaning(s'.table) == Meaning(s.table);
    } else {
      RemovalRefines(s, op, live, out, s');
    }
  }

  lemma RemovalRefines(s: State, op: Op, live: set<ZObject>, out: Outcome, s': State)
    requires Valid(s.table) && Next(s, op, live, out, s') && Valid(Abstract(s.table))
    requires op.Delete? || op.Shift? || op.Pop? || op.Chunk? || op.Merge?
    ensures Abstract(s'.table) == PlainEffect(op, Abstract(s.table))
  {
    match op
    case Delete(c, k) => DeleteRefines(At(s, c), k);
    case Shift(c) =>
      if s.table.order != [] {
        EndsRefine(At(s, c));
      }
    case Pop(c) =>
      if s.table.order != [] {
        EndsRefine(At(s, c));
      }
    case Chunk(c, n) => AbstractDrops(s.table, ChunkSize(s.table, n));
    case Merge(c, src, overwrite) => MergePlain(s.table, src, overwrite, |src.order|);
  }
}
