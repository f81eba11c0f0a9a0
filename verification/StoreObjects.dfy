/**
 The operations of src/store.c as they update a shared table and a connection in place,
 each proved to perform exactly the section that the step relation of `Store` uses.
 */
module StoreObjects {
  import opened Wrappers
  import opened OrderedTable
  import opened Store

  class SharedTable {
    var table: Table<Slot>
    var modcount: int

    constructor ()
      ensures Valid(table) && table == Table([], map[]) && modcount == 0
    {
      table, modcount := Table([], map[]), 0;
    }
  }

  /** No lent string lies at address `free` or above, so new values can be created there. */
  predicate FreeFrom(t: Table<Slot>, free: nat) {
    forall k :: k in t.slots && t.slots[k].BorrowedString? ==> t.slots[k].p.address < free
  }

  class Connection {
    const thread: ThreadId
    const shared: SharedTable
    var cache: map<Key, Value>
    var built: bool
    var synced: int
    var pending: Pending

    constructor (thread: ThreadId, shared: SharedTable)
      ensures this.thread == thread && this.shared == shared
      ensures Snapshot() == View(shared.table, shared.modcount, Conn(thread, map[], false, -1, Idle))
    {
      this.thread, this.shared := thread, shared;
      cache, built, synced, pending := map[], false, -1, Idle;
    }

    ghost function Snapshot(): View
      reads this, shared
    {
      View(shared.table, shared.modcount, Conn(thread, cache, built, synced, pending))
    }

    /** pthreads_store_sync_local_properties: drop every entry that the table does not confirm. */
    method SyncLocalProperties(live: set<ZObject>)
      modifies this
      ensures Snapshot() == Sync(old(Snapshot()), live)
    {
      if synced == shared.modcount {
        return;
      }
      var all := cache;
      var todo := cache.Keys;
      while todo != {}
        invariant todo <= all.Keys
        invariant forall k :: k in cache ==> k in all && cache[k] == all[k]
        invariant forall k :: k in todo ==> k in cache
        invariant forall k :: k in all && k !in todo ==>
                    (k in cache <==> k in shared.table.slots && SyncKeeps(shared.table.slots[k], thread, live, all[k]))
        invariant built == old(built) && pending == old(pending) && synced == old(synced)
      {
        var k :| k in todo;
        var remove := true;
        if k in shared.table.slots {
          remove := !SyncKeeps(shared.table.slots[k], thread, live, cache[k]);
        }
        if remove {
          cache := cache - {k};
        }
        todo := todo - {k};
      }
      assert cache == SyncCache(shared.table, thread, live, all);
      synced := shared.modcount;
    }

    /** _pthreads_store_bump_modcount_nolock */
    method BumpModcount()
      modifies this`synced, shared`modcount
      ensures Snapshot() == Bump(old(Snapshot()))
    {
      if synced == shared.modcount {
        synced := synced + 1;
      }
      shared.modcount := shared.modcount + 1;
    }

    /** pthreads_store_restore_zval: `free` is the address of whatever has to be created. */
    method Restore(slot: Slot, live: set<ZObject>, free: nat) returns (v: Value)
      requires slot.BorrowedString? ==> slot.p.address != free
      ensures Restores(slot, thread, live, v)
    {
      match slot
      case Direct(s) => v := Scalar(s);
      case Plain(text) => v := Str(StringPtr(free, text, false));
      case BorrowedString(p, owner) =>
        if owner == thread {
          v := Str(p);
        } else {
          v := Str(if p.permanent then p else StringPtr(free, p.text, false));
        }
      case ThreadedSlot(z) =>
        if z in live {
          v := if z.owner == thread then Object(z, None) else Object(ZObject(free, z.shared, thread), Some(z));
        } else {
          v := Scalar(Null);
        }
      case ClosureSlot(c) => v := Closure(ClosurePtr(free, c.code));
      case SocketSlot(fd) => v := Socket(fd);
      case OpaqueSlot(h) => v := Opaque(h);
    }

    /** pthreads_store_read, the part under the monitor. */
    method ReadLocked(k: Key, mode: Mode, live: set<ZObject>, free: nat) returns (out: Outcome)
      requires pending.Idle? && FreeFrom(shared.table, free)
      modifies this
      ensures ReadStep(old(Snapshot()), k, mode, live, out, Snapshot())
    {
      if built {
        SyncLocalProperties(live);
        if k in cache {
          return Got(cache[k]);
        }
      }
      if k in shared.table.slots {
        var slot := shared.table.slots[k];
        if !slot.ThreadedSlot? && mode.Modify? {
          return Failed;
        }
        var v := Restore(slot, live, free);
        pending := Keep(k, v);
        return Got(v);
      }
      return Failed;
    }

    /** pthreads_store_full_sync_local_properties, what it does to the object's own cache. */
    method FullSyncLocked(live: set<ZObject>, free: nat)
      requires Valid(shared.table) && pending.Idle? && FreeFrom(shared.table, free)
      modifies this
      ensures FullSyncStep(old(Snapshot()), live, Snapshot())
    {
      SyncLocalProperties(live);
      ghost var kept := cache;
      built := true;
      var i := 0;
      FillStart(shared.table, thread, live, kept);
      while i < |shared.table.order|
        invariant i <= |shared.table.order| && Filling(shared.table, thread, live, kept, i, cache)
        invariant shared.table == old(shared.table) && shared.modcount == old(shared.modcount)
        invariant built && pending == old(pending) && synced == shared.modcount
      {
        var k := shared.table.order[i];
        FillStep(shared.table, thread, live, kept, i, cache);
        if k !in cache && Cacheable(shared.table.slots[k]) {
          var v := Restore(shared.table.slots[k], live, free + i);
          cache := cache[k := v];
        }
        i := i + 1;
      }
      FillDone(shared.table, thread, live, kept, cache);
    }

    /** pthreads_store_write, the part under the monitor. */
    method WriteLocked(k: Key, v: Value, live: set<ZObject>) returns (out: Outcome)
      requires pending.Idle?
      modifies this, shared
      ensures match Save(thread, v)
              case None => out == Failed && Snapshot() == old(Snapshot())
              case Some(slot) => out == Silent && Snapshot() == WriteSection(old(Snapshot()), k, v, slot, live)
    {
      var slot := Save(thread, v);
      if slot.None? {
        return Failed;
      }
      var wasCacheable := CacheableAt(shared.table, k);
      shared.table := Put(shared.table, k, slot.value);
      if wasCacheable {
        BumpModcount();
      }
      SyncLocalProperties(live);
      pending := Keep(k, v);
      out := Silent;
    }

    /** pthreads_store_delete, the part under the monitor. */
    method DeleteLocked(k: Key) returns (out: Outcome)
      requires pending.Idle?
      modifies this, shared
      ensures out == if k in old(shared.table).slots then Silent else Failed
      ensures Snapshot() == DeleteSection(old(Snapshot()), k)
    {
      var wasCacheable := CacheableAt(shared.table, k);
      if k !in shared.table.slots {
        return Failed;
      }
      shared.table := Del(shared.table, k);
      if wasCacheable {
        BumpModcount();
      }
      pending := Forget(k);
      out := Silent;
    }

    /** The part of a read, write or deletion that follows the unlock. */
    method FinishUnlocked()
      modifies this
      ensures Snapshot() == old(Snapshot()).(conn := FinishConn(old(Snapshot()).conn))
    {
      match pending {
        case Keep(k, v) =>
          if Retained(v) {
            built := true;
            cache := cache[k := v];
          }
        case Forget(k) => cache := cache - {k};
        case Idle =>
      }
      pending := Idle;
    }

    /** Restores the entry under k and removes it from the table and from the own cache. */
    method TakeOne(k: Key, live: set<ZObject>, free: nat) returns (v: Value)
      requires k in shared.table.slots && FreeFrom(shared.table, free)
      modifies this, shared
      ensures Restores(old(shared.table).slots[k], thread, live, v)
      ensures Snapshot() == RemoveSection(old(Snapshot()), Del(old(shared.table), k), {k})
    {
      var slot := shared.table.slots[k];
      v := Restore(slot, live, free);
      shared.table := Del(shared.table, k);
      cache := cache - {k};
      if Cacheable(slot) {
        BumpModcount();
      }
    }

    /** pthreads_store_shift */
    method ShiftLocked(live: set<ZObject>, free: nat) returns (out: Outcome)
      requires Valid(shared.table) && pending.Idle? && FreeFrom(shared.table, free)
      modifies this, shared
      ensures RestoresOne(old(shared.table), 0, thread, live, out)
      ensures Snapshot() == ShiftSection(old(Snapshot()))
    {
      if shared.table.order == [] {
        return Got(Scalar(Null));
      }
      var k := shared.table.order[0];
      assert k in KeySet(shared.table.order);
      DelEnds(shared.table);
      var v := TakeOne(k, live, free);
      out := Got(v);
    }

    /** pthreads_store_pop */
    method PopLocked(live: set<ZObject>, free: nat) returns (out: Outcome)
      requires Valid(shared.table) && pending.Idle? && FreeFrom(shared.table, free)
      modifies this, shared
      ensures RestoresOne(old(shared.table), |old(shared.table).order| - 1, thread, live, out)
      ensures Snapshot() == PopSection(old(Snapshot()))
    {
      if shared.table.order == [] {
        return Got(Scalar(Null));
      }
      var k := shared.table.order[|shared.table.order| - 1];
      assert k in KeySet(shared.table.order);
      DelEnds(shared.table);
      var v := TakeOne(k, live, free);
      out := Got(v);
    }

    /** One round of the chunk loop: restore the first entry and drop it from table and cache. */
    method TakeFirst(live: set<ZObject>, free: nat) returns (k: Key, v: Value, cacheable: bool)
      requires shared.table.order != [] && shared.table.order[0] in shared.table.slots
      requires FreeFrom(shared.table, free)
      modifies this`cache, shared`table
      ensures k == old(shared.table).order[0]
      ensures Restores(old(shared.table).slots[k], thread, live, v)
      ensures cacheable == Cacheable(old(shared.table).slots[k])
      ensures shared.table == Del(old(shared.table), k) && cache == old(cache) - {k}
    {
      k := shared.table.order[0];
      var slot := shared.table.slots[k];
      v := Restore(slot, live, free);
      cacheable := Cacheable(slot);
      shared.table := Del(shared.table, k);
      cache := cache - {k};
    }

    method TakeNext(ghost t: Table<Slot>, ghost before: map<Key, Value>, chunk: seq<(Key, Value)>, removed: bool,
                    live: set<ZObject>, free: nat)
      returns (chunk': seq<(Key, Value)>, removed': bool)
      requires Valid(t) && |chunk| < |t.order| && FreeFrom(shared.table, free)
      requires ChunkState(t, before, chunk, removed, live)
      modifies this`cache, shared`table
      ensures |chunk'| == |chunk| + 1 && FreeFrom(shared.table, free)
      ensures ChunkState(t, before, chunk', removed', live)
    {
      ChunkStep(t, before, |chunk|, shared.table, cache, removed);
      var k, v, cacheable := TakeFirst(live, free);
      RestoresMore(t, t.order[..|chunk|], thread, live, chunk, k, v);
      chunk', removed' := chunk + [(k, v)], removed || cacheable;
    }

    ghost predicate ChunkState(t: Table<Slot>, before: map<Key, Value>, chunk: seq<(Key, Value)>, removed: bool,
                               live: set<ZObject>)
      reads this, shared
    {
      && |chunk| <= |t.order|
      && Chunked(t, before, |chunk|, shared.table, cache, removed)
      && RestoresAll(t, t.order[..|chunk|], thread, live, chunk)
    }

    /** The loop of pthreads_store_chunk: shift until the chunk is full or the table is empty. */
    method TakeChunk(n: int, live: set<ZObject>, free: nat) returns (chunk: seq<(Key, Value)>, removed: bool)
      requires Valid(shared.table) && FreeFrom(shared.table, free)
      modifies this`cache, shared`table
      ensures |chunk| == ChunkSize(old(shared.table), n)
      ensures ChunkState(old(shared.table), old(cache), chunk, removed, live)
    {
      ghost var t := shared.table;
      chunk, removed := [], false;
      ChunkStart(t, cache);
      while |chunk| < n && shared.table.order != []
        invariant (|chunk| <= n || |chunk| == 0) && FreeFrom(shared.table, free)
        invariant ChunkState(t, old(cache), chunk, removed, live)
        decreases |t.order| - |chunk|
      {
        chunk, removed := TakeNext(t, old(cache), chunk, removed, live, free + |chunk|);
      }
    }

    /** pthreads_store_chunk: one bump for the whole chunk. */
    method ChunkLocked(n: int, live: set<ZObject>, free: nat) returns (out: Outcome)
      requires Valid(shared.table) && pending.Idle? && FreeFrom(shared.table, free)
      modifies this, shared
      ensures out.Many?
      ensures var t := old(shared.table);
              RestoresAll(t, t.order[..ChunkSize(t, n)], thread, live, out.entries)
      ensures Snapshot() == ChunkSection(old(Snapshot()), n)
    {
      var chunk, removed := TakeChunk(n, live, free);
      ChunkDone(old(Snapshot()), n, shared.table, cache, removed);
      if removed {
        BumpModcount();
      }
      out := Many(chunk);
    }

    /** pthreads_store_merge from another threaded array, both monitors held. */
    method MergeLocked(src: Table<Slot>, overwrite: bool)
      requires Valid(shared.table) && Valid(src) && pending.Idle?
      modifies this, shared
      ensures Snapshot() == MergeSection(old(Snapshot()), src, overwrite)
    {
      var overwrote := MergeLoop(src, overwrite);
      MergeDone(old(Snapshot()), src, overwrite, shared.table, cache, overwrote);
      if overwrote {
        BumpModcount();
      }
    }

    /** The loop over the source's entries. */
    method MergeLoop(src: Table<Slot>, overwrite: bool) returns (overwrote: bool)
      requires Valid(src)
      modifies this`cache, shared`table
      ensures MergedSoFar(old(shared.table), old(cache), src, overwrite, |src.order|, shared.table, cache, overwrote)
    {
      ghost var t := shared.table;
      ghost var before := cache;
      overwrote := false;
      var i := 0;
      MergeStart(t, before, src, overwrite);
      while i < |src.order|
        invariant i <= |src.order|
        invariant MergedSoFar(t, before, src, overwrite, i, shared.table, cache, overwrote)
      {
        overwrote := MergeEntry(t, before, src, overwrite, i, overwrote);
        i := i + 1;
      }
    }

    /** One round of the merge loop. */
    method MergeEntry(ghost t: Table<Slot>, ghost before: map<Key, Value>, src: Table<Slot>, overwrite: bool, i: nat,
                      overwroteSoFar: bool)
      returns (overwrote: bool)
      requires Valid(src) && i < |src.order|
      requires MergedSoFar(t, before, src, overwrite, i, shared.table, cache, overwroteSoFar)
      modifies this`cache, shared`table
      ensures MergedSoFar(t, before, src, overwrite, i + 1, shared.table, cache, overwrote)
    {
      overwrote := overwroteSoFar;
      var k := src.order[i];
      MergeStep(t, before, src, overwrite, i, shared.table, cache, overwrote);
      if overwrite || k !in shared.table.slots {
        if !overwrote {
          overwrote := CacheableAt(shared.table, k);
        }
        shared.table := Put(shared.table, k, HardCopy(src.slots[k]));
        cache := cache - {k};
      }
    }

    /** pthreads_store_persist_local_properties: replace what this thread lent by persistent copies. */
    method PersistLocalProperties()
      requires Valid(shared.table)
      modifies shared
      ensures shared.table == PersistTable(old(shared.table), thread) && shared.modcount == old(shared.modcount)
    {
      ghost var t := shared.table;
      var i := 0;
      while i < |shared.table.order|
        invariant i <= |t.order| && PersistedSoFar(t, thread, i, shared.table)
        invariant shared.modcount == old(shared.modcount)
      {
        PersistStep(t, thread, i, shared.table);
        var k := shared.table.order[i];
        shared.table := shared.table.(slots := shared.table.slots[k := Persisted(shared.table.slots[k], thread)]);
        i := i + 1;
      }
      PersistDone(t, thread, shared.table);
    }
  }

  /** The state of a full sync that has passed i entries: `kept` is what the plain sync left. */
  ghost predicate Filling(t: Table<Slot>, thread: ThreadId, live: set<ZObject>, kept: map<Key, Value>, i: nat,
                          cache: map<Key, Value>)
    requires i <= |t.order|
  {
    && Valid(t)
    && (forall k :: k in cache <==> k in kept || (k in t.order[..i] && CacheableAt(t, k)))
    && (forall k :: k in kept ==> cache[k] == kept[k])
    && (forall k :: k in cache && k !in kept ==> CacheableAt(t, k) && Restores(t.slots[k], thread, live, cache[k]))
  }

  lemma FillStart(t: Table<Slot>, thread: ThreadId, live: set<ZObject>, kept: map<Key, Value>)
    requires Valid(t)
    ensures Filling(t, thread, live, kept, 0, kept)
  {
  }

  lemma FillStep(t: Table<Slot>, thread: ThreadId, live: set<ZObject>, kept: map<Key, Value>, i: nat,
                 cache: map<Key, Value>)
    requires i < |t.order| && Filling(t, thread, live, kept, i, cache)
    ensures var k := t.order[i];
            && k in t.slots
            && (k in cache || !Cacheable(t.slots[k]) ==> Filling(t, thread, live, kept, i + 1, cache))
            && (k !in cache && Cacheable(t.slots[k]) ==>
                  forall v :: Restores(t.slots[k], thread, live, v) ==>
                                Filling(t, thread, live, kept, i + 1, cache[k := v]))
  {
    assert t.order[i] in KeySet(t.order);
    assert t.order[..i + 1] == t.order[..i] + [t.order[i]];
  }

  lemma FillDone(t: Table<Slot>, thread: ThreadId, live: set<ZObject>, kept: map<Key, Value>, cache: map<Key, Value>)
    requires Filling(t, thread, live, kept, |t.order|, cache)
    ensures cache.Keys == kept.Keys + (set k | k in t.slots && Cacheable(t.slots[k]))
    ensures forall k :: k in t.slots && Cacheable(t.slots[k]) && k !in kept ==>
                          Restores(t.slots[k], thread, live, cache[k])
  {
    assert t.order[..|t.order|] == t.order;
    assert forall k :: k in t.slots ==> k in KeySet(t.order);
  }

  /** The state of a persisting loop that has passed i entries. */
  ghost predicate PersistedSoFar(t: Table<Slot>, thread: ThreadId, i: nat, now: Table<Slot>)
    requires i <= |t.order|
  {
    && Valid(t) && now.order == t.order && now.slots.Keys == t.slots.Keys
    && forall k :: k in t.slots ==>
         now.slots[k] == if k in t.order[..i] then Persisted(t.slots[k], thread) else t.slots[k]
  }

  lemma PersistStep(t: Table<Slot>, thread: ThreadId, i: nat, now: Table<Slot>)
    requires i < |t.order| && PersistedSoFar(t, thread, i, now)
    ensures var k := t.order[i];
            && k in now.slots
            && PersistedSoFar(t, thread, i + 1, now.(slots := now.slots[k := Persisted(now.slots[k], thread)]))
  {
    var k := t.order[i];
    assert k in KeySet(t.order) && k !in t.order[..i];
    assert t.order[..i + 1] == t.order[..i] + [k];
  }

  lemma PersistDone(t: Table<Slot>, thread: ThreadId, now: Table<Slot>)
    requires PersistedSoFar(t, thread, |t.order|, now)
    ensures now == PersistTable(t, thread)
  {
    assert t.order[..|t.order|] == t.order;
    assert forall k :: k in t.slots ==> k in KeySet(t.order);
    assert now.slots == PersistTable(t, thread).slots;
  }

  /** The state of a chunk loop that has taken i entries from t. */
  ghost predicate Chunked(t: Table<Slot>, before: map<Key, Value>, i: nat, now: Table<Slot>, cache: map<Key, Value>,
                          removed: bool)
    requires i <= |t.order|
  {
    && now == DropFirst(t, i)
    && cache == before - KeySet(t.order[..i])
    && removed == exists k :: k in KeySet(t.order[..i]) && CacheableAt(t, k)
  }

  lemma ChunkStart(t: Table<Slot>, before: map<Key, Value>)
    ensures Chunked(t, before, 0, t, before, false)
  {
    assert KeySet(t.order[..0]) == {};
    assert t.slots - {} == t.slots && before - {} == before;
  }

  lemma ChunkStep(t: Table<Slot>, before: map<Key, Value>, i: nat, now: Table<Slot>, cache: map<Key, Value>,
                  removed: bool)
    requires Valid(t) && i < |t.order| && Chunked(t, before, i, now, cache, removed)
    ensures var k := t.order[i];
            && now.order != [] && now.order[0] == k && k in now.slots && k in t.slots && now.slots[k] == t.slots[k]
            && Chunked(t, before, i + 1, Del(now, k), cache - {k}, removed || Cacheable(now.slots[k]))
    ensures t.order[..i + 1] == t.order[..i] + [t.order[i]]
  {
    var k := t.order[i];
    var a := KeySet(t.order[..i]);
    assert k in KeySet(t.order) && k !in t.order[..i];
    assert t.order[..i + 1] == t.order[..i] + [k];
    assert KeySet(t.order[..i + 1]) == a + {k};
    DropTwice(t.slots, a, k);
    DropTwice(before, a, k);
    OrderStep(t.order, i);
  }

  lemma DropTwice<V>(m: map<Key, V>, a: set<Key>, k: Key)
    ensures (m - a) - {k} == m - (a + {k})
  {
  }

  lemma OrderStep(ks: seq<Key>, i: nat)
    requires Distinct(ks) && i < |ks|
    ensures Without(ks[i..], ks[i]) == ks[i + 1..]
  {
    assert ks[i..] == [ks[i]] + ks[i + 1..];
    assert ks[i] !in ks[i + 1..];
  }

  lemma RestoresMore(t: Table<Slot>, keys: seq<Key>, thread: ThreadId, live: set<ZObject>, out: seq<(Key, Value)>,
                     k: Key, v: Value)
    requires RestoresAll(t, keys, thread, live, out) && k in t.slots && Restores(t.slots[k], thread, live, v)
    ensures RestoresAll(t, keys + [k], thread, live, out + [(k, v)])
  {
  }

  /** A finished chunk loop, bumped if it removed anything cacheable, is the chunk section. */
  lemma ChunkDone(x: View, n: int, now: Table<Slot>, cache: map<Key, Value>, removed: bool)
    requires Chunked(x.table, x.conn.cache, ChunkSize(x.table, n), now, cache, removed)
    ensures BumpIf(x.(table := now, conn := x.conn.(cache := cache)), removed) == ChunkSection(x, n)
  {
  }

  /** The state of a merge loop that has looked at i entries of the source. */
  ghost predicate MergedSoFar(t: Table<Slot>, before: map<Key, Value>, src: Table<Slot>, overwrite: bool, i: nat,
                              now: Table<Slot>, cache: map<Key, Value>, overwrote: bool)
    requires Valid(src) && i <= |src.order|
  {
    && now == MergeFrom(t, src, overwrite, i)
    && (forall k :: k in now.slots <==> k in t.slots || k in MergedBelow(t, src, overwrite, i))
    && (forall k :: k in t.slots && k !in src.order[..i] ==> k in now.slots && now.slots[k] == t.slots[k])
    && cache == before - MergedBelow(t, src, overwrite, i)
    && (overwrote == exists k :: k in MergedBelow(t, src, overwrite, i) && CacheableAt(t, k))
  }

  lemma MergeStart(t: Table<Slot>, before: map<Key, Value>, src: Table<Slot>, overwrite: bool)
    requires Valid(src)
    ensures MergedSoFar(t, before, src, overwrite, 0, t, before, false)
  {
    assert MergedBelow(t, src, overwrite, 0) == {};
    assert before - {} == before;
  }

  lemma MergeStep(t: Table<Slot>, before: map<Key, Value>, src: Table<Slot>, overwrite: bool, i: nat,
                  now: Table<Slot>, cache: map<Key, Value>, overwrote: bool)
    requires Valid(src) && i < |src.order| && MergedSoFar(t, before, src, overwrite, i, now, cache, overwrote)
    ensures var k := src.order[i];
            && k in src.slots
            && if overwrite || k !in now.slots
               then MergedSoFar(t, before, src, overwrite, i + 1, Put(now, k, HardCopy(src.slots[k])), cache - {k},
                                overwrote || CacheableAt(now, k))
               else MergedSoFar(t, before, src, overwrite, i + 1, now, cache, overwrote)
  {
    var k := src.order[i];
    MergedBelowStep(t, src, overwrite, i);
    assert k in now.slots <==> k in t.slots;
    assert CacheableAt(now, k) == CacheableAt(t, k);
    var done := MergedBelow(t, src, overwrite, i);
    assert (before - done) - {k} == before - (done + {k});
  }

  /** A finished merge loop, bumped if it overwrote anything cacheable, is the merge section. */
  lemma MergeDone(x: View, src: Table<Slot>, overwrite: bool, now: Table<Slot>, cache: map<Key, Value>, overwrote: bool)
    requires Valid(src) && MergedSoFar(x.table, x.conn.cache, src, overwrite, |src.order|, now, cache, overwrote)
    ensures BumpIf(x.(table := now, conn := x.conn.(cache := cache)), overwrote) == MergeSection(x, src, overwrite)
  {
    MergedBelowAll(x.table, src, overwrite);
  }

  /** The keys that a merge has written after the first n entries of the source. */
  ghost function MergedBelow(dst: Table<Slot>, src: Table<Slot>, overwrite: bool, n: nat): set<Key>
    requires n <= |src.order|
  {
    set k | k in src.order[..n] && (overwrite || k !in dst.slots)
  }

  lemma MergedBelowStep(dst: Table<Slot>, src: Table<Slot>, overwrite: bool, i: nat)
    requires Valid(src) && i < |src.order|
    ensures var k := src.order[i];
            && k in src.slots && k !in src.order[..i] && k !in MergedBelow(dst, src, overwrite, i)
            && (forall j :: j in src.order[..i + 1] <==> j in src.order[..i] || j == k)
            && MergedBelow(dst, src, overwrite, i + 1) ==
                 MergedBelow(dst, src, overwrite, i) + if overwrite || k !in dst.slots then {k} else {}
  {
    assert src.order[..i + 1] == src.order[..i] + [src.order[i]];
    assert src.order[i] in KeySet(src.order);
  }

  lemma MergedBelowAll(dst: Table<Slot>, src: Table<Slot>, overwrite: bool)
    requires Valid(src)
    ensures MergedBelow(dst, src, overwrite, |src.order|) == Merged(dst, src, overwrite)
  {
    assert src.order[..|src.order|] == src.order;
    assert forall k :: k in src.order <==> k in KeySet(src.order);
  }
}
