/**
 What each operation on the shared table does, said in terms of slots, values, counters and caches
 alone, and what follows for an entry that nobody touches.
 */
module StoreLaws {
  import opened Wrappers
  import opened OrderedTable
  import opened Store
  import opened StoreCoherence

  // ---- Saving and restoring ------------------------------------------------------------------

  /**
   What a value is stored as.  Simple values and permanent strings are copied; other strings are lent
   by the writer; an object stands for the object that it goes back to; a reference stands for what
   it refers to, but a simple value behind one cannot be stored, and neither can anything else.
   */
  lemma {:induction false} SavedAs(owner: ThreadId, v: Value)
    ensures v.Scalar? ==> Save(owner, v) == Some(Direct(v.s))
    ensures v.Str? && v.p.permanent ==> Save(owner, v) == Some(Plain(v.p.text))
    ensures Core(v).Str? && (v.Reference? || !v.p.permanent) ==>
              Save(owner, v) == Some(BorrowedString(Core(v).p, owner))
    ensures Core(v).Object? && Core(v).original.Some? ==> Save(owner, v) == Some(ThreadedSlot(Core(v).original.value))
    ensures Core(v).Object? && Core(v).original.None? ==> Save(owner, v) == Some(ThreadedSlot(Core(v).z))
    ensures Core(v).Closure? ==> Save(owner, v) == Some(ClosureSlot(Core(v).c))
    ensures Core(v).Socket? ==> Save(owner, v) == Some(SocketSlot(Core(v).fd))
    ensures Core(v).Opaque? ==> Save(owner, v) == Some(OpaqueSlot(Core(v).handle))
    ensures Save(owner, v) == None <==> Core(v).Unsupported? || (v.Reference? && Core(v).Scalar?)
  {
    CreatedAs(owner, v);
  }

  lemma {:induction false} CreatedAs(owner: ThreadId, v: Value)
    ensures Create(owner, v) == Create(owner, Core(v)) && !Core(v).Reference?
  {
    if v.Reference? {
      CreatedAs(owner, v.to);
    }
  }

  /**
   Storing a restored object again, on any thread, refers to the very object that the slot referred
   to, not to the connection: chains of connections are never stored.
   */
  lemma RestoredStoresBack(slot: Slot, t: ThreadId, live: set<ZObject>, v: Value, owner: ThreadId)
    requires Restores(slot, t, live, v)
    requires slot.ThreadedSlot? && v.Object?
    ensures Save(owner, v) == Some(slot)
  {
  }

  /**
   What is stored is what is restored.  The writer's thread gets back the very string it lent and the
   very socket, resource or simple value; any thread gets the same content, and for an object a
   connection that goes back to the stored one or that object itself, or null once it is destroyed.
   */
  lemma SavedRestores(owner: ThreadId, v: Value, t: ThreadId, live: set<ZObject>, u: Value)
    requires !v.Reference? && Save(owner, v).Some? && OriginalOk(v)
    requires Restores(Save(owner, v).value, t, live, u)
    ensures v.Scalar? || v.Socket? || v.Opaque? ==> u == v
    ensures v.Str? ==> u.Str? && u.p.text == v.p.text
    ensures v.Str? && !v.p.permanent ==> (u == v <==> t == owner) && (t != owner ==> u.p.address != v.p.address)
    ensures v.Closure? ==> u.Closure? && u.c.code == v.c.code
    ensures v.Object? ==>
              var z := if v.original.Some? then v.original.value else v.z;
              if z !in live then u == Scalar(Null)
              else
                && u.Object? && u.z.owner == t && u.z.shared == v.z.shared
                && (t == z.owner ==> u == Object(z, None)) && (t != z.owner ==> u.original == Some(z))
  {
  }

  // ---- Synchronizing ---------------------------------------------------------------------------

  /**
   A sync leaves what is cached under k: the slot refers to the very object that is cached, or to a
   registered object with the same shared object, or holds the same closure, the same descriptor, or
   the same string, lent by this thread.
   */
  predicate StaysCached(t: Table<Slot>, thread: ThreadId, live: set<ZObject>, cache: map<Key, Value>, k: Key) {
    && k in cache && k in t.slots
    && var (slot, v) := (t.slots[k], cache[k]);
       || (slot.ThreadedSlot? && v.Object? && slot.z == v.z)
       || (slot.ThreadedSlot? && v.Object? && slot.z in live && slot.z.shared == v.z.shared)
       || (slot.ClosureSlot? && v == Closure(slot.c))
       || (slot.SocketSlot? && v == Socket(slot.fd))
       || (slot.BorrowedString? && v == Str(slot.p) && slot.owner == thread)
  }

  /** An entry is still cached after a sync: the connection was up to date, or the entry stays. */
  predicate LeftCached(t: Table<Slot>, modcount: int, b: Conn, live: set<ZObject>, k: Key) {
    k in b.cache && (b.synced == modcount || StaysCached(t, b.thread, live, b.cache, k))
  }

  /** after is what is left of before: entries that stay, as they were, and no others. */
  ghost predicate Pruned(t: Table<Slot>, thread: ThreadId, live: set<ZObject>, before: map<Key, Value>,
                         after: map<Key, Value>) {
    && (forall k :: k in after <==> StaysCached(t, thread, live, before, k))
    && forall k :: k in after ==> after[k] == before[k]
  }

  /** A sync does nothing when the counters agree; otherwise it prunes the cache and is up to date. */
  lemma SyncExact(x: View, live: set<ZObject>)
    ensures x.conn.synced == x.modcount ==> Sync(x, live) == x
    ensures x.conn.synced != x.modcount ==>
              var y := Sync(x, live);
              && y == x.(conn := x.conn.(cache := y.conn.cache, synced := x.modcount))
              && Pruned(x.table, x.conn.thread, live, x.conn.cache, y.conn.cache)
  {
  }

  // ---- The pieces of an effect -------------------------------------------------------------------

  /** Something under `keys` is announced by the counter when it goes: an object, a closure, a socket, a lent string. */
  predicate Announces(t: Table<Slot>, keys: set<Key>) {
    exists k :: k in keys && k in t.slots && IsAnnounced(t.slots[k])
  }

  predicate IsAnnounced(slot: Slot) {
    slot.ThreadedSlot? || slot.ClosureSlot? || slot.SocketSlot? || slot.BorrowedString?
  }

  /** The counters after the entries under `keys` were replaced or removed: an up-to-date connection stays so. */
  predicate Counted(s: State, c: ConnId, keys: set<Key>, s': State)
    requires c in s.conns && c in s'.conns
  {
    var (up, n) := (s.conns[c].synced == s.modcount, if Announces(s.table, keys) then 1 else 0);
    s'.modcount == s.modcount + n && s'.conns[c].synced == s.conns[c].synced + if up then n else 0
  }

  /** The table with a slot under k, new keys going to the end. */
  predicate StoredAt(t: Table<Slot>, k: Key, slot: Slot, t': Table<Slot>) {
    && t'.order == (if k in t.slots then t.order else t.order + [k])
    && t'.slots.Keys == t.slots.Keys + {k} && t'.slots[k] == slot
    && forall j :: j in t.slots && j != k ==> t'.slots[j] == t.slots[j]
  }

  /** The table without some keys, the others in their order. */
  ghost predicate RemovedFrom(t: Table<Slot>, keys: set<Key>, t': Table<Slot>) {
    && t'.slots.Keys == t.slots.Keys - keys
    && (forall j :: j in t'.slots ==> t'.slots[j] == t.slots[j])
    && exists a, b, c: seq<Key> :: t.order == a + b + c && t'.order == a + c && keys * t.slots.Keys == set k | k in b
  }

  /** All connections but c are as they were, and every object found destroyed has been noted. */
  ghost predicate OthersStay(s: State, c: ConnId, live: set<ZObject>, s': State) {
    && c in s.conns && s'.conns.Keys == s.conns.Keys
    && (forall d :: d in s.conns && d != c ==> s'.conns[d] == s.conns[d])
    && forall z :: z in s'.gone <==>
         (z in s.gone || exists k :: k in s.table.slots && s.table.slots[k] == ThreadedSlot(z) && z !in live)
  }

  // ---- The operations ------------------------------------------------------------------------------

  /**
   A write stores the value at its key and announces what it replaced.  The writer's cache stays if it
   was up to date and is pruned by the new table otherwise; the value is left to be cached.  A value
   that cannot be stored changes nothing.
   */
  lemma WriteEffect(s: State, c: ConnId, k: Key, v: Value, live: set<ZObject>, out: Outcome, s': State)
    requires Next(s, Write(c, k, v), live, out, s') && (c in s.conns ==> s.conns[c].synced <= s.modcount)
    ensures OthersStay(s, c, live, s')
    ensures Save(s.conns[c].thread, v) == None ==>
              out == Failed && s'.table == s.table && s'.modcount == s.modcount && s'.conns == s.conns
    ensures Save(s.conns[c].thread, v).Some? ==>
              && out == Silent && StoredAt(s.table, k, Save(s.conns[c].thread, v).value, s'.table)
              && s'.modcount == s.modcount + (if Announces(s.table, {k}) then 1 else 0)
              && var (b, a) := (s.conns[c], s'.conns[c]);
                 && a == b.(cache := a.cache, synced := s'.modcount, pending := Keep(k, v))
                 && if b.synced == s.modcount then a.cache == b.cache
                    else Pruned(s'.table, b.thread, live, b.cache, a.cache)
  {
    if Save(s.conns[c].thread, v).Some? {
      WriteSectionIs(At(s, c), k, v, Save(s.conns[c].thread, v).value, live);
    }
    NotedIs(s, live);
  }

  lemma NotedIs(s: State, live: set<ZObject>)
    ensures forall z :: z in Noted(s, live).gone <==>
              (z in s.gone || exists k :: k in s.table.slots && s.table.slots[k] == ThreadedSlot(z) && z !in live)
  {
  }

  lemma WriteSectionIs(x: View, k: Key, v: Value, slot: Slot, live: set<ZObject>)
    requires x.conn.synced <= x.modcount
    ensures var y := WriteSection(x, k, v, slot, live);
            && StoredAt(x.table, k, slot, y.table)
            && y.modcount == x.modcount + (if Announces(x.table, {k}) then 1 else 0)
            && y.conn == x.conn.(cache := y.conn.cache, synced := y.modcount, pending := Keep(k, v))
            && if x.conn.synced == x.modcount then y.conn.cache == x.conn.cache
               else Pruned(y.table, x.conn.thread, live, x.conn.cache, y.conn.cache)
  {
    assert CacheableAt(x.table, k) <==> Announces(x.table, {k});
    var stored := x.(table := Put(x.table, k, slot));
    SyncExact(BumpIf(stored, CacheableAt(x.table, k)), live);
  }

  /**
   A deletion removes the entry, announces it, and leaves the own cache entry to be dropped; of an
   absent key it fails.
   */
  lemma DeleteEffect(s: State, c: ConnId, k: Key, live: set<ZObject>, out: Outcome, s': State)
    requires Valid(s.table) && Next(s, Delete(c, k), live, out, s')
    ensures OthersStay(s, c, live, s')
    ensures k !in s.table.slots ==>
              out == Failed && s'.table == s.table && s'.modcount == s.modcount && s'.conns == s.conns
    ensures k in s.table.slots ==>
              && out == Silent && RemovedFrom(s.table, {k}, s'.table) && Counted(s, c, {k}, s')
              && s'.conns[c] == s.conns[c].(synced := s'.conns[c].synced, pending := Forget(k))
  {
    NotedIs(s, live);
    if k in s.table.slots {
      DeleteIs(At(s, c), k);
    }
  }

  lemma DeleteIs(x: View, k: Key)
    requires Valid(x.table) && k in x.table.slots
    ensures var y := DeleteSection(x, k);
            && RemovedFrom(x.table, {k}, y.table)
            && y.modcount == x.modcount + (if Announces(x.table, {k}) then 1 else 0)
            && y.conn == x.conn.(synced := y.conn.synced, pending := Forget(k))
            && y.conn.synced == x.conn.synced + if x.conn.synced == x.modcount then y.modcount - x.modcount else 0
  {
    DelIs(x.table, k);
    assert CacheableAt(x.table, k) <==> Announces(x.table, {k});
  }

  lemma DelIs(t: Table<Slot>, k: Key)
    requires Valid(t) && k in t.slots
    ensures RemovedFrom(t, {k}, Del(t, k))
  {
    assert k in KeySet(t.order);
    var i := WithoutSplits(t.order, k);
    var (a, b, d) := (t.order[..i], [k], t.order[i + 1..]);
    assert t.order == a + b + d && Del(t, k).order == a + d;
    assert {k} * t.slots.Keys == set j | j in b;
  }

  lemma {:induction false} WithoutSplits(ks: seq<Key>, k: Key) returns (i: nat)
    requires Distinct(ks) && k in KeySet(ks)
    ensures i < |ks| && ks[i] == k && Without(ks, k) == ks[..i] + ks[i + 1..]
    decreases |ks|
  {
    if ks[0] == k {
      i := 0;
      assert k !in ks[1..];
    } else {
      var j := WithoutSplits(ks[1..], k);
      i := j + 1;
      SplitShift(ks, j);
    }
  }

  lemma SplitShift(ks: seq<Key>, j: nat)
    requires j + 1 < |ks|
    ensures ks[..j + 1] + ks[j + 2..] == [ks[0]] + (ks[1..][..j] + ks[1..][j + 1..])
  {
  }

  /** The keys that shift, pop or chunk take: from the front, or the last. */
  function TakenKeys(s: State, op: Op): seq<Key>
    requires op.Shift? || op.Pop? || op.Chunk?
  {
    var (ks, n) := (s.table.order, |s.table.order|);
    match op
    case Shift(_) => if n == 0 then [] else [ks[0]]
    case Pop(_) => if n == 0 then [] else [ks[n - 1]]
    case Chunk(_, m) => if m <= 0 then [] else if m < n then ks[..m] else ks
  }

  /** The outcome has exactly what the caller obtains for these keys, in their order. */
  ghost predicate HandedOut(s: State, op: Op, live: set<ZObject>, out: Outcome)
    requires (op.Shift? || op.Pop? || op.Chunk?) && op.c in s.conns
  {
    var ks := TakenKeys(s, op);
    if op.Chunk? then
      && out.Many? && |out.entries| == |ks|
      && forall i :: 0 <= i < |ks| ==>
           && ks[i] in s.table.slots && out.entries[i].0 == ks[i]
           && Restores(s.table.slots[ks[i]], s.conns[op.c].thread, live, out.entries[i].1)
    else if ks == [] then out == Got(Scalar(Null))
    else out.Got? && ks[0] in s.table.slots && Restores(s.table.slots[ks[0]], s.conns[op.c].thread, live, out.v)
  }

  /**
   Shift, pop and chunk remove the entries they hand out from the table and from the own cache, under
   the monitor, and announce them once.
   */
  lemma TakeEffect(s: State, op: Op, live: set<ZObject>, out: Outcome, s': State)
    requires Valid(s.table) && (op.Shift? || op.Pop? || op.Chunk?) && Next(s, op, live, out, s')
    ensures OthersStay(s, op.c, live, s') && HandedOut(s, op, live, out)
    ensures var keys := KeySet(TakenKeys(s, op));
            && RemovedFrom(s.table, keys, s'.table) && Counted(s, op.c, keys, s')
            && s'.conns[op.c] == s.conns[op.c].(synced := s'.conns[op.c].synced, cache := s.conns[op.c].cache - keys)
  {
    NotedIs(s, live);
    TakeOut(s, op, live, out, s');
    TakesAway(At(s, op.c), s, op);
    Taken(s, op, live, out, s');
  }

  /** y is x without the entries under `keys`. */
  ghost predicate Removes(x: View, keys: set<Key>, y: View) {
    && RemovedFrom(x.table, keys, y.table)
    && y.modcount == x.modcount + (if Announces(x.table, keys) then 1 else 0)
    && y.conn == x.conn.(cache := x.conn.cache - keys, synced := y.conn.synced)
    && y.conn.synced == x.conn.synced + if x.conn.synced == x.modcount then y.modcount - x.modcount else 0
  }

  /** The section that a taking operation runs. */
  ghost function TakeSection(x: View, op: Op): View
    requires op.Shift? || op.Pop? || op.Chunk?
  {
    match op
    case Shift(_) => ShiftSection(x)
    case Pop(_) => PopSection(x)
    case Chunk(_, n) => ChunkSection(x, n)
  }

  lemma Taken(s: State, op: Op, live: set<ZObject>, out: Outcome, s': State)
    requires (op.Shift? || op.Pop? || op.Chunk?) && Next(s, op, live, out, s')
    ensures op.c in s.conns && s' == Install(Noted(s, live), op.c, TakeSection(At(s, op.c), op))
  {
  }

  lemma TakeOut(s: State, op: Op, live: set<ZObject>, out: Outcome, s': State)
    requires Valid(s.table) && (op.Shift? || op.Pop? || op.Chunk?) && Next(s, op, live, out, s')
    ensures HandedOut(s, op, live, out)
  {
    if op.Chunk? {
      assert s.table.order[..|s.table.order|] == s.table.order;
      assert TakenKeys(s, op) == s.table.order[..ChunkSize(s.table, op.n)];
    }
  }

  lemma TakesAway(x: View, s: State, op: Op)
    requires Valid(s.table) && (op.Shift? || op.Pop? || op.Chunk?) && x.table == s.table
    ensures Removes(x, KeySet(TakenKeys(s, op)), TakeSection(x, op))
  {
    var (t, n) := (s.table, |s.table.order|);
    if op.Chunk? {
      ChunkIs(x, s, op);
    } else if n == 0 {
      EmptyIs(x);
    } else if op.Shift? {
      FrontIs(t, 1);
      assert t.order[..1] == [t.order[0]] && KeySet([t.order[0]]) == {t.order[0]};
      RemoveIs(x, DropFirst(t, 1), {t.order[0]});
    } else {
      BackIs(t);
      assert KeySet([t.order[n - 1]]) == {t.order[n - 1]};
      RemoveIs(x, DropLast(t), {t.order[n - 1]});
    }
  }

  lemma ChunkIs(x: View, s: State, op: Op)
    requires Valid(s.table) && op.Chunk? && x.table == s.table
    ensures Removes(x, KeySet(TakenKeys(s, op)), ChunkSection(x, op.n))
  {
    var t := s.table;
    var m := ChunkSize(t, op.n);
    FrontIs(t, m);
    assert t.order[..|t.order|] == t.order;
    assert TakenKeys(s, op) == t.order[..m];
    RemoveIs(x, DropFirst(t, m), KeySet(t.order[..m]));
  }

  lemma EmptyIs(x: View)
    requires x.table.order == [] && Valid(x.table)
    ensures Removes(x, KeySet([]), x)
  {
    var none: seq<Key> := [];
    assert KeySet(none) == {};
    assert x.table.order == none + none + none;
    assert KeySet(none) * x.table.slots.Keys == set k | k in none;
    assert x.conn.cache - KeySet(none) == x.conn.cache;
  }

  lemma FrontIs(t: Table<Slot>, m: nat)
    requires Valid(t) && m <= |t.order|
    ensures RemovedFrom(t, KeySet(t.order[..m]), DropFirst(t, m))
  {
    var none: seq<Key> := [];
    assert t.order == none + t.order[..m] + t.order[m..] && t.order[m..] == none + t.order[m..];
    assert forall k :: k in t.order[..m] ==> k in KeySet(t.order);
    assert KeySet(t.order[..m]) * t.slots.Keys == set k | k in t.order[..m];
  }

  lemma BackIs(t: Table<Slot>)
    requires Valid(t) && t.order != []
    ensures RemovedFrom(t, {t.order[|t.order| - 1]}, DropLast(t))
  {
    var none: seq<Key> := [];
    var (a, b) := (t.order[..|t.order| - 1], [t.order[|t.order| - 1]]);
    assert t.order == a + b + none && a == a + none;
    assert b[0] in KeySet(t.order);
    assert {b[0]} * t.slots.Keys == set k | k in b;
  }

  lemma RemoveIs(x: View, rest: Table<Slot>, keys: set<Key>)
    ensures var y := RemoveSection(x, rest, keys);
            && y.table == rest
            && (exists k :: k in keys && CacheableAt(x.table, k)) == Announces(x.table, keys)
            && y.modcount == x.modcount + (if Announces(x.table, keys) then 1 else 0)
            && y.conn == x.conn.(cache := x.conn.cache - keys, synced := y.conn.synced)
            && y.conn.synced == x.conn.synced + if x.conn.synced == x.modcount then y.modcount - x.modcount else 0
  {
    assert forall k :: k in keys && k in x.table.slots ==>
      (Cacheable(x.table.slots[k]) <==> IsAnnounced(x.table.slots[k]));
  }

  /**
   A merge puts a hard copy of each source entry that it does not have to skip under its key, and
   drops those keys from the own cache; what it overwrote is announced once.
   */
  lemma MergeEffect(s: State, c: ConnId, src: Table<Slot>, overwrite: bool, live: set<ZObject>, out: Outcome, s': State)
    requires Valid(s.table) && Next(s, Merge(c, src, overwrite), live, out, s')
    ensures out == Silent && OthersStay(s, c, live, s')
    ensures exists keys: set<Key> ::
              && (forall k :: k in keys <==> (k in src.slots && (k !in s.table.slots || overwrite)))
              && s'.table.slots.Keys == s.table.slots.Keys + keys
              && (forall k :: k in s.table.slots && k !in keys ==> s'.table.slots[k] == s.table.slots[k])
              && (forall k :: k in keys ==>
                    s'.table.slots[k] == match src.slots[k]
                                         case BorrowedString(p, _) => Plain(p.text)
                                         case slot => slot)
              && Counted(s, c, keys, s')
              && s'.conns[c] == s.conns[c].(synced := s'.conns[c].synced, cache := s.conns[c].cache - keys)
  {
    NotedIs(s, live);
    MergedIs(s.table, src, overwrite, MergeTable(s.table, src, overwrite));
    RemoveIs(At(s, c), MergeTable(s.table, src, overwrite), Merged(s.table, src, overwrite));
    MergeNext(s, c, src, overwrite, live, out, s');
  }

  lemma MergeNext(s: State, c: ConnId, src: Table<Slot>, overwrite: bool, live: set<ZObject>, out: Outcome, s': State)
    requires Next(s, Merge(c, src, overwrite), live, out, s')
    ensures c in s.conns && Valid(src) && out == Silent
    ensures var keys := Merged(s.table, src, overwrite);
            s' == Install(Noted(s, live), c, RemoveSection(At(s, c), MergeTable(s.table, src, overwrite), keys))
  {
  }

  lemma MergedIs(t: Table<Slot>, src: Table<Slot>, overwrite: bool, t': Table<Slot>)
    requires Valid(t) && Valid(src) && t' == MergeTable(t, src, overwrite)
    ensures var keys := Merged(t, src, overwrite);
            && (forall k :: k in keys <==> (k in src.slots && (k !in t.slots || overwrite)))
            && t'.slots.Keys == t.slots.Keys + keys
            && (forall k :: k in t.slots && k !in keys ==> t'.slots[k] == t.slots[k])
            && (forall k :: k in keys ==>
                  t'.slots[k] == match src.slots[k]
                                 case BorrowedString(p, _) => Plain(p.text)
                                 case slot => slot)
  {
    MergeSlots(t, src, overwrite);
    var keys := Merged(t, src, overwrite);
    forall k
      ensures k in t'.slots <==> k in t.slots || k in keys
      ensures k in keys ==> t'.slots[k] == HardCopy(src.slots[k])
      ensures k in t.slots && k !in keys ==> t'.slots[k] == t.slots[k]
    {
      assert Lookup(t', k) == if k in keys then Some(HardCopy(src.slots[k])) else Lookup(t, k);
    }
  }

  /**
   Freeing a connection turns exactly the strings its thread lent into persistent copies; other
   threads' strings stay lent, and everything else stays.
   */
  lemma FreeEffect(s: State, c: ConnId, live: set<ZObject>, out: Outcome, s': State)
    requires Next(s, Free(c), live, out, s')
    ensures out == Silent && c in s.conns && s'.conns == s.conns - {c} && s'.modcount == s.modcount
    ensures s'.table.order == s.table.order && s'.table.slots.Keys == s.table.slots.Keys
    ensures forall k :: k in s.table.slots ==>
              s'.table.slots[k] == match s.table.slots[k]
                                   case BorrowedString(p, owner) =>
                                     if owner == s.conns[c].thread then Plain(p.text) else BorrowedString(p, owner)
                                   case slot => slot
  {
  }

  /**
   A read answers the cached value itself if there is one after a sync; otherwise it succeeds exactly
   if the key is there and, for modification, refers to an object, and leaves the value to be cached.
   */
  lemma ReadEffect(s: State, c: ConnId, k: Key, mode: Mode, live: set<ZObject>, out: Outcome, s': State)
    requires Next(s, Read(c, k, mode), live, out, s')
    ensures OthersStay(s, c, live, s') && s'.table == s.table && s'.modcount == s.modcount
    ensures var (b, a) := (s.conns[c], s'.conns[c]);
            && a == b.(cache := a.cache, synced := a.synced, pending := a.pending)
            && (if b.built && b.synced != s.modcount
                then a.synced == s.modcount && Pruned(s.table, b.thread, live, b.cache, a.cache)
                else a.synced == b.synced && a.cache == b.cache)
            && (b.built && k in a.cache ==> out == Got(a.cache[k]) && a.pending == Idle)
            && (!(b.built && k in a.cache) ==>
                  if k in s.table.slots && (mode == Fetch || s.table.slots[k].ThreadedSlot?)
                  then out.Got? && Restores(s.table.slots[k], b.thread, live, out.v) && a.pending == Keep(k, out.v)
                  else out == Failed && a.pending == Idle)
  {
    NotedIs(s, live);
    SyncExact(At(s, c), live);
    var n := Noted(s, live);
    var x' :| ReadStep(At(n, c), k, mode, live, out, x') && s' == Install(n, c, x');
    ReadSameTable(At(n, c), k, mode, live, out, x');
  }

  /**
   The part after the unlock: an object, a closure, a socket or a string just read or written is
   cached, which makes the property table; a key just deleted is dropped.  Anything else changes nothing.
   */
  lemma FinishEffect(s: State, c: ConnId, live: set<ZObject>, out: Outcome, s': State)
    requires Next(s, Finish(c), live, out, s')
    ensures out == Silent && c in s.conns && s' == s.(conns := s.conns[c := s'.conns[c]])
    ensures var (b, a) := (s.conns[c], s'.conns[c]);
            && a == b.(cache := a.cache, built := a.built, pending := Idle)
            && match b.pending
               case Keep(k, v) =>
                 if v.Object? || v.Closure? || v.Socket? || v.Str? then a.cache == b.cache[k := v] && a.built
                 else a.cache == b.cache && a.built == b.built
               case Forget(k) => a.cache == b.cache - {k} && a.built == b.built
               case Idle => a == b
  {
  }

  /** Full synchronization: pruned, then every announced entry that is missing is cached, and up to date. */
  lemma FullSyncEffect(s: State, c: ConnId, live: set<ZObject>, out: Outcome, s': State)
    requires Next(s, FullSync(c), live, out, s')
    ensures OthersStay(s, c, live, s') && s'.table == s.table && s'.modcount == s.modcount
    ensures var (b, a) := (s.conns[c], s'.conns[c]);
            && a == b.(cache := a.cache, synced := s.modcount, built := true)
            && forall k ::
                 var stays := LeftCached(s.table, s.modcount, b, live, k);
                 var fills := k in s.table.slots && Announces(s.table, {k});
                 && (k in a.cache <==> (stays || fills))
                 && (stays ==> a.cache[k] == b.cache[k])
                 && (fills && !stays ==> Restores(s.table.slots[k], b.thread, live, a.cache[k]))
  {
    NotedIs(s, live);
    SyncExact(At(s, c), live);
    var n := Noted(s, live);
    var x' :| FullSyncStep(At(n, c), live, x') && s' == Install(n, c, x');
    FillIs(At(s, c), live, x');
  }

  lemma FillIs(x: View, live: set<ZObject>, x': View)
    requires FullSyncStep(x, live, x')
    ensures var (b, a) := (x.conn, x'.conn);
            && a == b.(cache := a.cache, synced := x.modcount, built := true)
            && forall k ::
                 var stays := LeftCached(x.table, x.modcount, b, live, k);
                 var fills := k in x.table.slots && Announces(x.table, {k});
                 && (k in a.cache <==> (stays || fills))
                 && (stays ==> a.cache[k] == b.cache[k])
                 && (fills && !stays ==> Restores(x.table.slots[k], b.thread, live, a.cache[k]))
  {
    SyncExact(x, live);
    var y := Sync(x, live);
    forall k
      ensures k in y.conn.cache <==>
                LeftCached(x.table, x.modcount, x.conn, live, k)
      ensures k in x.table.slots && Cacheable(x.table.slots[k]) <==> k in x.table.slots && Announces(x.table, {k})
    {
    }
  }

  /** Exporting does the same for every entry, and leaves the connection out of date if it cached any. */
  lemma ExportEffect(s: State, c: ConnId, live: set<ZObject>, out: Outcome, s': State)
    requires Next(s, Export(c), live, out, s')
    ensures OthersStay(s, c, live, s') && s'.table == s.table && s'.modcount == s.modcount
    ensures var (b, a) := (s.conns[c], s'.conns[c]);
            && a == b.(cache := a.cache, synced := a.synced, built := true)
            && (a.synced != s.modcount - 1 ==> a.synced == s.modcount)
            && forall k ::
                 var stays := LeftCached(s.table, s.modcount, b, live, k);
                 && (k in a.cache <==> (stays || k in s.table.slots))
                 && (stays ==> a.cache[k] == b.cache[k])
                 && (k in s.table.slots && !stays ==>
                       Restores(s.table.slots[k], b.thread, live, a.cache[k]) && a.synced == s.modcount - 1)
  {
    NotedIs(s, live);
    SyncExact(At(s, c), live);
    var n := Noted(s, live);
    var x' :| ExportStep(At(n, c), live, x') && s' == Install(n, c, x');
  }

  /** Some value that the thread may restore from the slot. */
  function Restored(slot: Slot, t: ThreadId, live: set<ZObject>): (v: Value)
    ensures Restores(slot, t, live, v)
  {
    match slot
    case Direct(x) => Scalar(x)
    case Plain(text) => Str(StringPtr(0, text, false))
    case BorrowedString(p, owner) =>
      Str(if owner == t || p.permanent then p else StringPtr(p.address + 1, p.text, false))
    case ThreadedSlot(z) =>
      if z !in live then Scalar(Null)
      else if z.owner == t then Object(z, None)
      else Object(ZObject(z.address, z.shared, t), Some(z))
    case ClosureSlot(code) => Closure(code)
    case SocketSlot(fd) => Socket(fd)
    case OpaqueSlot(h) => Opaque(h)
  }

  /**
   An export that has nothing to restore may leave the counter where it is; any export may leave it
   behind, since uninitialized typed properties count as a change.
   */
  lemma ExportPossible(s: State, c: ConnId, live: set<ZObject>, behind: bool) returns (s': State)
    requires c in s.conns && s.conns[c].pending.Idle?
    requires behind || forall k :: k in s.table.slots ==> LeftCached(s.table, s.modcount, s.conns[c], live, k)
    ensures Next(s, Export(c), live, Silent, s')
    ensures s'.conns[c].synced == s.modcount - if behind then 1 else 0
  {
    var n := Noted(s, live);
    NotedIs(s, live);
    SyncExact(At(s, c), live);
    var x := At(n, c);
    var y := Sync(x, live);
    var cache := map k | k in y.conn.cache.Keys + x.table.slots.Keys ::
                   if k in y.conn.cache then y.conn.cache[k] else Restored(x.table.slots[k], x.conn.thread, live);
    var x' := y.(conn := y.conn.(cache := cache, built := true, synced := x.modcount - if behind then 1 else 0));
    assert ExportStep(x, live, x');
    s' := Install(n, c, x');
  }

  /** A new connection has an empty cache and a counter that no shared counter has. */
  lemma ConnectEffect(s: State, c: ConnId, thread: ThreadId, live: set<ZObject>, out: Outcome, s': State)
    requires Next(s, Connect(c, thread), live, out, s') && 0 <= s.modcount
    ensures out == Silent && c !in s.conns && c in s'.conns && s' == s.(conns := s.conns[c := s'.conns[c]])
    ensures var a := s'.conns[c];
            a.thread == thread && a.cache == map[] && a.pending == Idle && a.synced < s.modcount
  {
  }

  // ---- An entry that nobody touches ------------------------------------------------------------------

  /** The operation neither stores nor removes anything under k, and is not the end of connection c. */
  predicate LeavesAlone(s: State, op: Op, c: ConnId, k: Key) {
    match op
    case Write(_, j, _) => j != k
    case Delete(_, j) => j != k
    case Shift(_) => s.table.order == [] || s.table.order[0] != k
    case Pop(_) => s.table.order == [] || s.table.order[|s.table.order| - 1] != k
    case Chunk(_, n) => k !in TakenKeys(s, op)
    case Merge(_, src, overwrite) => k in src.slots ==> k in s.table.slots && !overwrite
    case Free(d) => d != c
    case _ => true
  }

  /** Connection c has an object under k, or is about to, which the slot refers to. */
  predicate HasObject(s: State, c: ConnId, k: Key, v: Value, z: ZObject) {
    && k in s.table.slots && s.table.slots[k] == ThreadedSlot(z)
    && v.Object? && z.shared == v.z.shared
    && c in s.conns && s.conns[c].synced <= s.modcount
    && match s.conns[c].pending
       case Keep(j, u) => if j == k then u == v else k in s.conns[c].cache && s.conns[c].cache[k] == v
       case Forget(j) => j != k && k in s.conns[c].cache && s.conns[c].cache[k] == v
       case Idle => s.conns[c].built && k in s.conns[c].cache && s.conns[c].cache[k] == v
  }

  /** A connection with something cached has a property table, and is not ahead of the shared counter. */
  ghost predicate Sound(s: State) {
    && Valid(s.table) && 0 <= s.modcount
    && forall d :: d in s.conns ==> s.conns[d].synced <= s.modcount && (!s.conns[d].built ==> s.conns[d].cache == map[])
  }

  lemma SoundReader(s: State, op: Op, live: set<ZObject>, out: Outcome, s': State)
    requires Sound(s) && (op.Read? || op.FullSync? || op.Export? || op.Synchronize?) && Next(s, op, live, out, s')
    ensures Sound(s')
  {
    match op
    case Read(c, k, mode) => ReadEffect(s, c, k, mode, live, out, s');
    case FullSync(c) => FullSyncEffect(s, c, live, out, s');
    case Export(c) => ExportEffect(s, c, live, out, s');
    case Synchronize(c) => SynchronizeEffect(s, c, live, out, s');
  }

  lemma SoundTaker(s: State, op: Op, live: set<ZObject>, out: Outcome, s': State)
    requires Sound(s) && (op.Shift? || op.Pop? || op.Chunk?) && Next(s, op, live, out, s')
    ensures Sound(s')
  {
    TakeEffect(s, op, live, out, s');
    TakenValid(s, op, live, out, s');
    assert forall d :: d in s'.conns && d != op.c ==> s'.conns[d] == s.conns[d];
  }

  lemma SoundWriter(s: State, op: Op, live: set<ZObject>, out: Outcome, s': State)
    requires Sound(s) && (op.Write? || op.Delete?) && Next(s, op, live, out, s')
    ensures Sound(s')
  {
    match op
    case Write(c, k, v) =>
      WriteEffect(s, c, k, v, live, out, s');
      SavedValid(s, c, k, v, live, out, s');
    case Delete(c, k) =>
      DeleteEffect(s, c, k, live, out, s');
      DelValid(s.table, k);
  }

  lemma SoundMerge(s: State, op: Op, live: set<ZObject>, out: Outcome, s': State)
    requires Sound(s) && op.Merge? && Next(s, op, live, out, s')
    ensures Sound(s')
  {
    MergeEffect(s, op.c, op.src, op.overwrite, live, out, s');
    MergeNext(s, op.c, op.src, op.overwrite, live, out, s');
    MergeSlots(s.table, op.src, op.overwrite);
  }

  lemma SoundOther(s: State, op: Op, live: set<ZObject>, out: Outcome, s': State)
    requires Sound(s) && (op.Finish? || op.Free? || op.Connect?) && Next(s, op, live, out, s')
    ensures Sound(s')
  {
    match op
    case Free(c) => FreeEffect(s, c, live, out, s');
    case Finish(c) => FinishEffect(s, c, live, out, s');
    case Connect(c, thread) => ConnectEffect(s, c, thread, live, out, s');
  }

  lemma SoundStep(s: State, op: Op, live: set<ZObject>, out: Outcome, s': State)
    requires Sound(s) && Next(s, op, live, out, s')
    ensures Sound(s')
  {
    if op.Read? || op.FullSync? || op.Export? || op.Synchronize? {
      SoundReader(s, op, live, out, s');
    } else if op.Shift? || op.Pop? || op.Chunk? {
      SoundTaker(s, op, live, out, s');
    } else if op.Write? || op.Delete? {
      SoundWriter(s, op, live, out, s');
    } else if op.Merge? {
      SoundMerge(s, op, live, out, s');
    } else {
      SoundOther(s, op, live, out, s');
    }
  }

  /** A plain sync prunes the cache, or does nothing when it is up to date. */
  lemma SynchronizeEffect(s: State, c: ConnId, live: set<ZObject>, out: Outcome, s': State)
    requires Next(s, Synchronize(c), live, out, s')
    ensures OthersStay(s, c, live, s') && s'.table == s.table && s'.modcount == s.modcount
    ensures var (b, a) := (s.conns[c], s'.conns[c]);
            && a == b.(cache := a.cache, synced := s.modcount)
            && if b.synced == s.modcount then a.cache == b.cache else Pruned(s.table, b.thread, live, b.cache, a.cache)
  {
    NotedIs(s, live);
    SyncExact(At(s, c), live);
  }

  lemma SavedValid(s: State, c: ConnId, k: Key, v: Value, live: set<ZObject>, out: Outcome, s': State)
    requires Valid(s.table) && Next(s, Write(c, k, v), live, out, s')
    ensures Valid(s'.table)
  {
    if Save(s.conns[c].thread, v).Some? {
      PutValid(s.table, k, Save(s.conns[c].thread, v).value);
    }
  }

  lemma TakenValid(s: State, op: Op, live: set<ZObject>, out: Outcome, s': State)
    requires Valid(s.table) && (op.Shift? || op.Pop? || op.Chunk?) && Next(s, op, live, out, s')
    ensures Valid(s'.table)
  {
    Taken(s, op, live, out, s');
    if op.Chunk? {
      DropFirstValid(s.table, ChunkSize(s.table, op.n));
    } else if s.table.order != [] {
      DropFirstValid(s.table, 1);
      DropLastValid(s.table);
    }
  }

  /** The slot under k stays. */
  lemma SlotStays(s: State, op: Op, live: set<ZObject>, out: Outcome, s': State, c: ConnId, k: Key, z: ZObject)
    requires Sound(s) && Next(s, op, live, out, s') && LeavesAlone(s, op, c, k)
    requires k in s.table.slots && s.table.slots[k] == ThreadedSlot(z)
    ensures k in s'.table.slots && s'.table.slots[k] == ThreadedSlot(z) && s.modcount <= s'.modcount
  {
    if op.Shift? || op.Pop? || op.Chunk? {
      TakenSlotStays(s, op, live, out, s', c, k, z);
    } else if op.Write? || op.Delete? || op.Merge? {
      WrittenSlotStays(s, op, live, out, s', c, k, z);
    } else {
      OtherSlotStays(s, op, live, out, s', k, z);
    }
  }

  lemma TakenSlotStays(s: State, op: Op, live: set<ZObject>, out: Outcome, s': State, c: ConnId, k: Key, z: ZObject)
    requires Sound(s) && Next(s, op, live, out, s') && LeavesAlone(s, op, c, k)
    requires (op.Shift? || op.Pop? || op.Chunk?) && k in s.table.slots && s.table.slots[k] == ThreadedSlot(z)
    ensures k in s'.table.slots && s'.table.slots[k] == ThreadedSlot(z) && s.modcount <= s'.modcount
  {
    TakeEffect(s, op, live, out, s');
    assert k !in KeySet(TakenKeys(s, op));
  }

  lemma WrittenSlotStays(s: State, op: Op, live: set<ZObject>, out: Outcome, s': State, c: ConnId, k: Key, z: ZObject)
    requires Sound(s) && Next(s, op, live, out, s') && LeavesAlone(s, op, c, k)
    requires (op.Write? || op.Delete? || op.Merge?) && k in s.table.slots && s.table.slots[k] == ThreadedSlot(z)
    ensures k in s'.table.slots && s'.table.slots[k] == ThreadedSlot(z) && s.modcount <= s'.modcount
  {
    match op
    case Write(d, j, v) => WriteEffect(s, d, j, v, live, out, s');
    case Delete(d, j) => DeleteEffect(s, d, j, live, out, s');
    case Merge(d, src, overwrite) => MergeEffect(s, d, src, overwrite, live, out, s');
  }

  lemma OtherSlotStays(s: State, op: Op, live: set<ZObject>, out: Outcome, s': State, k: Key, z: ZObject)
    requires Sound(s) && Next(s, op, live, out, s')
    requires !op.Shift? && !op.Pop? && !op.Chunk? && !op.Write? && !op.Delete? && !op.Merge?
    requires k in s.table.slots && s.table.slots[k] == ThreadedSlot(z)
    ensures k in s'.table.slots && s'.table.slots[k] == ThreadedSlot(z) && s.modcount <= s'.modcount
  {
    match op
    case Free(d) => FreeEffect(s, d, live, out, s');
    case Connect(d, thread) => ConnectEffect(s, d, thread, live, out, s');
    case Finish(d) => FinishEffect(s, d, live, out, s');
    case Read(d, j, mode) => ReadEffect(s, d, j, mode, live, out, s');
    case FullSync(d) => FullSyncEffect(s, d, live, out, s');
    case Export(d) => ExportEffect(s, d, live, out, s');
    case Synchronize(d) => SynchronizeEffect(s, d, live, out, s');
  }

  /** The connection's own steps keep what it has under k. */
  lemma OwnStays(s: State, op: Op, live: set<ZObject>, out: Outcome, s': State, c: ConnId, k: Key, v: Value, z: ZObject)
    requires Sound(s) && Next(s, op, live, out, s') && LeavesAlone(s, op, c, k) && op.c == c && !op.Connect?
    requires HasObject(s, c, k, v, z) && (v.z == z || z in live)
    ensures HasObject(s', c, k, v, z)
  {
    SlotStays(s, op, live, out, s', c, k, z);
    SoundStep(s, op, live, out, s');
    if op.Finish? {
      FinishEffect(s, c, live, out, s');
    } else {
      assert s.conns[c].pending.Idle?;
      OwnCacheStays(s, op, live, out, s', c, k, v, z);
    }
  }

  lemma OwnCacheStays(s: State, op: Op, live: set<ZObject>, out: Outcome, s': State, c: ConnId, k: Key, v: Value,
                      z: ZObject)
    requires Sound(s) && Next(s, op, live, out, s') && LeavesAlone(s, op, c, k) && op.c == c
    requires !op.Connect? && !op.Finish? && s.conns[c].pending.Idle?
    requires HasObject(s, c, k, v, z) && (v.z == z || z in live)
    requires k in s'.table.slots && s'.table.slots[k] == ThreadedSlot(z)
    ensures c in s'.conns && s'.conns[c].built && k in s'.conns[c].cache && s'.conns[c].cache[k] == v
    ensures match s'.conns[c].pending case Keep(j, _) => j != k case Forget(j) => j != k case Idle => true
  {
    if op.Write? || op.Delete? || op.Merge? {
      WriterCacheStays(s, op, live, out, s', c, k, v, z);
    } else if op.Shift? || op.Pop? || op.Chunk? {
      TakeEffect(s, op, live, out, s');
    } else {
      ReaderCacheStays(s, op, live, out, s', c, k, v, z);
    }
  }

  lemma WriterCacheStays(s: State, op: Op, live: set<ZObject>, out: Outcome, s': State, c: ConnId, k: Key, v: Value,
                         z: ZObject)
    requires Sound(s) && Next(s, op, live, out, s') && LeavesAlone(s, op, c, k) && op.c == c
    requires (op.Write? || op.Delete? || op.Merge?) && s.conns[c].pending.Idle?
    requires HasObject(s, c, k, v, z) && (v.z == z || z in live)
    requires k in s'.table.slots && s'.table.slots[k] == ThreadedSlot(z)
    ensures c in s'.conns && s'.conns[c].built && k in s'.conns[c].cache && s'.conns[c].cache[k] == v
    ensures match s'.conns[c].pending case Keep(j, _) => j != k case Forget(j) => j != k case Idle => true
  {
    match op
    case Write(d, j, u) => WriteEffect(s, d, j, u, live, out, s');
    case Delete(d, j) => DeleteEffect(s, d, j, live, out, s');
    case Merge(d, src, overwrite) => MergeEffect(s, d, src, overwrite, live, out, s');
  }

  lemma ReaderCacheStays(s: State, op: Op, live: set<ZObject>, out: Outcome, s': State, c: ConnId, k: Key, v: Value,
                         z: ZObject)
    requires Sound(s) && Next(s, op, live, out, s') && LeavesAlone(s, op, c, k) && op.c == c
    requires (op.Read? || op.FullSync? || op.Export? || op.Synchronize? || op.Free?) && s.conns[c].pending.Idle?
    requires HasObject(s, c, k, v, z) && (v.z == z || z in live)
    requires k in s'.table.slots && s'.table.slots[k] == ThreadedSlot(z)
    ensures c in s'.conns && s'.conns[c].built && k in s'.conns[c].cache && s'.conns[c].cache[k] == v
    ensures match s'.conns[c].pending case Keep(j, _) => j != k case Forget(j) => j != k case Idle => true
  {
    match op
    case Read(d, j, mode) => ReadEffect(s, d, j, mode, live, out, s');
    case FullSync(d) => FullSyncEffect(s, d, live, out, s');
    case Export(d) => ExportEffect(s, d, live, out, s');
    case Synchronize(d) => SynchronizeEffect(s, d, live, out, s');
    case Free(_) =>
  }

  /** Nobody else's steps touch the connection. */
  lemma OtherStays(s: State, op: Op, live: set<ZObject>, out: Outcome, s': State, c: ConnId)
    requires Next(s, op, live, out, s') && c in s.conns && (op.c != c || op.Connect?)
    ensures c in s'.conns && s'.conns[c] == s.conns[c]
  {
    if !op.Connect? && !op.Free? && !op.Finish? {
      var x' := SomeView(Noted(s, live), op, live, out, s');
    }
  }

  lemma SomeView(s: State, op: Op, live: set<ZObject>, out: Outcome, s': State) returns (x': View)
    requires op.c in s.conns && !op.Free? && LockedStep(s, op, live, out, s')
    ensures s' == Install(s, op.c, x')
  {
    x' := View(s'.table, s'.modcount, s'.conns[op.c]);
    assert s'.conns == s.conns[op.c := s'.conns[op.c]];
  }

  lemma StepKeepsObject(s: State, e: Event, s': State, c: ConnId, k: Key, v: Value, z: ZObject)
    requires Sound(s) && Next(s, e.op, e.live, e.out, s') && LeavesAlone(s, e.op, c, k)
    requires HasObject(s, c, k, v, z) && (v.z == z || z in e.live)
    ensures Sound(s') && HasObject(s', c, k, v, z)
  {
    SoundStep(s, e.op, e.live, e.out, s');
    SlotStays(s, e.op, e.live, e.out, s', c, k, z);
    if e.op.c == c && !e.op.Connect? {
      OwnStays(s, e.op, e.live, e.out, s', c, k, v, z);
    } else {
      OtherStays(s, e.op, e.live, e.out, s', c);
    }
  }

  /**
   Over every run: as long as nobody stores or removes anything under k, a connection that has an
   object there keeps that very object, whatever it and others do to other keys, unless it is somebody
   else's object that is destroyed.
   */
  lemma {:induction false} CachedObjectStays(ss: seq<State>, es: seq<Event>, c: ConnId, k: Key, v: Value, z: ZObject)
    requires Run(ss, es) && Sound(ss[0]) && HasObject(ss[0], c, k, v, z)
    requires forall i :: 0 <= i < |es| ==> LeavesAlone(ss[i], es[i].op, c, k) && (v.z == z || z in es[i].live)
    ensures Sound(ss[|es|]) && HasObject(ss[|es|], c, k, v, z)
    decreases |es|
  {
    if es != [] {
      var n := |es| - 1;
      RunPrefix(ss, es);
      assert ss[..|es|][n] == ss[n] && ss[..|es|][0] == ss[0];
      forall i | 0 <= i < n
        ensures LeavesAlone(ss[..|es|][i], es[..n][i].op, c, k)
      {
        assert ss[..|es|][i] == ss[i] && es[..n][i] == es[i];
      }
      CachedObjectStays(ss[..|es|], es[..n], c, k, v, z);
      StepKeepsObject(ss[n], es[n], ss[n + 1], c, k, v, z);
    }
  }

  /**
   So a connection that reads an object, and reads it again later in such a run, is answered the very
   same value.
   */
  lemma ReadsSameObject(ss: seq<State>, es: seq<Event>, c: ConnId, k: Key, v: Value, z: ZObject)
    requires Run(ss, es) && |es| >= 2 && Sound(ss[0])
    requires k in ss[0].table.slots && ss[0].table.slots[k] == ThreadedSlot(z) && v.Object?
    requires es[0].op.Read? && es[0].op.c == c && es[0].op.k == k && es[0].out == Got(v)
    requires es[|es| - 1].op.Read? && es[|es| - 1].op.c == c && es[|es| - 1].op.k == k
    requires HasObject(ss[1], c, k, v, z)
    requires forall i :: 1 <= i < |es| ==> LeavesAlone(ss[i], es[i].op, c, k) && (v.z == z || z in es[i].live)
    ensures es[|es| - 1].out == Got(v)
  {
    var n := |es| - 1;
    var (rs, fs) := (ss[1..n + 1], es[1..n]);
    forall i | 0 <= i < |fs|
      ensures StepAt(rs, fs, i)
      ensures LeavesAlone(rs[i], fs[i].op, c, k) && (v.z == z || z in fs[i].live)
    {
      assert StepAt(ss, es, i + 1);
    }
    assert StepAt(ss, es, 0) && StepAt(ss, es, n);
    SoundStep(ss[0], es[0].op, es[0].live, es[0].out, ss[1]);
    CachedObjectStays(rs, fs, c, k, v, z);
    assert rs[|fs|] == ss[n];
    ReadEffect(ss[n], c, k, es[n].op.mode, es[n].live, es[n].out, ss[n + 1]);
  }

  /** A read that answers a registered object leaves the connection with it, so the law above applies. */
  lemma ReadHasObject(s: State, c: ConnId, k: Key, mode: Mode, live: set<ZObject>, out: Outcome, s': State, z: ZObject)
    requires Sound(s) && Next(s, Read(c, k, mode), live, out, s')
    requires k in s.table.slots && s.table.slots[k] == ThreadedSlot(z) && z in live
    requires k !in s.conns[c].cache
    ensures out.Got? && out.v.Object? && HasObject(s', c, k, out.v, z)
  {
    ReadEffect(s, c, k, mode, live, out, s');
  }
}
