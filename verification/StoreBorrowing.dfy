/**
 Strings are shared by pointer: a slot may borrow a string that lives on the writer's
 thread.  The pointer is good as long as some live connection of that thread still holds
 the string in its cache, or is just about to.
 */
module StoreBorrowing {
  import opened Wrappers
  import opened OrderedTable
  import opened Store
  import opened StoreCoherence

  /** Connection d keeps string p alive under key k. */
  predicate Keeps(s: State, d: ConnId, k: Key, p: StringPtr, t: ThreadId) {
    && d in s.conns
    && s.conns[d].thread == t
    && k in Effective(s.conns[d])
    && Effective(s.conns[d])[k] == Str(p)
  }

  predicate Borrows(s: State, k: Key, p: StringPtr, t: ThreadId) {
    k in s.table.slots && s.table.slots[k] == BorrowedString(p, t)
  }

  /** Every lent string has a holder on its owner's thread; a permanent one cannot die and needs none. */
  ghost predicate Held(s: State) {
    && Valid(s.table)
    && forall k, p, t :: Borrows(s, k, p, t) && !p.permanent ==> exists d :: Keeps(s, d, k, p, t)
  }

  /** A reference to a string that can die is stored by pointer, but never enters the writer's cache. */
  ghost predicate LosesOwner(s: State, op: Op)
    requires op.c in s.conns
  {
    && op.Write?
    && var t := s.conns[op.c].thread;
       && op.v.Reference?
       && Core(op.v).Str? && !Core(op.v).p.permanent
       && !exists d :: Keeps(s, d, op.k, Core(op.v).p, t)
  }

  lemma {:induction false} SavedBorrow(owner: ThreadId, v: Value, p: StringPtr, t: ThreadId)
    requires Save(owner, v) == Some(BorrowedString(p, t)) || Create(owner, v) == Some(BorrowedString(p, t))
    ensures t == owner && Core(v) == Str(p)
  {
    if v.Reference? {
      SavedBorrow(owner, v.to, p, t);
    }
  }

  lemma {:induction false} ReferenceBorrows(owner: ThreadId, v: Value)
    requires Core(v).Str?
    ensures Create(owner, v) == Some(BorrowedString(Core(v).p, owner))
  {
    if v.Reference? {
      ReferenceBorrows(owner, v.to);
    }
  }

  /** What a connection keeps survives as long as the slot does and the cache entry is not dropped. */
  lemma KeptBy(s: State, s': State, d: ConnId, k: Key, p: StringPtr, t: ThreadId)
    requires Keeps(s, d, k, p, t)
    requires d in s'.conns && s'.conns[d].thread == s.conns[d].thread
    requires k in Effective(s'.conns[d]) && Effective(s'.conns[d])[k] == Effective(s.conns[d])[k]
    ensures exists e :: Keeps(s', e, k, p, t)
  {
    assert Keeps(s', d, k, p, t);
  }

  /** A locked section that forgets no entry whose slot stays as it was keeps all borrowed strings held. */
  lemma InstallHeld(s: State, c: ConnId, x: View)
    requires Held(s) && c in s.conns && Valid(x.table)
    requires x.conn.thread == s.conns[c].thread
    requires forall k, p, t :: k in x.table.slots && x.table.slots[k] == BorrowedString(p, t) ==>
               Borrows(s, k, p, t)
    requires forall k, p, t ::
               k in x.table.slots && x.table.slots[k] == BorrowedString(p, t) && Keeps(s, c, k, p, t) ==>
                 k in Effective(x.conn) && Effective(x.conn)[k] == Str(p)
    ensures Held(Install(s, c, x))
  {
    var s' := Install(s, c, x);
    forall k, p, t | Borrows(s', k, p, t) && !p.permanent
      ensures exists d :: Keeps(s', d, k, p, t)
    {
      assert Borrows(s, k, p, t);
      var d :| Keeps(s, d, k, p, t);
      KeptBy(s, s', d, k, p, t);
    }
  }

  lemma SyncHeld(s: State, c: ConnId, live: set<ZObject>, k: Key, p: StringPtr, t: ThreadId)
    requires c in s.conns && s.conns[c].pending.Idle? && Keeps(s, c, k, p, t) && Borrows(s, k, p, t)
    ensures var y := Sync(At(s, c), live); k in y.conn.cache && y.conn.cache[k] == Str(p)
  {
  }

  lemma WriteHeld(s: State, c: ConnId, key: Key, v: Value, live: set<ZObject>)
    requires Held(s) && c in s.conns && s.conns[c].pending.Idle?
    requires Save(s.conns[c].thread, v).Some?
    ensures var s' := Install(s, c, WriteSection(At(s, c), key, v, Save(s.conns[c].thread, v).value, live));
            Held(s') <==> !LosesOwner(s, Write(c, key, v))
  {
    if LosesOwner(s, Write(c, key, v)) {
      WriteLoses(s, c, key, v, live);
    } else {
      WriteHolds(s, c, key, v, live);
    }
  }

  lemma WriteLoses(s: State, c: ConnId, key: Key, v: Value, live: set<ZObject>)
    requires c in s.conns && s.conns[c].pending.Idle? && Save(s.conns[c].thread, v).Some?
    requires LosesOwner(s, Write(c, key, v))
    ensures !Held(Install(s, c, WriteSection(At(s, c), key, v, Save(s.conns[c].thread, v).value, live)))
  {
    var thread := s.conns[c].thread;
    var y := WriteSection(At(s, c), key, v, Save(thread, v).value, live);
    var s' := Install(s, c, y);
    var p := Core(v).p;
    ReferenceBorrows(thread, v);
    assert Borrows(s', key, p, thread);
    forall d
      ensures !Keeps(s', d, key, p, thread)
    {
      if Keeps(s', d, key, p, thread) {
        if d == c {
          assert Effective(y.conn) == y.conn.cache;
          assert key in s.conns[c].cache && s.conns[c].cache[key] == Str(p);
        }
        assert Keeps(s, d, key, p, thread);
      }
    }
  }

  lemma WriteHolds(s: State, c: ConnId, key: Key, v: Value, live: set<ZObject>)
    requires Held(s) && c in s.conns && s.conns[c].pending.Idle? && Save(s.conns[c].thread, v).Some?
    requires !LosesOwner(s, Write(c, key, v))
    ensures Held(Install(s, c, WriteSection(At(s, c), key, v, Save(s.conns[c].thread, v).value, live)))
  {
    var slot := Save(s.conns[c].thread, v).value;
    var s' := Install(s, c, WriteSection(At(s, c), key, v, slot, live));
    PutValid(s.table, key, slot);
    forall k, p, t | Borrows(s', k, p, t) && !p.permanent
      ensures exists d :: Keeps(s', d, k, p, t)
    {
      if k == key {
        WriteHeldAtKey(s, c, key, v, live, p, t);
      } else {
        assert Borrows(s, k, p, t);
        var d :| Keeps(s, d, k, p, t);
        KeptBy(s, s', d, k, p, t);
      }
    }
  }

  lemma WriteHeldAtKey(s: State, c: ConnId, key: Key, v: Value, live: set<ZObject>, p: StringPtr, t: ThreadId)
    requires Held(s) && c in s.conns && s.conns[c].pending.Idle?
    requires Save(s.conns[c].thread, v) == Some(BorrowedString(p, t)) && !p.permanent
    requires !LosesOwner(s, Write(c, key, v))
    ensures var s' := Install(s, c, WriteSection(At(s, c), key, v, BorrowedString(p, t), live));
            exists d :: Keeps(s', d, key, p, t)
  {
    var y := WriteSection(At(s, c), key, v, BorrowedString(p, t), live);
    var s' := Install(s, c, y);
    SavedBorrow(s.conns[c].thread, v, p, t);
    if v.Reference? {
      var d :| Keeps(s, d, key, p, t);
      if d == c {
        assert key in y.conn.cache && y.conn.cache[key] == Str(p);
      }
      assert Keeps(s', d, key, p, t);
    } else {
      assert v == Str(p);
      assert Keeps(s', c, key, p, t);
    }
  }

  lemma RemoveHeld(s: State, c: ConnId, rest: Table<Slot>, keys: set<Key>)
    requires Held(s) && c in s.conns && s.conns[c].pending.Idle?
    requires Valid(rest) && rest.slots == s.table.slots - keys
    ensures Held(Install(s, c, RemoveSection(At(s, c), rest, keys)))
  {
    var y := RemoveSection(At(s, c), rest, keys);
    assert y.conn.cache == s.conns[c].cache - keys && y.conn.pending.Idle? && y.table == rest;
    InstallHeld(s, c, y);
  }

  /** Merging stores hard copies only: no borrowed pointer enters the destination. */
  lemma MergeHeld(s: State, c: ConnId, src: Table<Slot>, overwrite: bool)
    requires Held(s) && c in s.conns && s.conns[c].pending.Idle? && Valid(src)
    ensures var s' := Install(s, c, MergeSection(At(s, c), src, overwrite));
            && Held(s')
            && forall k, p, t :: Borrows(s', k, p, t) ==> Borrows(s, k, p, t) && k !in Merged(s.table, src, overwrite)
  {
    var y := MergeSection(At(s, c), src, overwrite);
    MergeSlots(s.table, src, overwrite);
    forall k, p, t | k in y.table.slots && y.table.slots[k] == BorrowedString(p, t)
      ensures Borrows(s, k, p, t) && k !in Merged(s.table, src, overwrite)
    {
      assert Lookup(y.table, k) == Some(BorrowedString(p, t));
      assert Lookup(s.table, k) == Lookup(y.table, k);
    }
    assert y.conn.cache == s.conns[c].cache - Merged(s.table, src, overwrite) && y.conn.pending.Idle?;
    InstallHeld(s, c, y);
  }

  /** Freeing a connection first turns everything its thread lent into persistent copies. */
  lemma FreeHeld(s: State, c: ConnId)
    requires Held(s) && c in s.conns
    ensures var s' := State(PersistTable(s.table, s.conns[c].thread), s.modcount, s.conns - {c}, s.gone);
            && Held(s')
            && forall k, p :: !Borrows(s', k, p, s.conns[c].thread)
  {
    var thread := s.conns[c].thread;
    var s' := State(PersistTable(s.table, thread), s.modcount, s.conns - {c}, s.gone);
    assert s'.table.slots.Keys == s.table.slots.Keys;
    forall k, p, t | Borrows(s', k, p, t)
      ensures t != thread && (!p.permanent ==> exists d :: Keeps(s', d, k, p, t))
    {
      assert Borrows(s, k, p, t);
      if !p.permanent {
        var d :| Keeps(s, d, k, p, t);
        KeptBy(s, s', d, k, p, t);
      }
    }
  }

  lemma ReadHeld(s: State, c: ConnId, key: Key, mode: Mode, live: set<ZObject>, out: Outcome, x': View)
    requires Held(s) && c in s.conns && s.conns[c].pending.Idle?
    requires !s.conns[c].built ==> s.conns[c].cache == map[]
    requires ReadStep(At(s, c), key, mode, live, out, x')
    ensures Held(Install(s, c, x'))
  {
    forall k, p, t | Borrows(s, k, p, t) && Keeps(s, c, k, p, t)
      ensures k in Effective(x'.conn) && Effective(x'.conn)[k] == Str(p)
    {
      SyncHeld(s, c, live, k, p, t);
    }
    InstallHeld(s, c, x');
  }

  lemma ExportHeld(s: State, c: ConnId, live: set<ZObject>, x': View)
    requires Held(s) && c in s.conns && s.conns[c].pending.Idle?
    requires ExportStep(At(s, c), live, x')
    ensures Held(Install(s, c, x'))
  {
    forall k, p, t | Borrows(s, k, p, t) && Keeps(s, c, k, p, t)
      ensures k in Effective(x'.conn) && Effective(x'.conn)[k] == Str(p)
    {
      SyncHeld(s, c, live, k, p, t);
    }
    InstallHeld(s, c, x');
  }

  lemma FullSyncHeld(s: State, c: ConnId, live: set<ZObject>, x': View)
    requires Held(s) && c in s.conns && s.conns[c].pending.Idle?
    requires FullSyncStep(At(s, c), live, x')
    ensures Held(Install(s, c, x'))
  {
    forall k, p, t | Borrows(s, k, p, t) && Keeps(s, c, k, p, t)
      ensures k in Effective(x'.conn) && Effective(x'.conn)[k] == Str(p)
    {
      SyncHeld(s, c, live, k, p, t);
    }
    InstallHeld(s, c, x');
  }

  lemma FinishHeld(s: State, c: ConnId)
    requires Held(s) && c in s.conns
    ensures Held(s.(conns := s.conns[c := FinishConn(s.conns[c])]))
  {
    var s' := s.(conns := s.conns[c := FinishConn(s.conns[c])]);
    assert Effective(s'.conns[c]) == Effective(s.conns[c]);
    forall k, p, t | Borrows(s', k, p, t) && !p.permanent
      ensures exists d :: Keeps(s', d, k, p, t)
    {
      assert Borrows(s, k, p, t);
      var d :| Keeps(s, d, k, p, t);
      KeptBy(s, s', d, k, p, t);
    }
  }

  lemma DeleteHeld(s: State, c: ConnId, k: Key)
    requires Held(s) && c in s.conns && s.conns[c].pending.Idle?
    ensures Held(Install(s, c, DeleteSection(At(s, c), k)))
  {
    DelValid(s.table, k);
    InstallHeld(s, c, DeleteSection(At(s, c), k));
  }

  lemma EndsHeld(s: State, c: ConnId)
    requires Held(s) && c in s.conns && s.conns[c].pending.Idle?
    ensures Held(Install(s, c, ShiftSection(At(s, c))))
    ensures Held(Install(s, c, PopSection(At(s, c))))
  {
    if s.table.order == [] {
      assert Install(s, c, At(s, c)) == s;
    } else {
      var k, l := s.table.order[0], s.table.order[|s.table.order| - 1];
      assert s.table.order[..1] == [k] && KeySet(s.table.order[..1]) == {k};
      DropFirstValid(s.table, 1);
      DropLastValid(s.table);
      RemoveHeld(s, c, DropFirst(s.table, 1), {k});
      RemoveHeld(s, c, DropLast(s.table), {l});
    }
  }

  ghost predicate Unbuilt(s: State) {
    forall c :: c in s.conns && !s.conns[c].built ==> s.conns[c].cache == map[]
  }

  lemma NotedHeld(s: State, live: set<ZObject>)
    requires Held(s)
    ensures Held(Noted(s, live))
  {
    var n := Noted(s, live);
    forall k, p, t | Borrows(n, k, p, t) && !p.permanent
      ensures exists d :: Keeps(n, d, k, p, t)
    {
      assert Borrows(s, k, p, t);
      var d :| Keeps(s, d, k, p, t);
      assert Keeps(n, d, k, p, t);
    }
  }

  lemma NotedLoses(s: State, live: set<ZObject>, op: Op)
    requires op.c in s.conns
    ensures LosesOwner(Noted(s, live), op) <==> LosesOwner(s, op)
  {
    if op.Write? {
      var t := s.conns[op.c].thread;
      forall d, p
        ensures Keeps(Noted(s, live), d, op.k, p, t) <==> Keeps(s, d, op.k, p, t)
      {
      }
    }
  }

  /** One step, of any kind, keeps every borrowed string held, unless it writes a reference to an unheld string. */
  lemma StepHeld(s: State, op: Op, live: set<ZObject>, out: Outcome, s': State)
    requires Held(s) && Unbuilt(s) && Next(s, op, live, out, s')
    ensures Unbuilt(s')
    ensures op.Connect? ==> Held(s')
    ensures !op.Connect? ==> op.c in s.conns && (Held(s') <==> !LosesOwner(s, op))
  {
    UnbuiltStep(s, op, live, out, s');
    if op.Connect? {
      ConnectHeld(s, op.c, op.thread, s');
    } else if op.Finish? {
      FinishHeld(s, op.c);
    } else {
      NotedHeld(s, live);
      NotedLoses(s, live, op);
      LockedHeld(Noted(s, live), op, live, out, s');
    }
  }

  lemma LockedHeld(s: State, op: Op, live: set<ZObject>, out: Outcome, s': State)
    requires Held(s) && Unbuilt(s) && op.c in s.conns && s.conns[op.c].pending.Idle?
    requires LockedStep(s, op, live, out, s')
    ensures Held(s') <==> !LosesOwner(s, op)
  {
    if op.Write? {
      WriteStepHeld(s, op, live, out, s');
    } else if op.Read? || op.Export? || op.FullSync? || op.Synchronize? {
      ReaderHeld(s, op, live, out, s');
    } else {
      OtherStepHeld(s, op, live, out, s');
    }
  }

  lemma ConnectHeld(s: State, c: ConnId, thread: ThreadId, s': State)
    requires Held(s) && c !in s.conns && s'.table == s.table
    requires forall d :: d in s.conns ==> d in s'.conns && s'.conns[d] == s.conns[d]
    ensures Held(s')
  {
    forall k, p, t | Borrows(s', k, p, t) && !p.permanent
      ensures exists d :: Keeps(s', d, k, p, t)
    {
      assert Borrows(s, k, p, t);
      var d :| Keeps(s, d, k, p, t);
      KeptBy(s, s', d, k, p, t);
    }
  }

  lemma WriteStepHeld(s: State, op: Op, live: set<ZObject>, out: Outcome, s': State)
    requires Held(s) && op.Write? && op.c in s.conns && s.conns[op.c].pending.Idle?
    requires LockedStep(s, op, live, out, s')
    ensures Held(s') <==> !LosesOwner(s, op)
  {
    if Save(s.conns[op.c].thread, op.v).Some? {
      WriteHeld(s, op.c, op.k, op.v, live);
    } else if LosesOwner(s, op) {
      ReferenceBorrows(s.conns[op.c].thread, op.v);
      assert false;
    }
  }

  lemma ReaderHeld(s: State, op: Op, live: set<ZObject>, out: Outcome, s': State)
    requires Held(s) && Unbuilt(s) && op.c in s.conns && s.conns[op.c].pending.Idle?
    requires op.Read? || op.Export? || op.FullSync? || op.Synchronize?
    requires LockedStep(s, op, live, out, s')
    ensures Held(s')
  {
    match op
    case Read(c, k, mode) =>
      var x' :| ReadStep(At(s, c), k, mode, live, out, x') && s' == Install(s, c, x');
      ReadHeld(s, c, k, mode, live, out, x');
    case Export(c) =>
      var x' :| ExportStep(At(s, c), live, x') && s' == Install(s, c, x');
      ExportHeld(s, c, live, x');
    case FullSync(c) =>
      var x' :| FullSyncStep(At(s, c), live, x') && s' == Install(s, c, x');
      FullSyncHeld(s, c, live, x');
    case Synchronize(c) => SynchronizeHeld(s, c, live);
  }

  lemma OtherStepHeld(s: State, op: Op, live: set<ZObject>, out: Outcome, s': State)
    requires Held(s) && op.c in s.conns && s.conns[op.c].pending.Idle?
    requires !op.Write? && !op.Read? && !op.Export? && !op.FullSync? && !op.Synchronize?
    requires LockedStep(s, op, live, out, s')
    ensures Held(s')
  {
    match op
    case Delete(c, k) => DeleteHeld(s, c, k);
    case Shift(c) => EndsHeld(s, c);
    case Pop(c) => EndsHeld(s, c);
    case Chunk(c, n) => ChunkHeld(s, c, n);
    case Merge(c, src, overwrite) => MergeHeld(s, c, src, overwrite);
    case Free(c) => FreeHeld(s, c);
  }

  lemma ChunkHeld(s: State, c: ConnId, n: int)
    requires Held(s) && c in s.conns && s.conns[c].pending.Idle?
    ensures Held(Install(s, c, ChunkSection(At(s, c), n)))
  {
    var m := ChunkSize(s.table, n);
    DropFirstValid(s.table, m);
    RemoveHeld(s, c, DropFirst(s.table, m), KeySet(s.table.order[..m]));
  }

  lemma SynchronizeHeld(s: State, c: ConnId, live: set<ZObject>)
    requires Held(s) && c in s.conns && s.conns[c].pending.Idle?
    ensures Held(Install(s, c, Sync(At(s, c), live)))
  {
    InstallHeld(s, c, Sync(At(s, c), live));
  }

  lemma UnbuiltStep(s: State, op: Op, live: set<ZObject>, out: Outcome, s': State)
    requires Unbuilt(s) && Next(s, op, live, out, s')
    ensures Unbuilt(s')
  {
    if op.Connect? || op.Finish? {
      assert forall d :: d in s.conns && d != op.c ==> d in s'.conns && s'.conns[d] == s.conns[d];
    } else if op.Free? {
      assert forall d :: d in s'.conns ==> s'.conns[d] == s.conns[d];
    } else {
      var x' := LockedView(Noted(s, live), op, live, out, s');
      assert forall d :: d in s'.conns && d != op.c ==> s'.conns[d] == s.conns[d];
    }
  }

  /** A locked step installs a view of its own connection, which has no cache unless it has a property table. */
  lemma LockedView(s: State, op: Op, live: set<ZObject>, out: Outcome, s': State) returns (x': View)
    requires op.c in s.conns && !op.Free? && LockedStep(s, op, live, out, s')
    requires !s.conns[op.c].built ==> s.conns[op.c].cache == map[]
    ensures s' == Install(s, op.c, x') && (!x'.conn.built ==> x'.conn.cache == map[])
  {
    var x := At(s, op.c);
    if op.Read? || op.Export? || op.FullSync? {
      x' := ReaderView(s, op, live, out, s');
    } else if op.Write? || op.Synchronize? || op.Delete? {
      x' := WriterView(s, op, live, out, s');
    } else {
      x' := View(s'.table, s'.modcount, s'.conns[op.c]);
      assert s'.conns == s.conns[op.c := s'.conns[op.c]];
    }
  }

  lemma ReaderView(s: State, op: Op, live: set<ZObject>, out: Outcome, s': State) returns (x': View)
    requires op.c in s.conns && (op.Read? || op.Export? || op.FullSync?) && LockedStep(s, op, live, out, s')
    requires !s.conns[op.c].built ==> s.conns[op.c].cache == map[]
    ensures s' == Install(s, op.c, x') && (!x'.conn.built ==> x'.conn.cache == map[])
  {
    match op
    case Read(c, k, mode) => x' :| ReadStep(At(s, c), k, mode, live, out, x') && s' == Install(s, c, x');
    case Export(c) => x' :| ExportStep(At(s, c), live, x') && s' == Install(s, c, x');
    case FullSync(c) => x' :| FullSyncStep(At(s, c), live, x') && s' == Install(s, c, x');
  }

  lemma WriterView(s: State, op: Op, live: set<ZObject>, out: Outcome, s': State) returns (x': View)
    requires op.c in s.conns && (op.Write? || op.Synchronize? || op.Delete?) && LockedStep(s, op, live, out, s')
    requires !s.conns[op.c].built ==> s.conns[op.c].cache == map[]
    ensures s' == Install(s, op.c, x') && (!x'.conn.built ==> x'.conn.cache == map[])
  {
    x' := View(s'.table, s'.modcount, s'.conns[op.c]);
    assert s'.conns == s.conns[op.c := s'.conns[op.c]];
  }

  // ---- The excluded write is needed ------------------------------------------------------------

  /** One write of a reference to a string, into a new object: the table lends a string that nobody holds. */
  lemma WrittenReferenceIsUnheld() returns (ss: seq<State>, es: seq<Event>)
    ensures Run(ss, es) && ss[0] == Fresh(0, 0) && |es| == 1
    ensures es[0].op == Write(0, KEY, Reference(Str(StringPtr(7, "x", false))))
    ensures Held(ss[0]) && Unbuilt(ss[0]) && !Held(ss[1]) && Borrows(ss[1], KEY, StringPtr(7, "x", false), 0)
  {
    var s := Fresh(0, 0);
    var p := StringPtr(7, "x", false);
    var op := Write(0, KEY, Reference(Str(p)));
    var s' := Install(s, 0, WriteSection(At(s, 0), KEY, Reference(Str(p)), BorrowedString(p, 0), {}));
    assert Noted(s, {}) == s;
    assert Next(s, op, {}, Silent, s');
    assert LosesOwner(s, op);
    StepHeld(s, op, {}, Silent, s');
    ss, es := [s, s'], [Event(op, {}, Silent)];
    assert StepAt(ss, es, 0);
  }

  /** Safety over whole runs: in every reachable state every borrowed string has a live holder on its owner's thread. */
  lemma {:induction false} RunHeld(ss: seq<State>, es: seq<Event>)
    requires Run(ss, es) && Held(ss[0]) && Unbuilt(ss[0])
    requires forall i :: 0 <= i < |es| && es[i].op.Write? ==> !es[i].op.v.Reference?
    ensures forall i :: 0 <= i < |ss| ==> Held(ss[i]) && Unbuilt(ss[i])
    decreases |es|
  {
    if es != [] {
      var n := |es| - 1;
      RunPrefix(ss, es);
      RunHeld(ss[..n + 1], es[..n]);
      assert ss[..n + 1][n] == ss[n];
      StepHeld(ss[n], es[n].op, es[n].live, es[n].out, ss[n + 1]);
      forall i | 0 <= i < |ss|
        ensures Held(ss[i]) && Unbuilt(ss[i])
      {
        assert i <= n ==> ss[..n + 1][i] == ss[i];
      }
    }
  }

  /** Held as Effective says means held in fact: cached now, or in the hands of the operation in progress. */
  lemma HolderIsReal(s: State, d: ConnId, k: Key, p: StringPtr, t: ThreadId)
    requires Keeps(s, d, k, p, t)
    ensures (k in s.conns[d].cache && s.conns[d].cache[k] == Str(p)) || s.conns[d].pending == Keep(k, Str(p))
  {
  }
}
