/**
 The shared property table of a threaded object and the local caches in front of it.

 A connection is one thread's handle on the object.  Every operation has a part that
 runs under the object's monitor and, for reads, writes and deletions, a part that
 touches the local cache after the monitor was released.  The second part is a
 separate step (`Finish`), so that other connections can run in between.
 */
module Store {
  import opened Wrappers
  import opened OrderedTable

  type ThreadId = nat
  type ConnId = nat

  // ---- Values ------------------------------------------------------------

  /** null, booleans, integers and floats: copied by value. */
  datatype Simple = Null | Bool(b: bool) | Long(n: int) | Double(d: real)

  // Strings and closures are immutable, so an address carries what it points at.
  datatype StringPtr = StringPtr(address: nat, text: string, permanent: bool)
  datatype ClosurePtr = ClosurePtr(address: nat, code: nat)
  /** A zend object of thread `owner`; `shared` names the thread-safe object behind it. */
  datatype ZObject = ZObject(address: nat, shared: nat, owner: ThreadId)

  /** A value on some thread. */
  datatype Value =
    | Scalar(s: Simple)
    | Str(p: StringPtr)
    | Object(z: ZObject, original: Option<ZObject>)
    | Closure(c: ClosurePtr)
    | Socket(fd: int)
    | Opaque(handle: nat)        // resource or enum case: can be stored, is never cached
    | Unsupported                // anything else
    | Reference(to: Value)

  /** What the shared table holds for a key. */
  datatype Slot =
    | Direct(s: Simple)
    | Plain(text: string)                      // permanent, persisted or hard-copied string
    | BorrowedString(p: StringPtr, owner: ThreadId)
    | ThreadedSlot(z: ZObject)
    | ClosureSlot(c: ClosurePtr)
    | SocketSlot(fd: int)
    | OpaqueSlot(handle: nat)

  /** What a value means, whichever thread looks at it. */
  datatype Content =
    | SimpleContent(s: Simple) | Text(text: string) | Threaded(shared: nat)
    | Code(code: nat) | Descriptor(fd: int) | Handle(handle: nat) | Nothing

  function ContentOf(v: Value): Content {
    match v
    case Scalar(s) => SimpleContent(s)
    case Str(p) => Text(p.text)
    case Object(z, _) => Threaded(z.shared)
    case Closure(c) => Code(c.code)
    case Socket(fd) => Descriptor(fd)
    case Opaque(h) => Handle(h)
    case Unsupported => Nothing
    case Reference(to) => ContentOf(to)
  }

  function SlotContent(s: Slot): Content {
    match s
    case Direct(s) => SimpleContent(s)
    case Plain(text) => Text(text)
    case BorrowedString(p, _) => Text(p.text)
    case ThreadedSlot(z) => Threaded(z.shared)
    case ClosureSlot(c) => Code(c.code)
    case SocketSlot(fd) => Descriptor(fd)
    case OpaqueSlot(h) => Handle(h)
  }

  /** Slots whose replacement or removal is announced through the counter. */
  predicate Cacheable(s: Slot) {
    s.ThreadedSlot? || s.ClosureSlot? || s.SocketSlot? || s.BorrowedString?
  }

  /** Values that a connection keeps in its local cache. */
  predicate Retained(v: Value) {
    v.Object? || v.Closure? || v.Socket? || v.Str?
  }

  function Create(owner: ThreadId, v: Value): Option<Slot> {
    match v
    case Reference(to) => Create(owner, to)
    case Str(p) => Some(BorrowedString(p, owner))
    case Object(z, original) => Some(ThreadedSlot(if original.Some? then original.value else z))
    case Closure(c) => Some(ClosureSlot(c))
    case Socket(fd) => Some(SocketSlot(fd))
    case Opaque(h) => Some(OpaqueSlot(h))
    case Scalar(_) => None
    case Unsupported => None
  }

  function Save(owner: ThreadId, v: Value): Option<Slot> {
    match v
    case Scalar(s) => Some(Direct(s))
    case Str(p) => if p.permanent then Some(Plain(p.text)) else Create(owner, v)
    case _ => Create(owner, v)
  }

  /** v is a value that thread t may obtain from slot s while `live` are the registered objects. */
  predicate Restores(s: Slot, t: ThreadId, live: set<ZObject>, v: Value) {
    match s
    case Direct(x) => v == Scalar(x)
    case Plain(text) => v.Str? && v.p.text == text
    case BorrowedString(p, owner) =>
      // only the thread that lent a string gets it back; others get a copy elsewhere
      v.Str? && if owner == t || p.permanent then v.p == p
                else v.p.text == p.text && v.p.address != p.address && !v.p.permanent
    case ThreadedSlot(z) =>
      // the owner gets the object itself, another thread a connection of its own that goes back to it
      if z !in live then v == Scalar(Null)
      else if z.owner == t then v == Object(z, None)
      else v.Object? && v.z.shared == z.shared && v.z.owner == t && v.original == Some(z)
    case ClosureSlot(c) => v.Closure? && v.c.code == c.code
    case SocketSlot(fd) => v == Socket(fd)
    case OpaqueSlot(h) => v == Opaque(h)
  }

  function HardCopy(s: Slot): Slot {
    if s.BorrowedString? then Plain(s.p.text) else s
  }

  function Persisted(s: Slot, t: ThreadId): Slot {
    if s.BorrowedString? && s.owner == t then Plain(s.p.text) else s
  }

  // ---- Connections and locked sections ------------------------------------

  datatype Pending =
    | Idle
    | Keep(k: Key, v: Value)    // cache the value just read or written
    | Forget(k: Key)            // drop the key just deleted

  datatype Conn = Conn(thread: ThreadId, cache: map<Key, Value>, built: bool, synced: int, pending: Pending)

  /** The cache once the unfinished part of the current operation has run. */
  function Effective(c: Conn): map<Key, Value> {
    match c.pending
    case Idle => c.cache
    case Keep(k, v) => if Retained(v) then c.cache[k := v] else c.cache
    case Forget(k) => c.cache - {k}
  }

  /** Everything a locked section can see: the shared half and one connection. */
  datatype View = View(table: Table<Slot>, modcount: int, conn: Conn)

  predicate CacheableAt(t: Table<Slot>, k: Key) {
    k in t.slots && Cacheable(t.slots[k])
  }

  predicate SyncKeeps(s: Slot, t: ThreadId, live: set<ZObject>, v: Value) {
    match s
    case ThreadedSlot(z) => v.Object? && (z == v.z || (z in live && z.shared == v.z.shared))
    case ClosureSlot(c) => v == Closure(c)
    case SocketSlot(fd) => v == Socket(fd)
    case BorrowedString(p, owner) => owner == t && v == Str(p)
    case _ => false
  }

  function SyncCache(t: Table<Slot>, thread: ThreadId, live: set<ZObject>, cache: map<Key, Value>): map<Key, Value> {
    map k | k in cache && k in t.slots && SyncKeeps(t.slots[k], thread, live, cache[k]) :: cache[k]
  }

  function Sync(x: View, live: set<ZObject>): View {
    if x.conn.synced == x.modcount then x
    else x.(conn := x.conn.(cache := SyncCache(x.table, x.conn.thread, live, x.conn.cache), synced := x.modcount))
  }

  function Bump(x: View): View {
    x.(modcount := x.modcount + 1,
       conn := if x.conn.synced == x.modcount then x.conn.(synced := x.conn.synced + 1) else x.conn)
  }

  function BumpIf(x: View, b: bool): View {
    if b then Bump(x) else x
  }

  function WriteSection(x: View, k: Key, v: Value, slot: Slot, live: set<ZObject>): View {
    var stored := x.(table := Put(x.table, k, slot));
    var synced := Sync(BumpIf(stored, CacheableAt(x.table, k)), live);
    synced.(conn := synced.conn.(pending := Keep(k, v)))
  }

  function DeleteSection(x: View, k: Key): View {
    if k !in x.table.slots then x
    else
      var y := BumpIf(x.(table := Del(x.table, k)), CacheableAt(x.table, k));
      y.(conn := y.conn.(pending := Forget(k)))
  }

  /** Removal of keys by shift, pop or chunk: table and own cache change under the monitor. */
  function RemoveSection(x: View, rest: Table<Slot>, keys: set<Key>): View {
    var y := x.(table := rest, conn := x.conn.(cache := x.conn.cache - keys));
    BumpIf(y, exists k :: k in keys && CacheableAt(x.table, k))
  }

  function ShiftSection(x: View): View {
    if x.table.order == [] then x
    else RemoveSection(x, DropFirst(x.table, 1), {x.table.order[0]})
  }

  function PopSection(x: View): View {
    if x.table.order == [] then x
    else RemoveSection(x, DropLast(x.table), {x.table.order[|x.table.order| - 1]})
  }

  function ChunkSize(t: Table<Slot>, n: int): nat {
    if n < 0 then 0 else if n < |t.order| then n else |t.order|
  }

  function ChunkSection(x: View, n: int): View {
    var m := ChunkSize(x.table, n);
    RemoveSection(x, DropFirst(x.table, m), KeySet(x.table.order[..m]))
  }

  /** The keys of the source that a merge writes. */
  function Merged(dst: Table<Slot>, src: Table<Slot>, overwrite: bool): set<Key> {
    set k | k in src.slots && (overwrite || k !in dst.slots)
  }

  function MergeTable(dst: Table<Slot>, src: Table<Slot>, overwrite: bool): Table<Slot>
    requires Valid(src)
  {
    MergeFrom(dst, src, overwrite, |src.order|)
  }

  /** The destination after the first n entries of the source were merged. */
  function MergeFrom(dst: Table<Slot>, src: Table<Slot>, overwrite: bool, n: nat): Table<Slot>
    requires Valid(src) && n <= |src.order|
  {
    if n == 0 then dst
    else
      var k := src.order[n - 1];
      assert k in KeySet(src.order);
      var d := MergeFrom(dst, src, overwrite, n - 1);
      if !overwrite && k in d.slots then d else Put(d, k, HardCopy(src.slots[k]))
  }

  function MergeSection(x: View, src: Table<Slot>, overwrite: bool): View
    requires Valid(src)
  {
    var keys := Merged(x.table, src, overwrite);
    var y := x.(table := MergeTable(x.table, src, overwrite), conn := x.conn.(cache := x.conn.cache - keys));
    BumpIf(y, exists k :: k in keys && CacheableAt(x.table, k))
  }

  function PersistTable(t: Table<Slot>, thread: ThreadId): Table<Slot> {
    t.(slots := map k | k in t.slots :: Persisted(t.slots[k], thread))
  }

  // ---- The system ----------------------------------------------------------

  datatype Mode = Fetch | Modify

  datatype Op =
    | Read(c: ConnId, k: Key, mode: Mode)
    | Write(c: ConnId, k: Key, v: Value)
    | Delete(c: ConnId, k: Key)
    | Shift(c: ConnId)
    | Pop(c: ConnId)
    | Chunk(c: ConnId, n: int)
    | Merge(c: ConnId, src: Table<Slot>, overwrite: bool)
    | Export(c: ConnId)                    // fill the own property table from the shared one
    | FullSync(c: ConnId)                  // cache every cacheable entry
    | Synchronize(c: ConnId)
    | Finish(c: ConnId)
    | Connect(c: ConnId, thread: ThreadId)
    | Free(c: ConnId)

  datatype Outcome = Silent | Failed | Got(v: Value) | Many(entries: seq<(Key, Value)>)

  /** `gone` are the objects that some step found in the table although they had been destroyed. */
  datatype State = State(table: Table<Slot>, modcount: int, conns: map<ConnId, Conn>, gone: set<ZObject>)

  /** The objects that the table refers to and that are not registered. */
  function Dead(t: Table<Slot>, live: set<ZObject>): set<ZObject> {
    set k | k in t.slots && t.slots[k].ThreadedSlot? && t.slots[k].z !in live :: t.slots[k].z
  }

  function Noted(s: State, live: set<ZObject>): State {
    s.(gone := s.gone + Dead(s.table, live))
  }

  function At(s: State, c: ConnId): View
    requires c in s.conns
  {
    View(s.table, s.modcount, s.conns[c])
  }

  function Install(s: State, c: ConnId, x: View): State {
    State(x.table, x.modcount, s.conns[c := x.conn], s.gone)
  }

  predicate ReadStep(x: View, k: Key, mode: Mode, live: set<ZObject>, out: Outcome, x': View) {
    var y := if x.conn.built then Sync(x, live) else x;
    if x.conn.built && k in y.conn.cache then
      out == Got(y.conn.cache[k]) && x' == y
    else if k in x.table.slots && (mode.Fetch? || x.table.slots[k].ThreadedSlot?) then
      && out.Got?
      && Restores(x.table.slots[k], x.conn.thread, live, out.v)
      && x' == y.(conn := y.conn.(pending := Keep(k, out.v)))
    else
      out == Failed && x' == y
  }

  predicate RestoresAll(t: Table<Slot>, keys: seq<Key>, thread: ThreadId, live: set<ZObject>, out: seq<(Key, Value)>) {
    && |out| == |keys|
    && forall i :: 0 <= i < |keys| ==>
         && out[i].0 == keys[i]
         && keys[i] in t.slots
         && Restores(t.slots[keys[i]], thread, live, out[i].1)
  }

  predicate RestoresOne(t: Table<Slot>, i: int, thread: ThreadId, live: set<ZObject>, out: Outcome) {
    if 0 <= i < |t.order| then
      out.Got? && t.order[i] in t.slots && Restores(t.slots[t.order[i]], thread, live, out.v)
    else out == Got(Scalar(Null))
  }

  /** Exporting fills every missing key and leaves the connection out of sync if it added anything. */
  predicate ExportStep(x: View, live: set<ZObject>, x': View) {
    var y := Sync(x, live);
    && x'.table == x.table && x'.modcount == x.modcount
    && x'.conn.thread == x.conn.thread && x'.conn.pending == x.conn.pending && x'.conn.built
    && x'.conn.cache.Keys == y.conn.cache.Keys + x.table.slots.Keys
    && (forall k :: k in y.conn.cache ==> x'.conn.cache[k] == y.conn.cache[k])
    && (forall k :: k in x.table.slots && k !in y.conn.cache ==>
          Restores(x.table.slots[k], x.conn.thread, live, x'.conn.cache[k]))
    && (x'.conn.synced == x.modcount - 1
        || (x'.conn.synced == y.conn.synced && x.table.slots.Keys <= y.conn.cache.Keys))
  }

  /**
   What full synchronization does to one object: it drops what is outdated and caches every
   cacheable entry that is missing, a null for an object that was destroyed.
   */
  predicate FullSyncStep(x: View, live: set<ZObject>, x': View) {
    var y := Sync(x, live);
    && x'.table == x.table && x'.modcount == x.modcount
    && x'.conn.thread == x.conn.thread && x'.conn.pending == x.conn.pending && x'.conn.built
    && x'.conn.synced == x.modcount
    && x'.conn.cache.Keys == y.conn.cache.Keys + (set k | k in x.table.slots && Cacheable(x.table.slots[k]))
    && (forall k :: k in y.conn.cache ==> x'.conn.cache[k] == y.conn.cache[k])
    && (forall k :: k in x.table.slots && Cacheable(x.table.slots[k]) && k !in y.conn.cache ==>
          Restores(x.table.slots[k], x.conn.thread, live, x'.conn.cache[k]))
  }

  function FinishConn(c: Conn): Conn {
    c.(cache := Effective(c), pending := Idle,
       built := c.built || (c.pending.Keep? && Retained(c.pending.v)))
  }

  ghost predicate Next(s: State, op: Op, live: set<ZObject>, out: Outcome, s': State) {
    if op.Connect? then
      // base_ctor leaves the counter one below that of a fresh table; connecting empties the cache
      && op.c !in s.conns && out == Silent
      && exists built: bool :: s' == s.(conns := s.conns[op.c := Conn(op.thread, map[], built, -1, Idle)])
    else if op.c !in s.conns then false
    else if op.Finish? then
      out == Silent && s' == s.(conns := s.conns[op.c := FinishConn(s.conns[op.c])])
    else if !s.conns[op.c].pending.Idle? then false
    else LockedStep(Noted(s, live), op, live, out, s')
  }

  ghost predicate LockedStep(s: State, op: Op, live: set<ZObject>, out: Outcome, s': State)
    requires op.c in s.conns
  {
    var x := At(s, op.c);
    var t := x.conn.thread;
    match op
    case Read(c, k, mode) => exists x' :: ReadStep(x, k, mode, live, out, x') && s' == Install(s, c, x')
    case Write(c, k, v) =>
      var slot := Save(t, v);
      if slot.None? then out == Failed && s' == s
      else out == Silent && s' == Install(s, c, WriteSection(x, k, v, slot.value, live))
    case Delete(c, k) =>
      out == (if k in s.table.slots then Silent else Failed) && s' == Install(s, c, DeleteSection(x, k))
    case Shift(c) =>
      RestoresOne(s.table, 0, t, live, out) && s' == Install(s, c, ShiftSection(x))
    case Pop(c) =>
      RestoresOne(s.table, |s.table.order| - 1, t, live, out) && s' == Install(s, c, PopSection(x))
    case Chunk(c, n) =>
      && out.Many?
      && RestoresAll(s.table, s.table.order[..ChunkSize(s.table, n)], t, live, out.entries)
      && s' == Install(s, c, ChunkSection(x, n))
    case Merge(c, src, overwrite) =>
      Valid(src) && out == Silent && s' == Install(s, c, MergeSection(x, src, overwrite))
    case Export(c) => out == Silent && exists x' :: ExportStep(x, live, x') && s' == Install(s, c, x')
    case FullSync(c) => out == Silent && exists x' :: FullSyncStep(x, live, x') && s' == Install(s, c, x')
    case Synchronize(c) => out == Silent && s' == Install(s, c, Sync(x, live))
    case Free(c) =>
      out == Silent && s' == State(PersistTable(s.table, t), s.modcount, s.conns - {c}, s.gone)
    case Connect(_, _) => false
    case Finish(_) => false
  }

  /** The plain map the shared table stands for. */
  function Meaning(t: Table<Slot>): map<Key, Content> {
    map k | k in t.slots :: SlotContent(t.slots[k])
  }
}
