/**
 The join handshake, the registry and full synchronization together: what the creator's final
 synchronization reaches survives the thread.

 The protocol of one thread runs interleaved with registry operations of any number of threads,
 which may also write to any shared table at any time.  The thread itself operates on objects
 only while it executes; once it waits to be told to exit it does nothing.  The creator
 synchronizes one entry at a time, so other threads can run in between.

 A connection of the creator is freed only when nothing refers to it.  What refers to it is
 modelled: entries of its caches, nodes of its workers' queues, and the call of join itself.
 */
module Handshake {
  import opened Wrappers
  import W = WorkerProtocol
  import Safety = WorkerSafety
  import R = Registry
  import F = FullSync

  // ---- Shared tables and the creator's caches ---------------------------------------------

  /** What a shared table stores under a key. */
  datatype Stored =
    | Ref(z: R.Address)    // a threaded object, by the address of a connection
    | Other                // anything else that is cacheable
    | Simple

  type Table = seq<(F.Key, Stored)>

  /**
   The tables of the shared objects; the finished tasks of the creator's other workers, by the
   connections their queue nodes hold; and what the creator caches, as it was before it started to
   synchronize, with what a plain sync would keep of it.
   */
  datatype Side = Side(tables: map<R.Address, Table>, tasks: map<R.Address, seq<R.Address>>,
                       confirmed: map<R.Address, set<F.Key>>, cache: map<R.Address, set<F.Key>>,
                       inSync: set<R.Address>)

  predicate DistinctKeys(ps: Table) {
    forall i, j :: 0 <= i < j < |ps| ==> ps[i].0 != ps[j].0
  }

  ghost predicate SideOk(side: Side) {
    forall ts :: ts in side.tables ==> DistinctKeys(side.tables[ts])
  }

  function TableOf(side: Side, ts: R.Address): Table {
    if ts in side.tables then side.tables[ts] else []
  }

  function TasksOf(side: Side, ts: R.Address): seq<R.Address> {
    if ts in side.tasks then side.tasks[ts] else []
  }

  function KeysOf(m: map<R.Address, set<F.Key>>, ts: R.Address): set<F.Key> {
    if ts in m then m[ts] else {}
  }

  /** The keys that are cached for an object and survive a plain sync. */
  function Survivors(side: Side, ts: R.Address): set<F.Key> {
    if ts in side.inSync then KeysOf(side.cache, ts)
    else KeysOf(side.cache, ts) * KeysOf(side.confirmed, ts)
  }

  /** An entry that a synchronization of object y has to fill. */
  predicate Lists(side: Side, y: R.Address, k: F.Key, z: R.Address) {
    (k, Ref(z)) in TableOf(side, y) && k !in Survivors(side, y)
  }

  /** The entries of a that are entries of b, too. */
  function Common(a: Table, b: Table): Table {
    if a == [] then []
    else
      var n := |a| - 1;
      Common(a[..n], b) + if a[n] in b then [a[n]] else []
  }

  /** What is left of `stay` once the tables and caches have become `side`. */
  function Narrow(stay: Side, side: Side): Side {
    Side(map ts | ts in stay.tables :: Common(stay.tables[ts], TableOf(side, ts)), stay.tasks, map[],
         map ts | ts in stay.tables :: Survivors(stay, ts) + Survivors(side, ts), stay.tables.Keys)
  }

  lemma {:induction false} CommonIs(a: Table, b: Table)
    ensures forall e :: e in Common(a, b) <==> e in a && e in b
    ensures DistinctKeys(a) ==> DistinctKeys(Common(a, b))
    decreases |a|
  {
    if a != [] {
      var n := |a| - 1;
      CommonIs(a[..n], b);
      assert a == a[..n] + [a[n]];
      if DistinctKeys(a) {
        assert DistinctKeys(a[..n]);
        assert forall e :: e in Common(a[..n], b) ==> e.0 != a[n].0;
      }
    }
  }

  /** Everything that `stay` has to fill, `side` has to fill, and its tasks are still there. */
  ghost predicate Within(stay: Side, side: Side) {
    && (forall y, k, z :: Lists(stay, y, k, z) ==> Lists(side, y, k, z))
    && (forall y :: TasksOf(stay, y) <= TasksOf(side, y))
  }

  lemma NarrowWithin(stay: Side, side: Side)
    requires SideOk(stay) && forall y :: TasksOf(stay, y) <= TasksOf(side, y)
    ensures SideOk(Narrow(stay, side))
    ensures Within(Narrow(stay, side), stay) && Within(Narrow(stay, side), side)
  {
    var n := Narrow(stay, side);
    forall ts | ts in stay.tables
      ensures DistinctKeys(n.tables[ts])
      ensures forall e :: e in n.tables[ts] <==> e in stay.tables[ts] && e in TableOf(side, ts)
    {
      CommonIs(stay.tables[ts], TableOf(side, ts));
    }
    forall y, k, z | Lists(n, y, k, z)
      ensures Lists(stay, y, k, z) && Lists(side, y, k, z)
    {
      assert y in stay.tables;
      assert Survivors(n, y) == Survivors(stay, y) + Survivors(side, y);
    }
  }

  /** Exactly what was due before and is due after a change is still due. */
  lemma NarrowExact(stay: Side, side: Side, y: R.Address, k: F.Key, z: R.Address)
    requires SideOk(stay)
    ensures DueIn(Narrow(stay, side), y, k, z) <==> DueIn(stay, y, k, z) && DueIn(side, y, k, z)
    ensures Narrow(stay, side).tasks == stay.tasks
  {
    ListsIsDue(Narrow(stay, side), y, k, z);
    ListsIsDue(stay, y, k, z);
    ListsIsDue(side, y, k, z);
    if y in stay.tables {
      CommonIs(stay.tables[y], TableOf(side, y));
    }
  }

  // ---- The joint state ------------------------------------------------------------------------

  /**
   The two threads of a join, the creator's object for the thread, and the connection that a queue
   node of the thread holds.
   */
  datatype Threads = Threads(creator: R.ThreadId, child: R.ThreadId, root: R.Address, node: W.Task -> R.Address)

  /**
   A cache entry that the final synchronization made: connection q caches under k connection p,
   which it obtained from address z.
   */
  datatype Entry = Entry(q: R.Address, k: F.Key, z: R.Address, p: R.Address)

  /**
   `stay` has those entries and finished tasks that were there, and not cached, all the time since
   the synchronization began.
   */
  datatype Joint = Joint(w: W.State, r: R.Registry, side: Side, stay: Side, held: set<Entry>)

  /** The tasks that nodes of the worker's queues hold. */
  function Waiting(w: W.State): set<W.Task> {
    (set a | a in w.d.queue) + (set a | a in w.d.gc) + (if w.d.running.Some? then {w.d.running.value} else {})
  }

  predicate HeldByNode(t: Threads, j: Joint, p: R.Address) {
    || (exists a :: a in Waiting(j.w) && t.node(a) == p)
    || (exists ts :: ts in j.side.tasks && p in j.side.tasks[ts])
  }

  predicate Caches(j: Joint, p: R.Address) {
    exists e :: e in j.held && e.p == p
  }

  /** The creator's synchronization has got to connection q. */
  predicate Begun(t: Threads, j: Joint, q: R.Address) {
    q == t.root || HeldByNode(t, j, q) || Caches(j, q)
  }

  /** A live connection of the creator. */
  predicate KeptAt(t: Threads, r: R.Registry, z: R.Address) {
    z in r.objects && z !in r.dying && r.objects[z].owner == t.creator
  }

  // ---- What full synchronization sees ---------------------------------------------------------

  function TargetOf(r: R.Registry, c: Stored): F.Target {
    match c
    case Ref(z) => if z in r.objects then F.Child(r.objects[z].ts) else F.Other
    case Other => F.Other
    case Simple => F.Simple
  }

  function TargetsOf(r: R.Registry, ps: Table): seq<(F.Key, F.Target)> {
    seq(|ps|, i requires 0 <= i < |ps| => (ps[i].0, TargetOf(r, ps[i].1)))
  }

  /** The shared objects of connections that are not freed. */
  function ObjectsOf(r: R.Registry, ps: seq<R.Address>): seq<R.Address> {
    if ps == [] then []
    else
      var n := |ps| - 1;
      ObjectsOf(r, ps[..n]) + if ps[n] in r.objects then [r.objects[ps[n]].ts] else []
  }

  /** The connections of the finished tasks of object ts. */
  function Finished(t: Threads, j: Joint, ts: R.Address): seq<R.Address> {
    if t.root in j.r.objects && ts == j.r.objects[t.root].ts
    then seq(|j.w.d.gc|, i requires 0 <= i < |j.w.d.gc| => t.node(j.w.d.gc[i]))
    else TasksOf(j.stay, ts)
  }

  /** The graph over what stayed since the synchronization began. */
  function GraphOf(t: Threads, j: Joint): F.Graph {
    F.Graph(map ts | ts in j.r.refcount :: TargetsOf(j.r, TableOf(j.stay, ts)),
            map ts | ts in j.r.refcount :: KeysOf(j.stay.confirmed, ts),
            map ts | ts in j.r.refcount :: ObjectsOf(j.r, Finished(t, j, ts)))
  }

  function LocalOf(j: Joint): F.Local {
    F.Local(map ts | ts in j.r.refcount :: KeysOf(j.stay.cache, ts), j.stay.inSync)
  }

  lemma {:induction false} ObjectsExist(r: R.Registry, ps: seq<R.Address>)
    requires R.Inv(r)
    ensures forall x :: x in ObjectsOf(r, ps) ==>
              x in r.refcount && exists p :: p in ps && p in r.objects && r.objects[p].ts == x
    decreases |ps|
  {
    if ps != [] {
      ObjectsExist(r, ps[..|ps| - 1]);
    }
  }

  lemma GraphOkAt(t: Threads, j: Joint, ts: R.Address)
    requires R.Inv(j.r) && SideOk(j.stay) && ts in j.r.refcount
    ensures F.ObjectOk(GraphOf(t, j), ts)
  {
    var g := GraphOf(t, j);
    assert DistinctKeys(TableOf(j.stay, ts));
    TargetsExist(j.r, TableOf(j.stay, ts));
    assert g.props[ts] == TargetsOf(j.r, TableOf(j.stay, ts));
    ObjectsExist(j.r, Finished(t, j, ts));
    assert g.garbage[ts] == ObjectsOf(j.r, Finished(t, j, ts));
  }

  lemma TargetsExist(r: R.Registry, ps: Table)
    requires R.Inv(r)
    ensures var ts := TargetsOf(r, ps); forall i :: 0 <= i < |ts| && ts[i].1.Child? ==> ts[i].1.o in r.refcount
    ensures DistinctKeys(ps) ==> F.DistinctKeys(TargetsOf(r, ps))
  {
  }

  lemma GraphOk(t: Threads, j: Joint)
    requires R.Inv(j.r) && SideOk(j.stay)
    ensures F.WellFormed(GraphOf(t, j)) && F.Covers(GraphOf(t, j), LocalOf(j))
  {
    forall ts | ts in j.r.refcount
      ensures F.ObjectOk(GraphOf(t, j), ts)
    {
      GraphOkAt(t, j, ts);
    }
  }

  /**
   Full synchronization of the thread object, with all finished tasks it comes across, processes x
   along entries and tasks that stayed since it began.
   */
  ghost predicate Reaches(t: Threads, j: Joint, x: R.Address) {
    && R.Inv(j.r) && SideOk(j.stay) && t.root in j.r.objects
    && (GraphOk(t, j); F.Reached(GraphOf(t, j), LocalOf(j), j.r.objects[t.root].ts, x))
  }

  // ---- When the synchronization is done -----------------------------------------------------

  /** q's entry k, which refers to z, has been filled with a connection in `done`. */
  predicate FilledIn(j: Joint, done: set<R.Address>, q: R.Address, k: F.Key, z: R.Address) {
    exists p :: p in done && Entry(q, k, z, p) in j.held
  }

  /** What q leads to is in `done`. */
  ghost predicate DoneAt(t: Threads, j: Joint, done: set<R.Address>, q: R.Address) {
    && q in j.r.objects
    && (forall k, z :: Lists(j.stay, j.r.objects[q].ts, k, z) && z in j.r.objects ==> FilledIn(j, done, q, k, z))
    && (forall p :: p in Finished(t, j, j.r.objects[q].ts) && p in j.r.objects ==> p in done)
  }

  /** p is held by the call of join, by a queue node, or by an entry of a connection in `done`. */
  predicate HeldAt(t: Threads, j: Joint, done: set<R.Address>, p: R.Address) {
    || p == t.root || HeldByNode(t, j, p)
    || exists e :: e in j.held && e.p == p && e.q in done
  }

  /**
   `done` is a set of connections, each synchronized and each held from within the set, that leads
   nowhere else.
   */
  ghost predicate DoneWith(t: Threads, j: Joint, done: set<R.Address>) {
    && t.root in done
    && (forall q :: q in done ==> DoneAt(t, j, done, q))
    && Supported(t, j, done)
  }

  ghost predicate Supported(t: Threads, j: Joint, done: set<R.Address>) {
    forall p :: p in done ==> HeldAt(t, j, done, p)
  }

  ghost predicate Covered(t: Threads, j: Joint) {
    exists done :: DoneWith(t, j, done)
  }

  // ---- Steps ------------------------------------------------------------------------------------

  datatype Event =
    | Protocol(a: W.Step)
    | Operate(op: R.Op)                                   // some thread allocates, resolves, attaches or frees
    | Touch(side: Side)                                   // tables and caches change
    | SyncOne(q: R.Address, k: F.Key, z: R.Address)       // the synchronization fills entry k of connection q
    | Drop(e: Entry)                                      // a later sync of q drops an entry that is outdated

  /** The thread executes: it is neither unborn, nor waiting to be told to exit, nor gone. */
  predicate Active(p: W.WorkerPc) {
    !p.NotStarted? && !p.AwaitingExit? && !p.Exited?
  }

  /** Operations of the child are possible only while it executes. */
  predicate ByActive(t: Threads, j: Joint, op: R.Op) {
    var byChild := match op
      case Alloc(th) => th == t.child
      case Resolve(th, _) => th == t.child
      case Attach(th, _) => th == t.child
      case FreeBegin(z) => z in j.r.objects && j.r.objects[z].owner == t.child
      case FreeEnd(z) => z in j.r.objects && j.r.objects[z].owner == t.child;
    byChild ==> Active(j.w.wpc)
  }

  /**
   Nothing refers to connection z.  Out of join the creator runs code, which may give up the
   thread object and its cache entries.
   */
  predicate Unreferenced(t: Threads, j: Joint, z: R.Address) {
    !HeldByNode(t, j, z) && (!j.w.cpc.Free? ==> z != t.root && !Caches(j, z))
  }

  /** A connection that is freed takes its cache with it. */
  function Without(held: set<Entry>, z: R.Address): set<Entry> {
    set e | e in held && e.q != z && e.p != z
  }

  ghost predicate Step(t: Threads, j: Joint, e: Event, j': Joint) {
    match e
    case Protocol(a) => ProtocolStep(t, j, a, j')
    case Operate(op) => OperateStep(t, j, op, j')
    case Touch(side) => TouchStep(t, j, side, j')
    case SyncOne(q, k, z) => SyncStep(t, j, q, k, z, j')
    case Drop(e) =>
      && j.w.cpc.Syncing? && e in j.held
      && e.q in j.r.objects && (e.k, Ref(e.z)) !in TableOf(j.side, j.r.objects[e.q].ts)
      && j' == j.(held := j.held - {e})
  }

  ghost predicate ProtocolStep(t: Threads, j: Joint, a: W.Step, j': Joint) {
    && W.Next(j.w, a, j'.w)
    && j' == j.(w := j'.w, stay := if a.JoinTest? then j.side else j.stay)
    && (a.Stack? ==> KeptAt(t, j.r, t.node(a.t)))   // the creator stacks an object it has
    && (a.Join? ==> KeptAt(t, j.r, t.root))         // and joins a thread whose object it has
    && (a.SyncAll? ==> Covered(t, j))
  }

  ghost predicate OperateStep(t: Threads, j: Joint, op: R.Op, j': Joint) {
    && ByActive(t, j, op) && R.Enabled(j.r, op)
    && (op.FreeBegin? ==> Unreferenced(t, j, op.z))
    && (R.Inv(j.r) ==>
          j' == j.(r := R.Apply(j.r, op).0, held := if op.FreeBegin? then Without(j.held, op.z) else j.held))
  }

  /** Inside join the creator takes no task from its other workers; they may finish more. */
  ghost predicate TouchStep(t: Threads, j: Joint, side: Side, j': Joint) {
    && SideOk(side)
    && (forall ts, p :: ts in side.tasks && p in side.tasks[ts] ==> KeptAt(t, j.r, p))
    && (!j.w.cpc.Free? ==> forall ts :: TasksOf(j.side, ts) <= TasksOf(side, ts))
    && j' == j.(side := side, stay := if j.w.cpc.Syncing? then Narrow(j.stay, side) else j.stay)
  }

  /** An entry that is not cached is restored and cached, unless its object was destroyed. */
  ghost predicate SyncStep(t: Threads, j: Joint, q: R.Address, k: F.Key, z: R.Address, j': Joint) {
    && j.w.cpc.Syncing? && Begun(t, j, q) && q in j.r.objects
    && Lists(j.side, j.r.objects[q].ts, k, z)
    && (forall e :: e in j.held ==> e.q != q || e.k != k)
    && R.Enabled(j.r, R.Resolve(t.creator, z))
    && (R.Inv(j.r) ==>
          var (r', p) := R.Apply(j.r, R.Resolve(t.creator, z));
          j' == j.(r := r', held := j.held + if p.Some? then {Entry(q, k, z, p.value)} else {}))
  }

  ghost predicate Run(t: Threads, js: seq<Joint>, es: seq<Event>) {
    && |js| == |es| + 1
    && forall i {:trigger StepAt(t, js, es, i)} :: 0 <= i < |es| ==> StepAt(t, js, es, i)
  }

  ghost predicate StepAt(t: Threads, js: seq<Joint>, es: seq<Event>, i: nat)
    requires i < |es| && i + 1 < |js|
  {
    Step(t, js[i], es[i], js[i + 1])
  }

  /** Nothing has happened yet: there are no objects, and so no finished tasks of other workers. */
  function Start(isWorker: bool, side: Side): Joint {
    var empty := side.(tasks := map[]);
    Joint(W.Initial(isWorker), R.EMPTY, empty, empty, {})
  }

  // ---- The invariant ------------------------------------------------------------------------------

  /** The creator is somewhere between its synchronization and the return of join. */
  predicate Inside(w: W.State) {
    w.cpc.Syncing? || w.cpc.Releasing? || w.cpc.Reaping?
  }

  /** An entry connects to the object that its address stood for. */
  predicate EntryOk(t: Threads, r: R.Registry, e: Entry) {
    && KeptAt(t, r, e.q) && KeptAt(t, r, e.p) && e.z < r.next
    && (e.z in r.objects ==> r.objects[e.z].ts == r.objects[e.p].ts)
  }

  /** If an entry's key is still listed, it is with the address that the entry was filled from. */
  ghost predicate Unchanged(j: Joint, e: Entry) {
    e.q in j.r.objects ==> forall z :: Lists(j.stay, j.r.objects[e.q].ts, e.k, z) ==> z == e.z
  }

  ghost predicate NodesOk(t: Threads, j: Joint) {
    forall p :: HeldByNode(t, j, p) ==> KeptAt(t, j.r, p)
  }

  ghost predicate EntriesOk(t: Threads, j: Joint) {
    forall e :: e in j.held ==> EntryOk(t, j.r, e)
  }

  ghost predicate Inv(t: Threads, j: Joint) {
    && W.Inv(j.w) && R.Inv(j.r) && SideOk(j.side) && SideOk(j.stay)
    && NodesOk(t, j) && EntriesOk(t, j)
    && (j.w.cpc.Joining? || Inside(j.w) ==> KeptAt(t, j.r, t.root))
    && (!Inside(j.w) && !j.w.exit ==> j.held == {})
    && (j.w.cpc.Syncing? ==> Within(j.stay, j.side) && forall e :: e in j.held ==> Unchanged(j, e))
  }

  lemma KeptStaysAt(t: Threads, r: R.Registry, op: R.Op, z: R.Address)
    requires R.Inv(r) && R.Enabled(r, op) && KeptAt(t, r, z) && op != R.FreeBegin(z)
    ensures KeptAt(t, R.Apply(r, op).0, z) && R.Apply(r, op).0.objects[z] == r.objects[z]
  {
    R.StepKeeps(r, op, z);
    R.StepDying(r, op);
  }

  /** An operation that frees neither end of an entry leaves it as good as it was. */
  lemma EntryStays(t: Threads, r: R.Registry, op: R.Op, e: Entry)
    requires R.Inv(r) && R.Enabled(r, op) && EntryOk(t, r, e)
    requires op != R.FreeBegin(e.q) && op != R.FreeBegin(e.p)
    ensures EntryOk(t, R.Apply(r, op).0, e)
  {
    KeptStaysAt(t, r, op, e.q);
    KeptStaysAt(t, r, op, e.p);
    R.StepAdds(r, op);
    if e.z in r.objects && op != R.FreeEnd(e.z) {
      R.StepKeeps(r, op, e.z);
    }
  }

  lemma OperateNodes(t: Threads, j: Joint, op: R.Op, j': Joint)
    requires R.Inv(j.r) && NodesOk(t, j) && OperateStep(t, j, op, j')
    ensures NodesOk(t, j')
  {
    forall p | HeldByNode(t, j', p)
      ensures KeptAt(t, j'.r, p)
    {
      assert HeldByNode(t, j, p);
      KeptStaysAt(t, j.r, op, p);
    }
  }

  lemma OperateEntries(t: Threads, j: Joint, op: R.Op, j': Joint)
    requires R.Inv(j.r) && EntriesOk(t, j) && OperateStep(t, j, op, j')
    ensures EntriesOk(t, j')
    ensures forall e :: e in j'.held ==> e in j.held && e.q in j.r.objects && j'.r.objects[e.q] == j.r.objects[e.q]
  {
    forall e | e in j'.held
      ensures EntryOk(t, j'.r, e) && e in j.held && j'.r.objects[e.q] == j.r.objects[e.q]
    {
      assert EntryOk(t, j.r, e);
      EntryStays(t, j.r, op, e);
      KeptStaysAt(t, j.r, op, e.q);
    }
  }

  lemma OperateInv(t: Threads, j: Joint, op: R.Op, j': Joint)
    requires Inv(t, j) && OperateStep(t, j, op, j')
    ensures Inv(t, j')
  {
    R.StepInv(j.r, op);
    OperateNodes(t, j, op, j');
    OperateEntries(t, j, op, j');
    if j.w.cpc.Joining? || Inside(j.w) {
      KeptStaysAt(t, j.r, op, t.root);
    }
    if j.w.cpc.Syncing? {
      StillUnchanged(j, j');
    }
  }

  /** Entries of which nothing changed are unchanged. */
  lemma StillUnchanged(j: Joint, j': Joint)
    requires forall e :: e in j.held ==> Unchanged(j, e)
    requires forall y, k, z :: Lists(j'.stay, y, k, z) ==> Lists(j.stay, y, k, z)
    requires forall e :: e in j'.held ==> e in j.held && e.q in j.r.objects
    requires forall e :: e in j'.held && e.q in j'.r.objects ==> j'.r.objects[e.q] == j.r.objects[e.q]
    ensures forall e :: e in j'.held ==> Unchanged(j', e)
  {
    forall e | e in j'.held
      ensures Unchanged(j', e)
    {
      assert Unchanged(j, e);
    }
  }

  lemma SyncNodes(t: Threads, j: Joint, op: R.Op, j': Joint)
    requires R.Inv(j.r) && NodesOk(t, j) && R.Enabled(j.r, op) && op.Resolve?
    requires j'.w == j.w && j'.side == j.side && j'.r == R.Apply(j.r, op).0
    ensures NodesOk(t, j')
  {
    forall p | HeldByNode(t, j', p)
      ensures KeptAt(t, j'.r, p)
    {
      assert HeldByNode(t, j, p);
      KeptStaysAt(t, j.r, op, p);
    }
  }

  /** The entry that a synchronization makes. */
  lemma NewEntryOk(t: Threads, r: R.Registry, q: R.Address, k: F.Key, z: R.Address)
    requires R.Inv(r) && KeptAt(t, r, q) && z in r.objects && R.Enabled(r, R.Resolve(t.creator, z))
    ensures var (r', p) := R.Apply(r, R.Resolve(t.creator, z));
      p.Some? && EntryOk(t, r', Entry(q, k, z, p.value)) && r'.objects[p.value].ts == r.objects[z].ts
  {
    var op := R.Resolve(t.creator, z);
    R.ResolveConnects(r, t.creator, z);
    KeptStaysAt(t, r, op, q);
    R.StepKeeps(r, op, z);
    R.StepAdds(r, op);
  }

  lemma SyncEntries(t: Threads, j: Joint, q: R.Address, k: F.Key, z: R.Address, j': Joint)
    requires R.Inv(j.r) && EntriesOk(t, j) && SyncStep(t, j, q, k, z, j') && KeptAt(t, j.r, q)
    ensures EntriesOk(t, j')
  {
    var op := R.Resolve(t.creator, z);
    forall e | e in j'.held
      ensures EntryOk(t, j'.r, e)
    {
      if e in j.held {
        assert EntryOk(t, j.r, e);
        EntryStays(t, j.r, op, e);
      } else {
        R.ResolveConnects(j.r, t.creator, z);
        NewEntryOk(t, j.r, q, k, z);
      }
    }
  }

  lemma SyncUnchanged(t: Threads, j: Joint, q: R.Address, k: F.Key, z: R.Address, j': Joint)
    requires R.Inv(j.r) && EntriesOk(t, j) && SyncStep(t, j, q, k, z, j') && KeptAt(t, j.r, q)
    requires SideOk(j.side) && Within(j.stay, j.side) && forall e :: e in j.held ==> Unchanged(j, e)
    ensures forall e :: e in j'.held ==> Unchanged(j', e)
  {
    var op := R.Resolve(t.creator, z);
    forall e | e in j'.held
      ensures Unchanged(j', e)
    {
      KeptStaysAt(t, j.r, op, q);
      if e in j.held {
        assert Unchanged(j, e) && EntryOk(t, j.r, e);
        KeptStaysAt(t, j.r, op, e.q);
      } else {
        OnlyOne(j.side, j.r.objects[q].ts, k, z);
      }
    }
  }

  /** A table has one entry under a key. */
  lemma OnlyOne(side: Side, y: R.Address, k: F.Key, z: R.Address)
    requires SideOk(side) && Lists(side, y, k, z)
    ensures forall u :: Lists(side, y, k, u) ==> u == z
  {
    assert DistinctKeys(side.tables[y]);
  }

  lemma SyncInv(t: Threads, j: Joint, q: R.Address, k: F.Key, z: R.Address, j': Joint)
    requires Inv(t, j) && SyncStep(t, j, q, k, z, j')
    ensures Inv(t, j')
  {
    var op := R.Resolve(t.creator, z);
    R.StepInv(j.r, op);
    BegunKept(t, j, q);
    KeptStaysAt(t, j.r, op, t.root);
    SyncNodes(t, j, op, j');
    SyncEntries(t, j, q, k, z, j');
    SyncUnchanged(t, j, q, k, z, j');
  }

  lemma BegunKept(t: Threads, j: Joint, q: R.Address)
    requires NodesOk(t, j) && EntriesOk(t, j) && KeptAt(t, j.r, t.root) && Begun(t, j, q)
    ensures KeptAt(t, j.r, q)
  {
    if Caches(j, q) {
      var e :| e in j.held && e.p == q;
      assert EntryOk(t, j.r, e);
    }
  }

  lemma TouchInv(t: Threads, j: Joint, side: Side, j': Joint)
    requires Inv(t, j) && TouchStep(t, j, side, j')
    ensures Inv(t, j')
  {
    forall p | HeldByNode(t, j', p)
      ensures KeptAt(t, j'.r, p)
    {
      if a :| a in Waiting(j.w) && t.node(a) == p {
        assert HeldByNode(t, j, p);
      }
    }
    if j.w.cpc.Syncing? {
      forall y
        ensures TasksOf(j.stay, y) <= TasksOf(side, y)
      {
        assert TasksOf(j.stay, y) <= TasksOf(j.side, y) <= TasksOf(side, y);
      }
      NarrowWithin(j.stay, side);
      assert forall e :: e in j.held ==> EntryOk(t, j.r, e);
      StillUnchanged(j, j');
    }
  }

  /** Only stacking adds a task to the nodes, and inside join none leaves them. */
  lemma WaitingMoves(w: W.State, a: W.Step, w': W.State)
    requires W.Inv(w) && W.Next(w, a, w')
    ensures Waiting(w') <= Waiting(w) + if a.Stack? then {a.t} else {}
    ensures !w.cpc.Free? ==> Waiting(w) <= Waiting(w')
  {
    if a.NextTask? {
      if w.d.queue != [] {
        TakeMoves(w, w');
      }
    } else if W.ByWorker(a) {
      WorkerMoves(w, a, w');
    } else {
      CreatorMoves(w, a, w');
    }
  }

  lemma WorkerMoves(w: W.State, a: W.Step, w': W.State)
    requires W.RunningOk(w) && W.ByWorker(a) && !a.NextTask? && W.WorkerNext(w, a, w')
    ensures Waiting(w') == Waiting(w)
  {
  }

  lemma CreatorMoves(w: W.State, a: W.Step, w': W.State)
    requires !W.ByWorker(a) && W.CreatorNext(w, a, w')
    ensures Waiting(w') <= Waiting(w) + if a.Stack? then {a.t} else {}
    ensures !w.cpc.Free? ==> Waiting(w') == Waiting(w)
  {
    match a
    case Collect(n) => assert forall x :: x in w'.d.gc ==> x in w.d.gc;
    case Unstack => assert forall x :: x in w'.d.queue ==> x in w.d.queue;
    case Stack(t) => assert forall x :: x in w'.d.queue ==> x in w.d.queue || x == t;
    case _ =>
  }

  lemma TakeMoves(w: W.State, w': W.State)
    requires W.Inv(w) && W.Next(w, W.NextTask, w') && w.d.queue != []
    ensures Waiting(w') == Waiting(w)
  {
    assert w'.d.gc == w.d.gc && w'.d.queue == w.d.queue[1..] && w'.d.running == Some(w.d.queue[0]);
    assert w.d.queue == [w.d.queue[0]] + w.d.queue[1..];
    assert forall x :: x in w.d.queue <==> x == w.d.queue[0] || x in w.d.queue[1..];
  }

  /** Synchronization begins only from waiting in join, before EXIT, and EXIT is never taken back. */
  lemma Phase(w: W.State, a: W.Step, w': W.State)
    requires W.Inv(w) && W.Next(w, a, w')
    ensures w.exit ==> w'.exit
    ensures w'.cpc.Syncing? && !w.cpc.Syncing? ==> a.JoinTest? && !w.exit && w.cpc.Joining?
    ensures Inside(w') && !Inside(w) ==> !w.exit && w.cpc.Joining?
    ensures Inside(w) && !Inside(w') ==> w'.exit && a.Reap? && w'.cpc.Free?
    ensures w'.cpc.Joining? && !w.cpc.Joining? ==> a.Join?
  {
    if W.ByWorker(a) {
      WorkerLeaves(w, a, w');
    }
  }

  lemma ProtocolInv(t: Threads, j: Joint, a: W.Step, j': Joint)
    requires Inv(t, j) && ProtocolStep(t, j, a, j')
    ensures Inv(t, j')
  {
    Safety.StepKeeps(j.w, a, j'.w);
    Phase(j.w, a, j'.w);
    WaitingMoves(j.w, a, j'.w);
    forall p | HeldByNode(t, j', p)
      ensures KeptAt(t, j'.r, p)
    {
      if !(exists ts :: ts in j.side.tasks && p in j.side.tasks[ts]) {
        var b :| b in Waiting(j'.w) && t.node(b) == p;
        assert b in Waiting(j.w) ==> HeldByNode(t, j, p);
      } else {
        assert HeldByNode(t, j, p);
      }
    }
  }

  lemma StepInv(t: Threads, j: Joint, e: Event, j': Joint)
    requires Inv(t, j) && Step(t, j, e, j')
    ensures Inv(t, j')
  {
    match e
    case Protocol(a) => ProtocolInv(t, j, a, j');
    case Operate(op) => OperateInv(t, j, op, j');
    case SyncOne(q, k, z) => SyncInv(t, j, q, k, z, j');
    case Touch(side) => TouchInv(t, j, side, j');
    case Drop(d) => DropInv(t, j, d, j');
  }

  lemma DropInv(t: Threads, j: Joint, d: Entry, j': Joint)
    requires Inv(t, j) && Step(t, j, Drop(d), j')
    ensures Inv(t, j')
  {
    forall p | HeldByNode(t, j', p)
      ensures KeptAt(t, j'.r, p)
    {
      assert HeldByNode(t, j, p);
    }
  }

  lemma {:induction false} RunInv(t: Threads, js: seq<Joint>, es: seq<Event>, i: nat)
    requires Run(t, js, es) && Inv(t, js[0]) && i < |js|
    ensures Inv(t, js[i])
    decreases i
  {
    if i > 0 {
      RunInv(t, js, es, i - 1);
      assert StepAt(t, js, es, i - 1);
      StepInv(t, js[i - 1], es[i - 1], js[i]);
    }
  }

  lemma StartInv(t: Threads, isWorker: bool, side: Side)
    requires SideOk(side)
    ensures Inv(t, Start(isWorker, side))
  {
    W.InitInv(isWorker);
    R.EmptyInv();
  }

  // ---- The child, waiting to be told to exit ------------------------------------------------

  /** EXIT is never taken back, and until it is set a waiting child goes on waiting. */
  lemma WaitsOn(t: Threads, j: Joint, e: Event, j': Joint)
    requires Inv(t, j) && Step(t, j, e, j')
    ensures j.w.exit ==> j'.w.exit
    ensures j.w.wpc.AwaitingExit? && !j.w.exit ==> j'.w.wpc.AwaitingExit?
  {
    if e.Protocol? {
      Phase(j.w, e.a, j'.w);
    }
  }

  /** A step beside a waiting child frees none of the child's objects. */
  lemma WaitingKeeps(t: Threads, j: Joint, e: Event, j': Joint, z: R.Address)
    requires Inv(t, j) && Step(t, j, e, j') && !Active(j.w.wpc)
    requires z in j.r.objects && j.r.objects[z].owner == t.child
    ensures z in j'.r.objects && j'.r.objects[z] == j.r.objects[z]
  {
    match e
    case Operate(op) => R.StepKeeps(j.r, op, z);
    case SyncOne(_, _, address) => R.StepKeeps(j.r, R.Resolve(t.creator, address), z);
    case _ =>
  }

  lemma ChildStep(t: Threads, js: seq<Joint>, es: seq<Event>, i: nat)
    requires Run(t, js, es) && Inv(t, js[0]) && i < |es|
    ensures js[i].w.exit ==> js[i + 1].w.exit
    ensures js[i].w.wpc.AwaitingExit? && !js[i].w.exit ==> js[i + 1].w.wpc.AwaitingExit?
    ensures js[i].w.wpc.AwaitingExit? ==> forall z ::
      z in js[i].r.objects && js[i].r.objects[z].owner == t.child ==>
        z in js[i + 1].r.objects && js[i + 1].r.objects[z] == js[i].r.objects[z]
  {
    RunInv(t, js, es, i);
    assert StepAt(t, js, es, i);
    WaitsOn(t, js[i], es[i], js[i + 1]);
    if js[i].w.wpc.AwaitingExit? {
      forall z | z in js[i].r.objects && js[i].r.objects[z].owner == t.child
        ensures z in js[i + 1].r.objects && js[i + 1].r.objects[z] == js[i].r.objects[z]
      {
        WaitingKeeps(t, js[i], es[i], js[i + 1], z);
      }
    }
  }

  /**
   From the moment the child waits to the end of the creator's synchronization, no object
   of the child goes away.
   */
  lemma {:induction false} StoppedChildKeeps(t: Threads, js: seq<Joint>, es: seq<Event>, i: nat, k: nat, z: R.Address)
    requires Run(t, js, es) && Inv(t, js[0]) && i <= k < |js|
    requires js[i].w.wpc.AwaitingExit? && !js[k].w.exit
    requires z in js[i].r.objects && js[i].r.objects[z].owner == t.child
    ensures js[k].w.wpc.AwaitingExit? && z in js[k].r.objects && js[k].r.objects[z] == js[i].r.objects[z]
    decreases k
  {
    if i < k {
      ChildStep(t, js, es, k - 1);
      StoppedChildKeeps(t, js, es, i, k - 1, z);
    }
  }

  /** The creator never synchronizes while the child executes. */
  lemma SyncsAfterStop(t: Threads, js: seq<Joint>, es: seq<Event>, m: nat)
    requires Run(t, js, es) && Inv(t, js[0]) && m < |es|
    requires es[m].SyncOne? || es[m] == Protocol(W.SyncAll)
    ensures js[m].w.wpc.AwaitingExit? && !js[m].w.exit
  {
    RunInv(t, js, es, m);
    assert StepAt(t, js, es, m);
  }

  /** When nobody writes while the creator synchronizes, all that was there has stayed. */
  lemma {:induction false} UndisturbedStays(t: Threads, js: seq<Joint>, es: seq<Event>, i: nat, b: nat)
    requires Run(t, js, es) && Inv(t, js[0]) && i < b < |js| && es[i] == Protocol(W.JoinTest)
    requires forall e :: i < e < b ==> !es[e].Touch? && es[e] != Protocol(W.JoinTest)
    ensures js[b].stay == js[b].side == js[i].side
    decreases b
  {
    assert StepAt(t, js, es, b - 1);
    if i < b - 1 {
      UndisturbedStays(t, js, es, i, b - 1);
      RunInv(t, js, es, b - 1);
      SidesStay(t, js[b - 1], es[b - 1], js[b]);
    }
  }

  lemma SidesStay(t: Threads, j: Joint, e: Event, j': Joint)
    requires Step(t, j, e, j') && !e.Touch? && e != Protocol(W.JoinTest)
    requires e.Operate? || e.SyncOne? ==> R.Inv(j.r)
    ensures j'.stay == j.stay && j'.side == j.side
  {
  }

  // ---- The synchronization is a full one -----------------------------------------------------

  /** `done` has a live connection of the creator to x. */
  predicate HasObject(t: Threads, j: Joint, done: set<R.Address>, x: R.Address) {
    exists q :: q in done && KeptAt(t, j.r, q) && j.r.objects[q].ts == x
  }

  lemma SupportedKept(t: Threads, j: Joint, done: set<R.Address>, p: R.Address)
    requires NodesOk(t, j) && EntriesOk(t, j) && KeptAt(t, j.r, t.root) && Supported(t, j, done) && p in done
    ensures KeptAt(t, j.r, p)
  {
    assert HeldAt(t, j, done, p);
  }

  /** An entry that leads from q's object to u has been filled with a connection to u. */
  lemma EntryInto(t: Threads, j: Joint, done: set<R.Address>, q: R.Address, i: nat, u: R.Address)
    requires EntriesOk(t, j) && DoneAt(t, j, done, q)
    requires i < |TableOf(j.stay, j.r.objects[q].ts)|
    requires TargetOf(j.r, TableOf(j.stay, j.r.objects[q].ts)[i].1) == F.Child(u)
    requires TableOf(j.stay, j.r.objects[q].ts)[i].0 !in Survivors(j.stay, j.r.objects[q].ts)
    ensures HasObject(t, j, done, u)
  {
    var y := j.r.objects[q].ts;
    var (k, stored) := TableOf(j.stay, y)[i];
    assert Lists(j.stay, y, k, stored.z) && FilledIn(j, done, q, k, stored.z);
    var p :| p in done && Entry(q, k, stored.z, p) in j.held;
    assert EntryOk(t, j.r, Entry(q, k, stored.z, p));
  }

  /** A finished task is in `done`. */
  lemma TaskInto(t: Threads, j: Joint, done: set<R.Address>, q: R.Address, u: R.Address)
    requires R.Inv(j.r) && NodesOk(t, j) && EntriesOk(t, j) && KeptAt(t, j.r, t.root)
    requires DoneWith(t, j, done) && q in done && DoneAt(t, j, done, q)
    requires u in ObjectsOf(j.r, Finished(t, j, j.r.objects[q].ts))
    ensures HasObject(t, j, done, u)
  {
    ObjectsExist(j.r, Finished(t, j, j.r.objects[q].ts));
    var p :| p in Finished(t, j, j.r.objects[q].ts) && p in j.r.objects && j.r.objects[p].ts == u;
    SupportedKept(t, j, done, p);
  }

  /** What a connection in `done` leads to, in one step of the graph, is in `done`, too. */
  lemma LeadsInto(t: Threads, j: Joint, done: set<R.Address>, q: R.Address, u: R.Address)
    requires R.Inv(j.r) && SideOk(j.stay) && NodesOk(t, j) && EntriesOk(t, j) && KeptAt(t, j.r, t.root)
    requires DoneWith(t, j, done) && q in done && q in j.r.objects && j.r.objects[q].ts in j.r.refcount
    requires F.WellFormed(GraphOf(t, j)) && F.Covers(GraphOf(t, j), LocalOf(j))
    requires F.Leads(GraphOf(t, j), LocalOf(j), j.r.objects[q].ts, u)
    ensures HasObject(t, j, done, u)
  {
    var y := j.r.objects[q].ts;
    assert DoneAt(t, j, done, q);
    var i, byEntry := Edge(t, j, y, u);
    if byEntry {
      EntryInto(t, j, done, q, i, u);
    } else {
      TaskInto(t, j, done, q, u);
    }
  }

  /** An edge of the graph is an entry or a finished task. */
  lemma Edge(t: Threads, j: Joint, y: R.Address, u: R.Address) returns (i: nat, byEntry: bool)
    requires y in j.r.refcount
    requires F.WellFormed(GraphOf(t, j)) && F.Covers(GraphOf(t, j), LocalOf(j))
    requires F.Leads(GraphOf(t, j), LocalOf(j), y, u)
    ensures byEntry ==>
      && i < |TableOf(j.stay, y)| && TargetOf(j.r, TableOf(j.stay, y)[i].1) == F.Child(u)
      && TableOf(j.stay, y)[i].0 !in Survivors(j.stay, y)
    ensures !byEntry ==> u in ObjectsOf(j.r, Finished(t, j, y))
  {
    var g, s := GraphOf(t, j), LocalOf(j);
    assert g.props[y] == TargetsOf(j.r, TableOf(j.stay, y)) && g.garbage[y] == ObjectsOf(j.r, Finished(t, j, y));
    i := 0;
    byEntry := exists n: nat :: n < |g.props[y]| && F.LeadsBy(g, s, y, n, u);
    if byEntry {
      i :| i < |g.props[y]| && F.LeadsBy(g, s, y, i, u);
    }
  }

  /** A synchronization that is done has got to everything that full synchronization reaches. */
  lemma ReachedIsDone(t: Threads, j: Joint, done: set<R.Address>, x: R.Address)
    requires Inv(t, j) && KeptAt(t, j.r, t.root) && DoneWith(t, j, done) && Reaches(t, j, x)
    ensures HasObject(t, j, done, x)
  {
    GraphOk(t, j);
    var o := j.r.objects[t.root].ts;
    var n: nat :| F.Within(GraphOf(t, j), LocalOf(j), o, x, n);
    var seen := set q | q in done && KeptAt(t, j.r, q) :: j.r.objects[q].ts;
    assert HasObject(t, j, done, o);
    if x !in seen {
      var y, u := F.EdgeOut(GraphOf(t, j), LocalOf(j), seen, o, x, n);
      var q :| q in done && KeptAt(t, j.r, q) && j.r.objects[q].ts == y;
      LeadsInto(t, j, done, q, u);
      assert false;
    }
  }

  // ---- ... and no more than that -------------------------------------------------------------

  /** q has got p for an entry that stayed, or p holds a finished task of q's object. */
  ghost predicate Hop(t: Threads, j: Joint, done: set<R.Address>, q: R.Address, p: R.Address) {
    && q in j.r.objects && p in done && p in j.r.objects
    && (|| p in Finished(t, j, j.r.objects[q].ts)
        || exists k, z :: Lists(j.stay, j.r.objects[q].ts, k, z) && z in j.r.objects && Entry(q, k, z, p) in j.held)
  }

  /** A walk from the thread object to p. */
  ghost predicate Walk(t: Threads, j: Joint, done: set<R.Address>, walk: seq<R.Address>, p: R.Address) {
    && walk != [] && walk[0] == t.root && walk[|walk| - 1] == p
    && forall i {:trigger HopAt(t, j, done, walk, i)} :: 0 <= i < |walk| - 1 ==> HopAt(t, j, done, walk, i)
  }

  ghost predicate HopAt(t: Threads, j: Joint, done: set<R.Address>, walk: seq<R.Address>, i: nat)
    requires i + 1 < |walk|
  {
    walk[i] in done && Hop(t, j, done, walk[i], walk[i + 1])
  }

  lemma WalkOn(t: Threads, j: Joint, done: set<R.Address>, walk: seq<R.Address>, q: R.Address, p: R.Address)
    requires Walk(t, j, done, walk, q) && q in done && Hop(t, j, done, q, p)
    ensures Walk(t, j, done, walk + [p], p)
  {
    var more := walk + [p];
    forall i | 0 <= i < |more| - 1
      ensures HopAt(t, j, done, more, i)
    {
      if i < |walk| - 1 {
        assert HopAt(t, j, done, walk, i);
      }
    }
  }

  lemma WalkBack(t: Threads, j: Joint, done: set<R.Address>, walk: seq<R.Address>, p: R.Address) returns (q: R.Address)
    requires Walk(t, j, done, walk, p) && |walk| > 1
    ensures Walk(t, j, done, walk[..|walk| - 1], q) && q in done && Hop(t, j, done, q, p)
  {
    q := walk[|walk| - 2];
    var less := walk[..|walk| - 1];
    assert HopAt(t, j, done, walk, |walk| - 2);
    forall i | 0 <= i < |less| - 1
      ensures HopAt(t, j, done, less, i)
    {
      assert HopAt(t, j, done, walk, i);
    }
  }

  /** The part of `done` that the thread object leads to. */
  ghost function Core(t: Threads, j: Joint, done: set<R.Address>): set<R.Address> {
    set p | p in done && exists walk :: Walk(t, j, done, walk, p)
  }

  lemma CoreDone(t: Threads, j: Joint, done: set<R.Address>)
    requires Within(j.stay, j.side) && EntriesOk(t, j) && DoneWith(t, j, done)
    ensures DoneWith(t, j, Core(t, j, done))
  {
    var core := Core(t, j, done);
    assert Walk(t, j, done, [t.root], t.root);
    forall q | q in core
      ensures DoneAt(t, j, core, q) && HeldAt(t, j, core, q)
    {
      var walk :| Walk(t, j, done, walk, q);
      CoreDoneAt(t, j, done, q, walk);
      CoreHeldAt(t, j, done, q, walk);
    }
  }

  lemma CoreDoneAt(t: Threads, j: Joint, done: set<R.Address>, q: R.Address, walk: seq<R.Address>)
    requires EntriesOk(t, j) && DoneWith(t, j, done) && q in done && Walk(t, j, done, walk, q)
    ensures DoneAt(t, j, Core(t, j, done), q)
  {
    assert DoneAt(t, j, done, q);
    var y := j.r.objects[q].ts;
    forall k, z | Lists(j.stay, y, k, z) && z in j.r.objects
      ensures FilledIn(j, Core(t, j, done), q, k, z)
    {
      assert FilledIn(j, done, q, k, z);
      var p :| p in done && Entry(q, k, z, p) in j.held;
      assert EntryOk(t, j.r, Entry(q, k, z, p));
      WalkOn(t, j, done, walk, q, p);
    }
    forall p | p in Finished(t, j, y) && p in j.r.objects
      ensures p in Core(t, j, done)
    {
      WalkOn(t, j, done, walk, q, p);
    }
  }

  lemma CoreHeldAt(t: Threads, j: Joint, done: set<R.Address>, p: R.Address, walk: seq<R.Address>)
    requires Within(j.stay, j.side) && p in done && Walk(t, j, done, walk, p)
    ensures HeldAt(t, j, Core(t, j, done), p)
  {
    if |walk| > 1 {
      var q := WalkBack(t, j, done, walk, p);
      if p in Finished(t, j, j.r.objects[q].ts) {
        FinishedHeld(t, j, j.r.objects[q].ts, p);
      } else {
        var k, z :| Lists(j.stay, j.r.objects[q].ts, k, z) && z in j.r.objects && Entry(q, k, z, p) in j.held;
        assert q in Core(t, j, done);
      }
    }
  }

  lemma {:induction false} ObjectsHave(r: R.Registry, ps: seq<R.Address>, p: R.Address)
    requires p in ps && p in r.objects
    ensures r.objects[p].ts in ObjectsOf(r, ps)
    decreases |ps|
  {
    var n := |ps| - 1;
    assert ps == ps[..n] + [ps[n]];
    if p in ps[..n] {
      ObjectsHave(r, ps[..n], p);
    }
  }

  /** An entry that stayed is an edge of the graph. */
  lemma EntryEdge(t: Threads, j: Joint, y: R.Address, k: F.Key, z: R.Address)
    requires Lists(j.stay, y, k, z) && z in j.r.objects && y in j.r.refcount
    requires F.WellFormed(GraphOf(t, j)) && F.Covers(GraphOf(t, j), LocalOf(j))
    ensures F.Leads(GraphOf(t, j), LocalOf(j), y, j.r.objects[z].ts)
  {
    var g := GraphOf(t, j);
    assert g.props[y] == TargetsOf(j.r, TableOf(j.stay, y));
    var i :| 0 <= i < |TableOf(j.stay, y)| && TableOf(j.stay, y)[i] == (k, Ref(z));
    assert g.props[y][i] == (k, F.Child(j.r.objects[z].ts));
    assert F.LeadsBy(g, LocalOf(j), y, i, j.r.objects[z].ts);
  }

  /** So is a finished task. */
  lemma TaskEdge(t: Threads, j: Joint, y: R.Address, p: R.Address)
    requires p in Finished(t, j, y) && p in j.r.objects && y in j.r.refcount
    requires F.WellFormed(GraphOf(t, j)) && F.Covers(GraphOf(t, j), LocalOf(j))
    ensures F.Leads(GraphOf(t, j), LocalOf(j), y, j.r.objects[p].ts)
  {
    var g := GraphOf(t, j);
    assert g.garbage[y] == ObjectsOf(j.r, Finished(t, j, y));
    ObjectsHave(j.r, Finished(t, j, y), p);
    assert j.r.objects[p].ts in g.garbage[y];
  }

  lemma HopLeads(t: Threads, j: Joint, done: set<R.Address>, q: R.Address, p: R.Address)
    requires EntriesOk(t, j) && Hop(t, j, done, q, p) && j.r.objects[q].ts in j.r.refcount
    requires F.WellFormed(GraphOf(t, j)) && F.Covers(GraphOf(t, j), LocalOf(j))
    ensures F.Leads(GraphOf(t, j), LocalOf(j), j.r.objects[q].ts, j.r.objects[p].ts)
  {
    var y := j.r.objects[q].ts;
    if p in Finished(t, j, y) {
      TaskEdge(t, j, y, p);
    } else {
      var k, z :| Lists(j.stay, y, k, z) && z in j.r.objects && Entry(q, k, z, p) in j.held;
      assert EntryOk(t, j.r, Entry(q, k, z, p));
      EntryEdge(t, j, y, k, z);
    }
  }

  /** So the object of every connection in the core is reached. */
  lemma {:induction false} WalkReaches(t: Threads, j: Joint, done: set<R.Address>, walk: seq<R.Address>, p: R.Address)
    requires R.Inv(j.r) && SideOk(j.stay) && EntriesOk(t, j) && t.root in j.r.objects
    requires Walk(t, j, done, walk, p)
    ensures p in j.r.objects && Reaches(t, j, j.r.objects[p].ts)
    decreases |walk|
  {
    if |walk| == 1 {
      RootReached(t, j);
    } else {
      var q := WalkBack(t, j, done, walk, p);
      WalkReaches(t, j, done, walk[..|walk| - 1], q);
      HopReaches(t, j, done, q, p);
    }
  }

  lemma RootReached(t: Threads, j: Joint)
    requires R.Inv(j.r) && SideOk(j.stay) && t.root in j.r.objects
    ensures Reaches(t, j, j.r.objects[t.root].ts)
  {
    GraphOk(t, j);
    assert F.Within(GraphOf(t, j), LocalOf(j), j.r.objects[t.root].ts, j.r.objects[t.root].ts, 0);
  }

  lemma HopReaches(t: Threads, j: Joint, done: set<R.Address>, q: R.Address, p: R.Address)
    requires R.Inv(j.r) && SideOk(j.stay) && EntriesOk(t, j) && Hop(t, j, done, q, p)
    requires Reaches(t, j, j.r.objects[q].ts)
    ensures Reaches(t, j, j.r.objects[p].ts)
  {
    GraphOk(t, j);
    HopLeads(t, j, done, q, p);
    F.ReachedStep(GraphOf(t, j), LocalOf(j), j.r.objects[t.root].ts, j.r.objects[q].ts, j.r.objects[p].ts);
  }

  // ---- What is reached, said in terms of tables, caches and queues alone --------------------

  /**
   Object y's table refers to z under k, and the creator caches nothing there that is up to date: an
   entry is outdated if y is not in sync and the table does not confirm it.
   */
  predicate DueIn(side: Side, y: R.Address, k: F.Key, z: R.Address) {
    && y in side.tables && (k, Ref(z)) in side.tables[y]
    && (y in side.cache && k in side.cache[y] ==>
          y !in side.inSync && (y in side.confirmed ==> k !in side.confirmed[y]))
  }

  lemma ListsIsDue(side: Side, y: R.Address, k: F.Key, z: R.Address)
    ensures Lists(side, y, k, z) <==> DueIn(side, y, k, z)
  {
  }

  /** A node of one of the creator's queues holds a finished task of y by connection p. */
  predicate FinishedBy(t: Threads, j: Joint, y: R.Address, p: R.Address) {
    if t.root in j.r.objects && y == j.r.objects[t.root].ts then exists a :: a in j.w.d.gc && t.node(a) == p
    else y in j.stay.tasks && p in j.stay.tasks[y]
  }

  /** With an object, `all` has everything behind its due entries and its finished tasks. */
  ghost predicate FollowsAll(t: Threads, j: Joint, all: set<R.Address>) {
    && (forall y, k, z :: y in all && DueIn(j.stay, y, k, z) && z in j.r.objects ==> j.r.objects[z].ts in all)
    && (forall y, p :: y in all && FinishedBy(t, j, y, p) && p in j.r.objects ==> j.r.objects[p].ts in all)
  }

  lemma FinishedIs(t: Threads, j: Joint, y: R.Address, p: R.Address)
    ensures p in Finished(t, j, y) <==> FinishedBy(t, j, y, p)
  {
    if t.root in j.r.objects && y == j.r.objects[t.root].ts {
      var ps := Finished(t, j, y);
      if a :| a in j.w.d.gc && t.node(a) == p {
        var i :| 0 <= i < |j.w.d.gc| && j.w.d.gc[i] == a;
        assert ps[i] == p;
      }
    }
  }

  /** Nothing is reached that a set with the thread object and all that follows can do without. */
  lemma ReachedInAll(t: Threads, j: Joint, all: set<R.Address>, x: R.Address)
    requires Reaches(t, j, x) && j.r.objects[t.root].ts in all && FollowsAll(t, j, all)
    ensures x in all
  {
    GraphOk(t, j);
    var o := j.r.objects[t.root].ts;
    var n: nat :| F.Within(GraphOf(t, j), LocalOf(j), o, x, n);
    if x !in all {
      var y, u := F.EdgeOut(GraphOf(t, j), LocalOf(j), all, o, x, n);
      EdgeInAll(t, j, all, y, u);
      assert false;
    }
  }

  lemma EdgeInAll(t: Threads, j: Joint, all: set<R.Address>, y: R.Address, u: R.Address)
    requires R.Inv(j.r) && FollowsAll(t, j, all) && y in all && y in j.r.refcount
    requires F.WellFormed(GraphOf(t, j)) && F.Covers(GraphOf(t, j), LocalOf(j))
    requires F.Leads(GraphOf(t, j), LocalOf(j), y, u)
    ensures u in all
  {
    var i, byEntry := Edge(t, j, y, u);
    if byEntry {
      var (k, stored) := TableOf(j.stay, y)[i];
      ListsIsDue(j.stay, y, k, stored.z);
      assert Lists(j.stay, y, k, stored.z);
    } else {
      ObjectsExist(j.r, Finished(t, j, y));
      var p :| p in Finished(t, j, y) && p in j.r.objects && j.r.objects[p].ts == u;
      FinishedIs(t, j, y, p);
    }
  }

  /** What follows something reached is reached. */
  lemma FollowedReached(t: Threads, j: Joint, y: R.Address)
    requires Reaches(t, j, y)
    ensures forall k, z :: DueIn(j.stay, y, k, z) && z in j.r.objects ==> Reaches(t, j, j.r.objects[z].ts)
    ensures forall p :: FinishedBy(t, j, y, p) && p in j.r.objects ==> Reaches(t, j, j.r.objects[p].ts)
  {
    GraphOk(t, j);
    ReachedExists(t, j, y);
    forall k, z | DueIn(j.stay, y, k, z) && z in j.r.objects
      ensures Reaches(t, j, j.r.objects[z].ts)
    {
      ListsIsDue(j.stay, y, k, z);
      EntryEdge(t, j, y, k, z);
      F.ReachedStep(GraphOf(t, j), LocalOf(j), j.r.objects[t.root].ts, y, j.r.objects[z].ts);
    }
    forall p | FinishedBy(t, j, y, p) && p in j.r.objects
      ensures Reaches(t, j, j.r.objects[p].ts)
    {
      FinishedIs(t, j, y, p);
      TaskEdge(t, j, y, p);
      F.ReachedStep(GraphOf(t, j), LocalOf(j), j.r.objects[t.root].ts, y, j.r.objects[p].ts);
    }
  }

  lemma ReachedExists(t: Threads, j: Joint, y: R.Address)
    requires Reaches(t, j, y)
    ensures y in j.r.refcount
  {
    GraphOk(t, j);
    var n: nat :| F.Within(GraphOf(t, j), LocalOf(j), j.r.objects[t.root].ts, y, n);
    F.WithinExists(GraphOf(t, j), LocalOf(j), j.r.objects[t.root].ts, y, n);
  }

  /** The objects that are reached are the least set with the thread object and all that follows. */
  lemma ReachesLeast(t: Threads, j: Joint) returns (all: set<R.Address>)
    requires R.Inv(j.r) && SideOk(j.stay) && t.root in j.r.objects
    ensures forall x :: x in all <==> Reaches(t, j, x)
    ensures j.r.objects[t.root].ts in all && FollowsAll(t, j, all)
    ensures forall other :: j.r.objects[t.root].ts in other && FollowsAll(t, j, other) ==> all <= other
  {
    all := set x | x in j.r.refcount && Reaches(t, j, x);
    forall x
      ensures x in all <==> Reaches(t, j, x)
    {
      if Reaches(t, j, x) {
        ReachedExists(t, j, x);
      }
    }
    RootReached(t, j);
    forall y | y in all
      ensures forall k, z :: DueIn(j.stay, y, k, z) && z in j.r.objects ==> j.r.objects[z].ts in all
      ensures forall p :: FinishedBy(t, j, y, p) && p in j.r.objects ==> j.r.objects[p].ts in all
    {
      FollowedReached(t, j, y);
    }
    forall other | j.r.objects[t.root].ts in other && FollowsAll(t, j, other)
      ensures all <= other
    {
      forall x | x in all
        ensures x in other
      {
        ReachedInAll(t, j, other, x);
      }
    }
  }

  /**
   A synchronization that is done has got to exactly the objects that the recursive call of
   `FullSync` processes on what stayed.
   */
  lemma CoveredIsFullSync(t: Threads, j: Joint, s': F.Local, visited: set<F.Obj>) returns (done: set<R.Address>)
    requires Inv(t, j) && j.w.cpc.Syncing? && Covered(t, j)
    requires F.WellFormed(GraphOf(t, j)) && F.Covers(GraphOf(t, j), LocalOf(j)) && F.Covers(GraphOf(t, j), s')
    requires F.Progress(GraphOf(t, j), LocalOf(j), s', {}, visited)
    requires j.r.objects[t.root].ts in visited
    requires F.Behind(GraphOf(t, j), LocalOf(j), j.r.objects[t.root].ts, visited)
    ensures DoneWith(t, j, done)
    ensures forall x :: HasObject(t, j, done, x) <==> x in visited
  {
    var all :| DoneWith(t, j, all);
    done := Core(t, j, all);
    CoreDone(t, j, all);
    forall x
      ensures HasObject(t, j, done, x) <==> x in visited
    {
      if x in visited {
        ReachedIsDone(t, j, done, x);
      }
      if HasObject(t, j, done, x) {
        CoreVisited(t, j, all, s', visited, x);
      }
    }
  }

  lemma CoreVisited(t: Threads, j: Joint, all: set<R.Address>, s': F.Local, visited: set<F.Obj>, x: F.Obj)
    requires R.Inv(j.r) && SideOk(j.stay) && EntriesOk(t, j) && t.root in j.r.objects
    requires HasObject(t, j, Core(t, j, all), x)
    requires F.WellFormed(GraphOf(t, j)) && F.Covers(GraphOf(t, j), LocalOf(j)) && F.Covers(GraphOf(t, j), s')
    requires F.Progress(GraphOf(t, j), LocalOf(j), s', {}, visited)
    requires j.r.objects[t.root].ts in visited
    ensures x in visited
  {
    var q :| q in Core(t, j, all) && KeptAt(t, j.r, q) && j.r.objects[q].ts == x;
    var walk :| Walk(t, j, all, walk, q);
    WalkReaches(t, j, all, walk, q);
    F.ReachedIsVisited(GraphOf(t, j), LocalOf(j), s', visited, j.r.objects[t.root].ts, x);
  }

  /** An entry that stayed, refers to a registered connection, and was not filled yet. */
  predicate Missing(j: Joint, q: R.Address, k: F.Key, z: R.Address) {
    && q in j.r.objects && Lists(j.stay, j.r.objects[q].ts, k, z) && z in j.r.objects
    && forall e :: e in j.held ==> e.q != q || e.k != k
  }

  /**
   While the synchronization is not done, and no connection waits to be freed, there is an entry to
   go on with.
   */
  lemma NotCoveredMeets(t: Threads, j: Joint) returns (q: R.Address, k: F.Key, z: R.Address)
    requires Inv(t, j) && j.w.cpc.Syncing? && !Covered(t, j)
    requires forall e :: e in j.held ==> Begun(t, j, e.q)
    ensures Begun(t, j, q) && Missing(j, q, k, z) && Lists(j.side, j.r.objects[q].ts, k, z)
  {
    if forall q, k, z :: !(Begun(t, j, q) && Missing(j, q, k, z)) {
      NothingMissing(t, j);
      assert false;
    }
    q, k, z :| Begun(t, j, q) && Missing(j, q, k, z);
  }

  /** All connections that the synchronization has got to. */
  function AllBegun(t: Threads, j: Joint): set<R.Address> {
    {t.root} + (set a | a in Waiting(j.w) :: t.node(a)) + (set e | e in j.held :: e.p)
      + (set ts, i | ts in j.side.tasks && 0 <= i < |j.side.tasks[ts]| :: j.side.tasks[ts][i])
  }

  lemma NothingMissing(t: Threads, j: Joint)
    requires Inv(t, j) && j.w.cpc.Syncing?
    requires forall e :: e in j.held ==> Begun(t, j, e.q)
    requires forall q, k, z :: !(Begun(t, j, q) && Missing(j, q, k, z))
    ensures Covered(t, j)
  {
    var done := AllBegun(t, j);
    forall q
      ensures q in done <==> Begun(t, j, q)
    {
    }
    forall q | q in done
      ensures DoneAt(t, j, done, q) && HeldAt(t, j, done, q)
    {
      assert Begun(t, j, q) && KeptAt(t, j.r, q);
      var y := j.r.objects[q].ts;
      forall k, z | Lists(j.stay, y, k, z) && z in j.r.objects
        ensures FilledIn(j, done, q, k, z)
      {
        assert !Missing(j, q, k, z);
        var e :| e in j.held && e.q == q && e.k == k;
        assert Unchanged(j, e) && e.p in done && e == Entry(q, k, z, e.p);
      }
      forall p | p in Finished(t, j, y) && p in j.r.objects
        ensures p in done
      {
        FinishedHeld(t, j, y, p);
      }
    }
    assert DoneWith(t, j, done);
  }

  lemma FinishedHeld(t: Threads, j: Joint, y: R.Address, p: R.Address)
    requires Within(j.stay, j.side) && p in Finished(t, j, y)
    ensures HeldByNode(t, j, p)
  {
    if t.root in j.r.objects && y == j.r.objects[t.root].ts {
      var i :| 0 <= i < |j.w.d.gc| && t.node(j.w.d.gc[i]) == p;
      assert j.w.d.gc[i] in Waiting(j.w);
    } else {
      assert TasksOf(j.stay, y) <= TasksOf(j.side, y);
      assert p in j.side.tasks[y];
    }
  }

  // ---- Afterwards -----------------------------------------------------------------------------

  /**
   Between i and k the creator began to free connection p: out of join, where its code may do so, or
   when nothing referred to p any more.
   */
  ghost predicate LetGo(t: Threads, js: seq<Joint>, es: seq<Event>, i: nat, k: nat, p: R.Address)
    requires |js| == |es| + 1 && k < |js|
  {
    exists e :: i <= e < k && es[e] == Operate(R.FreeBegin(p)) && Unreferenced(t, js[e], p)
  }

  lemma KeptStays(t: Threads, j: Joint, e: Event, j': Joint, p: R.Address)
    requires Inv(t, j) && Step(t, j, e, j') && KeptAt(t, j.r, p)
    ensures e == Operate(R.FreeBegin(p)) ==> Unreferenced(t, j, p)
    ensures e != Operate(R.FreeBegin(p)) ==> KeptAt(t, j'.r, p) && j'.r.objects[p] == j.r.objects[p]
  {
    match e
    case Operate(op) =>
      if op != R.FreeBegin(p) {
        KeptStaysAt(t, j.r, op, p);
      }
    case SyncOne(_, _, z) => KeptStaysAt(t, j.r, R.Resolve(t.creator, z), p);
    case _ =>
  }

  lemma KeptStep(t: Threads, js: seq<Joint>, es: seq<Event>, i: nat, p: R.Address)
    requires Run(t, js, es) && Inv(t, js[0]) && i < |es| && KeptAt(t, js[i].r, p)
    ensures || (es[i] == Operate(R.FreeBegin(p)) && Unreferenced(t, js[i], p))
            || (KeptAt(t, js[i + 1].r, p) && js[i + 1].r.objects[p] == js[i].r.objects[p])
  {
    RunInv(t, js, es, i);
    assert StepAt(t, js, es, i);
    KeptStays(t, js[i], es[i], js[i + 1], p);
  }

  /** A connection of the creator stays until the creator itself lets it go. */
  lemma {:induction false} KeptUntilLetGo(t: Threads, js: seq<Joint>, es: seq<Event>, i: nat, k: nat, p: R.Address)
    requires Run(t, js, es) && Inv(t, js[0]) && i <= k < |js| && KeptAt(t, js[i].r, p)
    ensures LetGo(t, js, es, i, k, p) || (KeptAt(t, js[k].r, p) && js[k].r.objects[p] == js[i].r.objects[p])
    decreases k
  {
    if i < k {
      KeptUntilLetGo(t, js, es, i, k - 1, p);
      if !LetGo(t, js, es, i, k - 1, p) {
        KeptStep(t, js, es, k - 1, p);
      }
    }
  }

  /** The creator has connection p to shared object x, which is allocated and counted accurately. */
  ghost predicate Alive(t: Threads, j: Joint, x: R.Address, p: R.Address) {
    && KeptAt(t, j.r, p) && j.r.objects[p].ts == x
    && x in j.r.refcount && j.r.refcount[x] == |R.Connections(j.r, x)| > 0
  }

  lemma KeptAlive(t: Threads, j: Joint, p: R.Address)
    requires R.Inv(j.r) && KeptAt(t, j.r, p)
    ensures Alive(t, j, j.r.objects[p].ts, p)
  {
    assert R.CountedAt(j.r, j.r.objects[p].ts);
  }

  /**
   What one entry is given: if the synchronization fills an entry that refers to a registered
   address, whoever owns the connection there, the creator has a live connection to its shared
   object in every later state until it lets that connection go itself.
   */
  lemma MetObjectLives(t: Threads, js: seq<Joint>, es: seq<Event>, m: nat, n: nat, q: R.Address, k: F.Key, z: R.Address)
    returns (p: R.Address)
    requires Run(t, js, es) && Inv(t, js[0]) && m < n < |js|
    requires es[m] == SyncOne(q, k, z) && z in js[m].r.objects
    ensures LetGo(t, js, es, m + 1, n, p) || Alive(t, js[n], js[m].r.objects[z].ts, p)
  {
    p := Obtained(t, js, es, m, q, k, z);
    KeptUntilLetGo(t, js, es, m + 1, n, p);
    if !LetGo(t, js, es, m + 1, n, p) {
      RunInv(t, js, es, n);
      KeptAlive(t, js[n], p);
    }
  }

  lemma Obtained(t: Threads, js: seq<Joint>, es: seq<Event>, m: nat, q: R.Address, k: F.Key, z: R.Address)
    returns (p: R.Address)
    requires Run(t, js, es) && Inv(t, js[0]) && m < |es| && es[m] == SyncOne(q, k, z) && z in js[m].r.objects
    ensures Entry(q, k, z, p) in js[m + 1].held
    ensures KeptAt(t, js[m + 1].r, p) && js[m + 1].r.objects[p].ts == js[m].r.objects[z].ts
  {
    RunInv(t, js, es, m);
    assert StepAt(t, js, es, m);
    BegunKept(t, js[m], q);
    NewEntryOk(t, js[m].r, q, k, z);
    p := R.Apply(js[m].r, R.Resolve(t.creator, z)).1.value;
  }

  /** Inside join, after the synchronization, a set that holds itself goes on holding itself. */
  lemma SupportStays(t: Threads, j: Joint, e: Event, j': Joint, done: set<R.Address>)
    requires Inv(t, j) && Step(t, j, e, j') && Supported(t, j, done) && Inside(j.w)
    requires !j.w.cpc.Syncing? || e == Protocol(W.SyncAll)
    ensures Supported(t, j', done)
  {
    if e.Protocol? {
      WaitingMoves(j.w, e.a, j'.w);
    }
    forall p | p in done
      ensures HeldAt(t, j', done, p)
    {
      assert HeldAt(t, j, done, p);
      if HeldByNode(t, j, p) {
        NodeStays(t, j, e, j', p);
      } else if p != t.root {
        var d :| d in j.held && d.p == p && d.q in done;
        EntrySurvives(t, j, e, j', done, d);
      }
    }
  }

  lemma NodeStays(t: Threads, j: Joint, e: Event, j': Joint, p: R.Address)
    requires Inv(t, j) && Step(t, j, e, j') && Inside(j.w) && HeldByNode(t, j, p)
    ensures HeldByNode(t, j', p)
  {
    if a :| a in Waiting(j.w) && t.node(a) == p {
      if e.Protocol? {
        WaitingMoves(j.w, e.a, j'.w);
      }
      assert a in Waiting(j'.w);
    } else {
      var ts :| ts in j.side.tasks && p in j.side.tasks[ts];
      assert TasksOf(j.side, ts) <= TasksOf(j'.side, ts);
    }
  }

  lemma EntrySurvives(t: Threads, j: Joint, e: Event, j': Joint, done: set<R.Address>, d: Entry)
    requires Inv(t, j) && Step(t, j, e, j') && Inside(j.w) && Supported(t, j, done)
    requires !j.w.cpc.Syncing? || e == Protocol(W.SyncAll)
    requires d in j.held && d.q in done
    ensures d in j'.held
  {
    if e.Operate? && e.op.FreeBegin? {
      assert HeldAt(t, j, done, d.q);
      assert Caches(j, d.p);
    }
  }

  /** From the end of the synchronization to the return of join. */
  lemma StaysInside(t: Threads, j: Joint, e: Event, j': Joint)
    requires Inv(t, j) && Step(t, j, e, j')
    ensures Inside(j.w) && !j.w.cpc.Syncing? && e != Protocol(W.Reap) ==> Inside(j'.w) && !j'.w.cpc.Syncing?
    ensures e == Protocol(W.SyncAll) ==> Inside(j.w) && Inside(j'.w) && !j'.w.cpc.Syncing?
  {
    if e.Protocol? {
      MovesInside(j.w, e.a, j'.w);
    }
  }

  lemma MovesInside(w: W.State, a: W.Step, w': W.State)
    requires W.Next(w, a, w')
    ensures Inside(w) && !w.cpc.Syncing? && a != W.Reap ==> Inside(w') && !w'.cpc.Syncing?
    ensures a == W.SyncAll ==> Inside(w) && Inside(w') && !w'.cpc.Syncing?
  {
    if W.ByWorker(a) {
      WorkerLeaves(w, a, w');
    }
  }

  /** A step of the worker moves the creator, if it waits, no further than to wake it. */
  lemma WorkerLeaves(w: W.State, a: W.Step, w': W.State)
    requires W.WorkerNext(w, a, w')
    ensures w'.cpc == w.cpc || (w.cpc.Joining? && w'.cpc.Joining?) || (w.cpc.WaitingReady? && w'.cpc.WaitingReady?)
    ensures w.exit == w'.exit
  {
    match a
    case NextTask =>
      PurgeLeaves(w);
      FetchLeaves(W.PurgeSection(w));
    case _ =>
  }

  lemma PurgeLeaves(w: W.State)
    ensures W.PurgeSection(w).cpc == w.cpc || (w.cpc.Joining? && W.PurgeSection(w).cpc.Joining?)
            || (w.cpc.WaitingReady? && W.PurgeSection(w).cpc.WaitingReady?)
    ensures W.PurgeSection(w).exit == w.exit
  {
  }

  lemma FetchLeaves(w: W.State)
    ensures W.TakeSection(w).cpc == w.cpc && W.TakeSection(w).exit == w.exit
  {
  }

  /** The set of connections that the synchronization got to holds itself until join returns. */
  lemma {:induction false} DoneStays(t: Threads, js: seq<Joint>, es: seq<Event>, b: nat, n: nat, done: set<R.Address>)
    requires Run(t, js, es) && Inv(t, js[0]) && b < n < |js| && es[b] == Protocol(W.SyncAll)
    requires Supported(t, js[b], done)
    requires forall i :: b < i < n ==> es[i] != Protocol(W.Reap)
    ensures Supported(t, js[n], done) && Inside(js[n].w) && !js[n].w.cpc.Syncing?
    decreases n
  {
    if b < n - 1 {
      DoneStays(t, js, es, b, n - 1, done);
    }
    DoneStep(t, js, es, n - 1, done);
  }

  lemma DoneStep(t: Threads, js: seq<Joint>, es: seq<Event>, i: nat, done: set<R.Address>)
    requires Run(t, js, es) && Inv(t, js[0]) && i < |es| && Supported(t, js[i], done)
    requires es[i] == Protocol(W.SyncAll) || (Inside(js[i].w) && !js[i].w.cpc.Syncing? && es[i] != Protocol(W.Reap))
    ensures Supported(t, js[i + 1], done) && Inside(js[i + 1].w) && !js[i + 1].w.cpc.Syncing?
  {
    RunInv(t, js, es, i);
    assert StepAt(t, js, es, i);
    StaysInside(t, js[i], es[i], js[i + 1]);
    SupportStays(t, js[i], es[i], js[i + 1], done);
  }

  /** A connection in that set is not let go before join returns. */
  lemma NotLetGoInside(t: Threads, js: seq<Joint>, es: seq<Event>, b: nat, n: nat, done: set<R.Address>, p: R.Address)
    requires Run(t, js, es) && Inv(t, js[0]) && b < n < |js| && es[b] == Protocol(W.SyncAll)
    requires Supported(t, js[b], done) && p in done
    requires forall i :: b < i < n ==> es[i] != Protocol(W.Reap)
    ensures !LetGo(t, js, es, b, n, p)
  {
    forall e | b <= e < n && es[e] == Operate(R.FreeBegin(p))
      ensures !Unreferenced(t, js[e], p)
    {
      DoneStays(t, js, es, b, e, done);
      assert HeldAt(t, js[e], done, p);
    }
  }

  /**
   Join loses nothing.  Take any run and the step b that ends the creator's final synchronization,
   whatever other threads wrote meanwhile.  Every shared object that full synchronization reaches
   from the thread object, over entries and finished tasks that stayed, is alive in every later
   state n through a connection of the creator, be the child's own connections dropped or not, until
   the creator itself lets that connection go, which it does not before join has returned.
   */
  lemma JoinKeepsObjects(t: Threads, js: seq<Joint>, es: seq<Event>, w: bool, side: Side, b: nat, n: nat, x: R.Address)
    returns (p: R.Address, done: set<R.Address>)
    requires SideOk(side) && Run(t, js, es) && js[0] == Start(w, side) && b < n < |js|
    requires es[b] == Protocol(W.SyncAll) && Reaches(t, js[b], x)
    ensures p in done && Supported(t, js[b], done)
    ensures LetGo(t, js, es, b, n, p) || Alive(t, js[n], x, p)
    ensures (forall i :: b < i < n ==> es[i] != Protocol(W.Reap)) ==> Alive(t, js[n], x, p)
  {
    StartInv(t, w, side);
    p, done := SyncHolds(t, js, es, b, x);
    KeptUntilLetGo(t, js, es, b, n, p);
    if !LetGo(t, js, es, b, n, p) {
      RunInv(t, js, es, n);
      KeptAlive(t, js[n], p);
    }
    if forall i :: b < i < n ==> es[i] != Protocol(W.Reap) {
      NotLetGoInside(t, js, es, b, n, done, p);
    }
  }

  lemma SyncHolds(t: Threads, js: seq<Joint>, es: seq<Event>, b: nat, x: R.Address)
    returns (p: R.Address, done: set<R.Address>)
    requires Run(t, js, es) && Inv(t, js[0]) && b < |es| && es[b] == Protocol(W.SyncAll) && Reaches(t, js[b], x)
    ensures p in done && Supported(t, js[b], done) && KeptAt(t, js[b].r, p) && js[b].r.objects[p].ts == x
  {
    RunInv(t, js, es, b);
    assert StepAt(t, js, es, b);
    done :| DoneWith(t, js[b], done);
    ReachedIsDone(t, js[b], done, x);
    p :| p in done && KeptAt(t, js[b].r, p) && js[b].r.objects[p].ts == x;
  }

  /** In particular when join returns, which it does only after the child has exited. */
  lemma JoinReturns(t: Threads, js: seq<Joint>, es: seq<Event>, w: bool, side: Side, b: nat, n: nat, x: R.Address)
    returns (p: R.Address)
    requires SideOk(side) && Run(t, js, es) && js[0] == Start(w, side) && b < n < |es|
    requires es[b] == Protocol(W.SyncAll) && Reaches(t, js[b], x)
    requires es[n] == Protocol(W.Reap) && forall i :: b < i < n ==> es[i] != Protocol(W.Reap)
    ensures js[n].w.wpc.Exited? && Alive(t, js[n + 1], x, p)
  {
    var done;
    p, done := JoinKeepsObjects(t, js, es, w, side, b, n, x);
    StartInv(t, w, side);
    ReapStep(t, js, es, n);
  }

  lemma ReapStep(t: Threads, js: seq<Joint>, es: seq<Event>, n: nat)
    requires Run(t, js, es) && Inv(t, js[0]) && n < |es| && es[n] == Protocol(W.Reap)
    ensures js[n].w.wpc.Exited? && js[n + 1].r == js[n].r
  {
    assert StepAt(t, js, es, n);
  }
}
