/**
 The life of a thread or worker: start, run, the task loop, and the join handshake.

 Every critical section under the worker's monitor is one step; waiting on the condition
 releases the monitor, and a sleeper wakes when it was notified, or for no reason at all
 (POSIX.1-2017, pthread_cond_wait).  A task is identified by its queue node.
 */
module WorkerProtocol {
  import opened Wrappers

  type Task = nat
  /** struct _pthreads_worker_data_t, with the two monitor flags the task loop looks at. */
  datatype Data = Data(queue: seq<Task>, gc: seq<Task>, running: Option<Task>, tasksCollected: nat,
                       collect: bool, joined: bool)

  datatype Waiter = Checking | Asleep(woken: bool)

  datatype WorkerPc =
    | NotStarted
    | Starting                 // thread created, not yet ready
    | RunningSelf              // inside its own run()
    | Fetching(w: Waiter)      // in pthreads_worker_next_task
    | Running(t: Task)         // inside the run() of a task
    | Returning(t: Task)       // run() returned, task not yet garbage
    | Caching(t: Task)         // between the unlock in add_garbage and the push on the done cache
    | Leaving                  // left the loop, has not announced it
    | AwaitingExit(w: Waiter)  // in wait_until(EXIT)
    | Exiting                  // may drop its local objects
    | Exited

  datatype CreatorPc =
    | Free                     // not inside start or join
    | WaitingReady(w: Waiter)
    | Joining(w: Waiter)       // in wait_until(AWAIT_JOIN)
    | Syncing                  // about to synchronize all properties
    | Releasing                // synchronized, has not set EXIT
    | Reaping                  // in pthread_join

  /** What has happened so far, in order. */
  datatype History = History(
    stacked: seq<Task>,              // nodes pushed on the queue
    left: seq<(Task, bool)>,         // nodes that left the queue; true: taken by the worker, false: unstacked
    executed: seq<Task>,             // tasks the worker took
    collected: seq<Task>,            // tasks whose nodes the creator's collector accepted and freed
    purged: seq<Task>,               // entries dropped from the done cache
    synced: set<Task>,               // tasks the creator fully synchronized
    rootSynced: bool)                // the thread object itself was fully synchronized by join

  datatype State = State(isWorker: bool, d: Data, done: seq<Task>, wpc: WorkerPc, cpc: CreatorPc,
                         started: bool, ready: bool, awaitJoin: bool, exit: bool, h: History)

  // ---- Critical sections of src/worker.c ------------------------------------------

  function AddTask(d: Data, t: Task): Data { d.(queue := d.queue + [t]) }

  /** pthreads_worker_add_task notifies only when it finds the queue empty. */
  predicate AddTaskNotifies(d: Data) { |d.queue| == 0 }

  function DequeueTask(d: Data): Data {
    if d.queue == [] then d else d.(queue := d.queue[1..])
  }

  function AddGarbage(d: Data, t: Task): Data { d.(gc := d.gc + [t], running := None) }

  /** The collector accepted the first n finished tasks and no more. */
  function CollectTasks(d: Data, n: nat): Data
    requires n <= |d.gc|
  {
    d.(gc := d.gc[n..], tasksCollected := d.tasksCollected + n, collect := d.collect || n > 0)
  }

  function Purge(d: Data): Data {
    if d.collect then d.(tasksCollected := 0, collect := false) else d
  }

  function PurgedDone(d: Data, done: seq<Task>): seq<Task> {
    if !d.collect then done else if d.tasksCollected <= |done| then done[d.tasksCollected..] else []
  }

  function TakeTask(d: Data): Data
    requires d.queue != []
  {
    d.(queue := d.queue[1..], running := Some(d.queue[0]))
  }

  // ---- Notification -----------------------------------------------------------------

  function Wake(w: Waiter): Waiter { if w.Asleep? then Asleep(true) else w }

  function WakeWorker(p: WorkerPc): WorkerPc {
    match p
    case Fetching(w) => Fetching(Wake(w))
    case AwaitingExit(w) => AwaitingExit(Wake(w))
    case _ => p
  }

  function WakeCreator(p: CreatorPc): CreatorPc {
    match p
    case Joining(w) => Joining(Wake(w))
    case _ => p
  }

  /** pthread_cond_broadcast on the worker's monitor. */
  function Broadcast(s: State): State { s.(wpc := WakeWorker(s.wpc), cpc := WakeCreator(s.cpc)) }

  function BroadcastIf(s: State, b: bool): State { if b then Broadcast(s) else s }

  /** A waiter that holds the monitor and may look at its condition. */
  predicate Awake(w: Waiter) { w.Checking? || w.woken }

  // ---- Steps --------------------------------------------------------------------------

  datatype Step =
    // creator
    | Start | ReadyTest | Stack(t: Task) | Unstack | Collect(n: nat)
    | Join | JoinTest | SyncAll | Release | Reap
    // worker
    | Ready | SelfDone | NextTask | RunDone | Garbage | Cache | Await | ExitTest | DropLocals
    // environment
    | SpuriousWorker | SpuriousCreator

  predicate ByWorker(a: Step) {
    || a.Ready? || a.SelfDone? || a.NextTask? || a.RunDone? || a.Garbage? || a.Cache?
    || a.Await? || a.ExitTest? || a.DropLocals?
  }

  function Prefix(s: seq<Task>, n: nat): seq<Task> { if n <= |s| then s[..n] else s }

  function SeqSet(s: seq<Task>): set<Task> { set t | t in s }

  predicate Next(s: State, a: Step, s': State) {
    if ByWorker(a) then WorkerNext(s, a, s') else CreatorNext(s, a, s')
  }

  predicate CreatorNext(s: State, a: Step, s': State) {
    match a
    case Start =>
      s.cpc.Free? && !s.started &&
      s' == Broadcast(s).(started := true, wpc := Starting, cpc := WaitingReady(Checking))
    case ReadyTest =>
      s.cpc.WaitingReady? && Awake(s.cpc.w) &&
      s' == s.(cpc := if s.ready then Free else WaitingReady(Asleep(false)))
    case Stack(t) =>
      s.cpc.Free? && s.isWorker && t !in s.h.stacked &&
      s' == BroadcastIf(s, AddTaskNotifies(s.d)).(d := AddTask(s.d, t), h := s.h.(stacked := s.h.stacked + [t]))
    case Unstack =>
      s.cpc.Free? && s.isWorker &&
      s' == s.(d := DequeueTask(s.d),
               h := if s.d.queue == [] then s.h else s.h.(left := s.h.left + [(s.d.queue[0], false)]))
    case Collect(n) =>
      s.cpc.Free? && s.isWorker && n <= |s.d.gc| &&
      s' == BroadcastIf(s, n > 0).(
              d := CollectTasks(s.d, n),
              h := s.h.(collected := s.h.collected + s.d.gc[..n],
                        synced := s.h.synced + SeqSet(Prefix(s.d.gc, n + 1))))
    case Join =>
      s.cpc.Free? && s.started && !s.d.joined &&
      s' == Broadcast(s).(d := s.d.(joined := true), cpc := Joining(Checking))
    case JoinTest =>
      s.cpc.Joining? && Awake(s.cpc.w) &&
      s' == s.(cpc := if s.awaitJoin then Syncing else Joining(Asleep(false)))
    case SyncAll =>
      s.cpc.Syncing? &&
      s' == s.(cpc := Releasing, h := s.h.(synced := s.h.synced + SeqSet(s.d.gc), rootSynced := true))
    case Release =>
      s.cpc.Releasing? && s' == Broadcast(s).(exit := true, cpc := Reaping)
    case Reap =>
      s.cpc.Reaping? && s.wpc.Exited? && s' == s.(cpc := Free)
    case SpuriousWorker => s' == s.(wpc := WakeWorker(s.wpc))
    case SpuriousCreator =>
      s' == s.(cpc := if s.cpc.WaitingReady? then WaitingReady(Wake(s.cpc.w)) else WakeCreator(s.cpc))
    case _ => false
  }

  /** pthreads_worker_next_task between taking the monitor, or waking up, and leaving it again. */
  function NextTaskSection(s: State): State { TakeSection(PurgeSection(s)) }

  /** Its first part: drop from the done cache what was collected meanwhile. */
  function PurgeSection(s: State): State {
    BroadcastIf(s, s.d.collect).(
      d := Purge(s.d), done := PurgedDone(s.d, s.done),
      h := s.h.(purged := s.h.purged + if s.d.collect then Prefix(s.done, s.d.tasksCollected) else []))
  }

  /** Its second part: take a task, leave, or wait. */
  function TakeSection(p: State): State {
    if p.d.queue == [] then
      p.(wpc := if p.d.joined then Leaving else Fetching(Asleep(false)))
    else
      var t := p.d.queue[0];
      p.(d := TakeTask(p.d), wpc := Running(t),
         h := p.h.(left := p.h.left + [(t, true)], executed := p.h.executed + [t]))
  }

  predicate WorkerNext(s: State, a: Step, s': State) {
    match a
    case Ready =>
      s.wpc.Starting? &&
      s' == s.(ready := true, wpc := RunningSelf,
               cpc := if s.cpc.WaitingReady? then WaitingReady(Wake(s.cpc.w)) else s.cpc)
    case SelfDone =>
      s.wpc.RunningSelf? && s' == s.(wpc := if s.isWorker then Fetching(Checking) else Leaving)
    case NextTask => s.wpc.Fetching? && Awake(s.wpc.w) && s' == NextTaskSection(s)
    case RunDone => s.wpc.Running? && s' == s.(wpc := Returning(s.wpc.t))
    case Garbage => s.wpc.Returning? && s' == s.(d := AddGarbage(s.d, s.wpc.t), wpc := Caching(s.wpc.t))
    case Cache => s.wpc.Caching? && s' == s.(done := s.done + [s.wpc.t], wpc := Fetching(Checking))
    case Await => s.wpc.Leaving? && s' == Broadcast(s).(awaitJoin := true, wpc := AwaitingExit(Checking))
    case ExitTest =>
      s.wpc.AwaitingExit? && Awake(s.wpc.w) &&
      s' == s.(wpc := if s.exit then Exiting else AwaitingExit(Asleep(false)))
    case DropLocals => s.wpc.Exiting? && s' == s.(done := [], wpc := Exited)
    case _ => false
  }

  function Initial(isWorker: bool): State {
    State(isWorker, Data([], [], None, 0, false, false), [], NotStarted, Free, false, false, false, false,
          History([], [], [], [], [], {}, false))
  }

  // ---- The invariant --------------------------------------------------------------------

  function Taken(left: seq<(Task, bool)>): seq<Task> {
    if left == [] then []
    else
      var n := |left| - 1;
      Taken(left[..n]) + if left[n].1 then [left[n].0] else []
  }

  function Unstacked(left: seq<(Task, bool)>): seq<Task> {
    if left == [] then []
    else
      var n := |left| - 1;
      Unstacked(left[..n]) + if left[n].1 then [] else [left[n].0]
  }

  function Nodes(left: seq<(Task, bool)>): seq<Task> {
    seq(|left|, i requires 0 <= i < |left| => left[i].0)
  }

  predicate Distinct(s: seq<Task>) {
    forall i, j :: 0 <= i < j < |s| ==> s[i] != s[j]
  }

  function Slot(o: Option<Task>): seq<Task> { if o.Some? then [o.value] else [] }

  /** The one finished task that is not on the done cache yet. */
  function Window(p: WorkerPc): seq<Task> { if p.Caching? then [p.t] else [] }

  /** Tasks leave the queue in stacking order, run in that order, and are collected in that order. */
  predicate Fifo(s: State) {
    && Nodes(s.h.left) + s.d.queue == s.h.stacked
    && Taken(s.h.left) == s.h.executed
    && s.h.collected + s.d.gc + Slot(s.d.running) == s.h.executed
    && Distinct(s.h.stacked)
  }

  predicate RunningOk(s: State) {
    s.d.running == if s.wpc.Running? || s.wpc.Returning? then Some(s.wpc.t) else None
  }

  /** Collected-but-not-purged tasks followed by the gc queue are the done cache, up to the window. */
  predicate Lockstep(s: State) {
    && |s.h.purged| + s.d.tasksCollected == |s.h.collected|
    && s.h.purged == s.h.collected[..|s.h.purged|]
    && (!s.wpc.Exited? ==> s.h.collected[|s.h.purged|..] + s.d.gc == s.done + Window(s.wpc))
    && (s.d.collect <==> s.d.tasksCollected > 0)
  }

  /** Nobody sleeps through the condition it waits for. */
  predicate NoLostWakeup(s: State) {
    && (s.wpc == Fetching(Asleep(false)) ==> s.d.queue == [] && !s.d.joined && !s.d.collect)
    && (s.wpc == AwaitingExit(Asleep(false)) ==> !s.exit)
    && (s.cpc == Joining(Asleep(false)) ==> !s.awaitJoin)
    && (s.cpc == WaitingReady(Asleep(false)) ==> !s.ready)
  }

  predicate Stopped(p: WorkerPc) { p.AwaitingExit? || p.Exiting? || p.Exited? }

  /** How far both sides can be ahead of each other. */
  predicate Phases(s: State) {
    && (s.started <==> !s.wpc.NotStarted?)
    && (s.ready <==> !s.wpc.NotStarted? && !s.wpc.Starting?)
    && (s.awaitJoin <==> Stopped(s.wpc))
    && (s.wpc.Exiting? || s.wpc.Exited? ==> s.exit)
    && (s.cpc.WaitingReady? ==> s.started && !s.d.joined)
    && (s.wpc.Starting? ==> s.cpc.WaitingReady?)
    && (s.cpc.Joining? || s.cpc.Syncing? || s.cpc.Releasing? || s.cpc.Reaping? ==> s.d.joined)
    && (s.cpc.Syncing? || s.cpc.Releasing? ==> s.wpc.AwaitingExit?)
    && (s.exit ==> s.d.joined && s.awaitJoin && s.h.rootSynced && (s.cpc.Reaping? || s.cpc.Free?))
    && (s.d.joined && s.cpc.Free? ==> s.wpc.Exited?)
    && (s.wpc.Exited? ==> s.done == [])
    && (s.cpc.Releasing? ==> s.h.rootSynced)
    && (s.cpc.Reaping? ==> s.exit)
    && (s.d.joined ==> s.ready)
    && (s.isWorker && (s.wpc.Leaving? || s.wpc.AwaitingExit? || s.wpc.Exiting?) ==> s.d.joined && s.d.queue == [])
    && (s.isWorker && s.wpc.Exited? && !s.cpc.Free? ==> s.d.queue == [])
    && (!s.isWorker ==> s.d.queue == [] && s.d.gc == [])
    && (!s.isWorker ==> !s.wpc.Fetching? && !s.wpc.Running? && !s.wpc.Returning? && !s.wpc.Caching?)
  }

  /** Whatever was collected had been synchronized; whatever the exiting worker drops was, too. */
  predicate SyncedFirst(s: State) {
    && (forall t :: t in s.h.collected ==> t in s.h.synced)
    && (s.cpc.Releasing? || s.exit ==> forall t :: t in s.d.gc ==> t in s.h.synced)
  }

  predicate Inv(s: State) {
    Fifo(s) && RunningOk(s) && Lockstep(s) && NoLostWakeup(s) && Phases(s) && SyncedFirst(s)
  }

  lemma InitInv(isWorker: bool)
    ensures Inv(Initial(isWorker))
  {
  }
}
