/**
 Safety of the worker protocol: the invariant holds in every reachable state, whatever
 the interleaving, and what follows from it.
 */
module WorkerSafety {
  import opened Wrappers
  import opened WorkerProtocol

  // ---- Each step keeps the invariant ---------------------------------------------------

  lemma TakenAppend(left: seq<(Task, bool)>, t: Task, taken: bool)
    ensures Taken(left + [(t, taken)]) == Taken(left) + if taken then [t] else []
    ensures Unstacked(left + [(t, taken)]) == Unstacked(left) + if taken then [] else [t]
    ensures Nodes(left + [(t, taken)]) == Nodes(left) + [t]
  {
    var l := left + [(t, taken)];
    assert l[..|l| - 1] == left;
  }

  lemma StartKeeps(s: State, s': State)
    requires Inv(s) && CreatorNext(s, Start, s')
    ensures Inv(s')
  {
  }

  lemma StackKeeps(s: State, t: Task, s': State)
    requires Inv(s) && CreatorNext(s, Stack(t), s')
    ensures Inv(s')
  {
    assert Nodes(s.h.left) + (s.d.queue + [t]) == s.h.stacked + [t];
  }

  lemma UnstackKeeps(s: State, s': State)
    requires Inv(s) && CreatorNext(s, Unstack, s')
    ensures Inv(s')
  {
    if s.d.queue != [] {
      TakenAppend(s.h.left, s.d.queue[0], false);
      assert s.d.queue == [s.d.queue[0]] + s.d.queue[1..];
      assert Nodes(s.h.left) + [s.d.queue[0]] + s.d.queue[1..] == s.h.stacked;
    }
  }

  /** Moving the first n elements of g to the end of c changes nothing in the concatenation. */
  lemma MoveFront(c: seq<Task>, g: seq<Task>, r: seq<Task>, n: nat)
    requires n <= |g|
    ensures (c + g[..n]) + g[n..] + r == c + g + r
  {
    assert g == g[..n] + g[n..];
    assert (c + g[..n]) + g[n..] == c + g;
  }

  lemma MoveFrontAfter(c: seq<Task>, g: seq<Task>, p: nat, n: nat)
    requires n <= |g| && p <= |c|
    ensures (c + g[..n])[..p] == c[..p]
    ensures (c + g[..n])[p..] + g[n..] == c[p..] + g
  {
    assert (c + g[..n])[p..] == c[p..] + g[..n];
    MoveFront(c[p..], g, [], n);
    assert c[p..] + g + [] == c[p..] + g;
    assert (c[p..] + g[..n]) + g[n..] + [] == (c[p..] + g[..n]) + g[n..];
  }

  lemma MoveHead(l: seq<Task>, q: seq<Task>)
    requires q != []
    ensures (l + [q[0]]) + q[1..] == l + q
  {
    assert q == [q[0]] + q[1..];
  }

  lemma CollectFifo(s: State, n: nat, s': State)
    requires Fifo(s) && RunningOk(s) && CreatorNext(s, Collect(n), s')
    ensures Fifo(s') && RunningOk(s')
  {
    assert s'.d.gc == s.d.gc[n..] && s'.h.collected == s.h.collected + s.d.gc[..n];
    assert s'.d.running == s.d.running && s'.d.queue == s.d.queue && s'.h.executed == s.h.executed;
    MoveFront(s.h.collected, s.d.gc, Slot(s.d.running), n);
  }

  lemma CollectLockstep(s: State, n: nat, s': State)
    requires Lockstep(s) && CreatorNext(s, Collect(n), s')
    ensures Lockstep(s')
  {
    assert s'.d.gc == s.d.gc[n..] && s'.h.collected == s.h.collected + s.d.gc[..n];
    assert s'.h.purged == s.h.purged && s'.done == s.done && Window(s'.wpc) == Window(s.wpc);
    MoveFrontAfter(s.h.collected, s.d.gc, |s.h.purged|, n);
  }

  lemma CollectSynced(s: State, n: nat, s': State)
    requires SyncedFirst(s) && CreatorNext(s, Collect(n), s')
    ensures SyncedFirst(s')
  {
    forall t | t in s'.h.collected
      ensures t in s'.h.synced
    {
      if t in s.d.gc[..n] {
        assert t in Prefix(s.d.gc, n + 1);
      }
    }
  }

  lemma CollectKeeps(s: State, n: nat, s': State)
    requires Inv(s) && CreatorNext(s, Collect(n), s')
    ensures Inv(s')
  {
    CollectFifo(s, n, s');
    CollectLockstep(s, n, s');
    CollectSynced(s, n, s');
  }

  lemma JoinKeeps(s: State, a: Step, s': State)
    requires a.Join? || a.JoinTest? || a.ReadyTest? || a.Reap?
    requires Inv(s) && CreatorNext(s, a, s')
    ensures Inv(s')
  {
    match a
    case Join => BroadcastKeeps(s);
    case _ =>
  }

  /** Waking everybody, and a sleeper that wakes for no reason, change no more than who is awake. */
  lemma BroadcastKeeps(s: State)
    requires Inv(s)
    ensures Inv(Broadcast(s))
  {
  }

  lemma SpuriousKeeps(s: State, a: Step, s': State)
    requires a.SpuriousWorker? || a.SpuriousCreator?
    requires Inv(s) && CreatorNext(s, a, s')
    ensures Inv(s')
  {
  }

  lemma SyncKeeps(s: State, a: Step, s': State)
    requires a.SyncAll? || a.Release?
    requires Inv(s) && CreatorNext(s, a, s')
    ensures Inv(s')
  {
  }

  /** s' is s after the head of the queue became the running task. */
  predicate TookHead(s: State, s': State) {
    && s.d.queue != [] && s.d.running == None
    && s'.h.left == s.h.left + [(s.d.queue[0], true)] && s'.h.executed == s.h.executed + [s.d.queue[0]]
    && s'.d.queue == s.d.queue[1..] && s'.d.running == Some(s.d.queue[0])
    && s'.d.gc == s.d.gc && s'.h.collected == s.h.collected && s'.h.stacked == s.h.stacked
  }

  lemma TookHeadFifo(s: State, s': State)
    requires Fifo(s) && TookHead(s, s')
    ensures Fifo(s')
  {
    TakenAppend(s.h.left, s.d.queue[0], true);
    MoveHead(Nodes(s.h.left), s.d.queue);
    assert s.h.collected + s.d.gc + [] == s.h.collected + s.d.gc;
  }

  lemma NextTaskFifo(s: State, s': State)
    requires Fifo(s) && RunningOk(s) && WorkerNext(s, NextTask, s')
    ensures Fifo(s') && RunningOk(s')
  {
    PurgeFifo(s);
    var p := PurgeSection(s);
    if p.d.queue != [] {
      assert TookHead(p, s');
      TookHeadFifo(p, s');
    }
  }

  /** A purge leaves the order of the tasks alone. */
  lemma PurgeFifo(s: State)
    requires Fifo(s) && RunningOk(s) && s.wpc.Fetching?
    ensures Fifo(PurgeSection(s)) && RunningOk(PurgeSection(s)) && PurgeSection(s).wpc.Fetching?
  {
  }

  lemma NextTaskLockstep(s: State, s': State)
    requires Lockstep(s) && WorkerNext(s, NextTask, s')
    ensures Lockstep(s')
  {
    PurgeLockstep(s);
    NextTaskFields(s, s');
    if s.d.collect {
      PurgedAll(s.h.collected, s.d.gc);
    }
  }

  /** What fetching does to the tasks that were run. */
  lemma NextTaskFields(s: State, s': State)
    requires s' == NextTaskSection(s) && s.wpc.Fetching? && s.d.tasksCollected <= |s.done|
    ensures s'.h.collected == s.h.collected && s'.d.gc == s.d.gc && Window(s'.wpc) == [] && !s'.wpc.Exited?
    ensures !s'.d.collect
    ensures s'.d.tasksCollected == if s.d.collect then 0 else s.d.tasksCollected
    ensures s'.h.purged == if s.d.collect then s.h.purged + s.done[..s.d.tasksCollected] else s.h.purged
    ensures s'.done == if s.d.collect then s.done[s.d.tasksCollected..] else s.done
  {
    TakeFields(PurgeSection(s));
  }

  lemma TakeFields(p: State)
    ensures var q := TakeSection(p);
            && q.h.purged == p.h.purged && q.done == p.done && q.h.collected == p.h.collected
            && q.d.gc == p.d.gc && q.d.tasksCollected == p.d.tasksCollected && q.d.collect == p.d.collect
            && Window(q.wpc) == [] && !q.wpc.Exited?
  {
  }

  lemma PurgedAll(collected: seq<Task>, gc: seq<Task>)
    ensures collected == collected[..|collected|]
    ensures collected[|collected|..] + gc == gc + []
  {
  }

  lemma NextTaskKeeps(s: State, s': State)
    requires Inv(s) && WorkerNext(s, NextTask, s')
    ensures Inv(s')
  {
    NextTaskFifo(s, s');
    NextTaskLockstep(s, s');
    NextTaskPhases(s, s');
  }

  lemma NextTaskPhases(s: State, s': State)
    requires NoLostWakeup(s) && Phases(s) && SyncedFirst(s) && WorkerNext(s, NextTask, s')
    ensures NoLostWakeup(s') && Phases(s') && SyncedFirst(s')
  {
  }

  /** The purge finds the tasks it drops at the front of the done cache: exactly those collected since. */
  lemma PurgeLockstep(s: State)
    requires Lockstep(s) && s.wpc.Fetching?
    ensures s.d.tasksCollected <= |s.done|
    ensures s.done[..s.d.tasksCollected] == s.h.collected[|s.h.purged|..]
    ensures s.done[s.d.tasksCollected..] == s.d.gc
    ensures s.h.purged + s.done[..s.d.tasksCollected] == s.h.collected
  {
    var c := s.h.collected[|s.h.purged|..];
    assert Window(s.wpc) == [] && s.done + [] == s.done;
    assert c + s.d.gc == s.done && |c| == s.d.tasksCollected;
    assert (c + s.d.gc)[..|c|] == c && (c + s.d.gc)[|c|..] == s.d.gc;
    assert s.h.collected == s.h.collected[..|s.h.purged|] + c;
  }

  lemma GarbageKeeps(s: State, a: Step, s': State)
    requires a.Garbage? || a.Cache? || a.RunDone?
    requires Inv(s) && WorkerNext(s, a, s')
    ensures Inv(s')
  {
    var c := s.h.collected[|s.h.purged|..];
    if a.Garbage? {
      assert s.h.collected + (s.d.gc + [s.wpc.t]) + [] == s.h.collected + s.d.gc + [s.wpc.t];
      assert c + (s.d.gc + [s.wpc.t]) == (c + s.d.gc) + [s.wpc.t];
      assert s.done + [] == s.done;
    } else if a.Cache? {
      assert (s.done + [s.wpc.t]) + [] == s.done + [s.wpc.t];
    }
  }

  lemma LifeKeeps(s: State, a: Step, s': State)
    requires a.Ready? || a.SelfDone? || a.Await? || a.ExitTest? || a.DropLocals?
    requires Inv(s) && WorkerNext(s, a, s')
    ensures Inv(s')
  {
  }

  lemma StepKeeps(s: State, a: Step, s': State)
    requires Inv(s) && Next(s, a, s')
    ensures Inv(s')
  {
    if ByWorker(a) {
      WorkerKeeps(s, a, s');
    } else {
      CreatorKeeps(s, a, s');
    }
  }

  lemma CreatorKeeps(s: State, a: Step, s': State)
    requires Inv(s) && !ByWorker(a) && CreatorNext(s, a, s')
    ensures Inv(s')
  {
    match a
    case Start => StartKeeps(s, s');
    case Stack(t) => StackKeeps(s, t, s');
    case Unstack => UnstackKeeps(s, s');
    case Collect(n) => CollectKeeps(s, n, s');
    case SyncAll => SyncKeeps(s, a, s');
    case Release => SyncKeeps(s, a, s');
    case SpuriousWorker | SpuriousCreator => SpuriousKeeps(s, a, s');
    case _ => JoinKeeps(s, a, s');
  }

  lemma WorkerKeeps(s: State, a: Step, s': State)
    requires Inv(s) && ByWorker(a) && WorkerNext(s, a, s')
    ensures Inv(s')
  {
    match a
    case NextTask => NextTaskKeeps(s, s');
    case Garbage => GarbageKeeps(s, a, s');
    case Cache => GarbageKeeps(s, a, s');
    case RunDone => GarbageKeeps(s, a, s');
    case _ => LifeKeeps(s, a, s');
  }

  // ---- Runs ----------------------------------------------------------------------------

  predicate Run(ss: seq<State>, steps: seq<Step>) {
    && |ss| == |steps| + 1
    && forall i {:trigger StepAt(ss, steps, i)} :: 0 <= i < |steps| ==> StepAt(ss, steps, i)
  }

  predicate StepAt(ss: seq<State>, steps: seq<Step>, i: nat)
    requires i < |steps| && i + 1 < |ss|
  {
    Next(ss[i], steps[i], ss[i + 1])
  }

  /** A run without its last step. */
  lemma RunPrefix(ss: seq<State>, steps: seq<Step>)
    requires Run(ss, steps) && steps != []
    ensures Run(ss[..|steps|], steps[..|steps| - 1]) && StepAt(ss, steps, |steps| - 1)
  {
    var (less, fewer) := (ss[..|steps|], steps[..|steps| - 1]);
    forall i | 0 <= i < |fewer|
      ensures StepAt(less, fewer, i)
    {
      assert StepAt(ss, steps, i);
    }
    assert StepAt(ss, steps, |steps| - 1);
  }

  /** The invariant holds in every state of every run from the start. */
  lemma {:induction false} RunInv(ss: seq<State>, steps: seq<Step>)
    requires Run(ss, steps) && Inv(ss[0])
    ensures forall i :: 0 <= i < |ss| ==> Inv(ss[i])
    decreases |steps|
  {
    if steps != [] {
      var n := |steps| - 1;
      RunPrefix(ss, steps);
      RunInv(ss[..n + 1], steps[..n]);
      assert ss[..n + 1][n] == ss[n];
      StepKeeps(ss[n], steps[n], ss[n + 1]);
      forall i | 0 <= i < |ss|
        ensures Inv(ss[i])
      {
        assert i <= n ==> ss[..n + 1][i] == ss[i];
      }
    }
  }

  ghost predicate Reachable(s: State) {
    exists ss: seq<State>, steps: seq<Step>, w: bool ::
      Run(ss, steps) && ss[0] == Initial(w) && ss[|steps|] == s
  }

  lemma ReachableInv(s: State)
    requires Reachable(s)
    ensures Inv(s)
  {
    var ss: seq<State>, steps: seq<Step>, w: bool :| Run(ss, steps) && ss[0] == Initial(w) && ss[|steps|] == s;
    InitInv(w);
    RunInv(ss, steps);
  }

  // ---- What the invariant says -----------------------------------------------------------

  /** No lost wake-up, although add_task only notifies when it finds the queue empty. */
  lemma SleeperHasNothingToDo(s: State)
    requires Reachable(s) && s.wpc == Fetching(Asleep(false))
    ensures s.d.queue == [] && !s.d.joined && !s.d.collect && s.d.tasksCollected == 0
  {
    ReachableInv(s);
  }

  /**
   Lockstep: item for item, collected-but-not-purged tasks followed by the gc queue are the
   done cache plus at most one task in the unlocked window; so a purge never runs dry, and
   what it drops has been synchronized and collected by the creator.
   */
  lemma DoneCacheLockstep(s: State)
    requires Reachable(s) && !s.wpc.Exited?
    ensures |s.h.purged| <= |s.h.collected| && |s.h.collected| - |s.h.purged| == s.d.tasksCollected
    ensures s.h.collected[|s.h.purged|..] + s.d.gc == s.done + Window(s.wpc) && |Window(s.wpc)| <= 1
    ensures s.wpc.Fetching? ==>
              && s.d.tasksCollected <= |s.done|
              && forall t :: t in s.done[..s.d.tasksCollected] ==> t in s.h.synced && t in s.h.collected
  {
    ReachableInv(s);
    if s.wpc.Fetching? {
      PurgeLockstep(s);
      forall t | t in s.done[..s.d.tasksCollected]
        ensures t in s.h.synced && t in s.h.collected
      {
        assert t in s.h.collected[|s.h.purged|..];
      }
    }
  }

  /** The nodes only the creator has freed: unstacked ones and collected ones. */
  function Freed(s: State): seq<Task> { Unstacked(s.h.left) + s.h.collected }

  lemma {:induction false} LeftSplits(left: seq<(Task, bool)>)
    ensures multiset(Nodes(left)) == multiset(Taken(left)) + multiset(Unstacked(left))
  {
    if left == [] {
    } else {
      var n := |left| - 1;
      LeftSplits(left[..n]);
      assert left == left[..n] + [left[n]];
      assert Nodes(left) == Nodes(left[..n]) + [left[n].0];
    }
  }

  lemma {:induction false} DistinctCounts(s: seq<Task>, t: Task)
    requires Distinct(s)
    ensures multiset(s)[t] == if t in s then 1 else 0
  {
    if s != [] {
      var n := |s| - 1;
      DistinctCounts(s[..n], t);
      assert s == s[..n] + [s[n]];
    }
  }

  /** Conservation: every node ever stacked is in exactly one of queue, running, gc and freed. */
  lemma NodesConserved(s: State, t: Task)
    requires Reachable(s)
    ensures multiset(s.h.stacked)
         == multiset(s.d.queue) + multiset(Slot(s.d.running)) + multiset(s.d.gc) + multiset(Freed(s))
    ensures multiset(s.d.queue)[t] + multiset(Slot(s.d.running))[t] + multiset(s.d.gc)[t] + multiset(Freed(s))[t]
         == if t in s.h.stacked then 1 else 0
  {
    ReachableInv(s);
    LeftSplits(s.h.left);
    assert multiset(s.h.stacked) == multiset(Nodes(s.h.left)) + multiset(s.d.queue);
    assert multiset(s.h.executed) == multiset(s.h.collected) + multiset(s.d.gc) + multiset(Slot(s.d.running));
    DistinctCounts(s.h.stacked, t);
  }

  /** a is what remains of b after leaving some elements out, in order. */
  ghost predicate Subsequence(a: seq<Task>, b: seq<Task>)
    decreases |b|
  {
    a == [] || (b != [] && (Subsequence(a, b[..|b| - 1])
      || (a[|a| - 1] == b[|b| - 1] && Subsequence(a[..|a| - 1], b[..|b| - 1]))))
  }

  lemma {:induction false} TakenSubsequence(left: seq<(Task, bool)>)
    ensures Subsequence(Taken(left), Nodes(left))
  {
    if left != [] {
      var n := |left| - 1;
      TakenSubsequence(left[..n]);
      var a, b := Taken(left), Nodes(left);
      assert b[..n] == Nodes(left[..n]);
      if left[n].1 {
        assert a[..|a| - 1] == Taken(left[..n]);
        assert a[|a| - 1] == b[|b| - 1] && Subsequence(a[..|a| - 1], b[..|b| - 1]);
      } else {
        assert a == Taken(left[..n]);
        assert Subsequence(a, b[..|b| - 1]);
      }
    }
  }

  /** Execution follows stacking order, skipping what was unstacked; collection follows execution order. */
  lemma FifoOrder(s: State)
    requires Reachable(s)
    ensures Nodes(s.h.left) <= s.h.stacked
    ensures Subsequence(s.h.executed, Nodes(s.h.left))
    ensures s.h.collected <= s.h.executed
    ensures s.h.purged <= s.h.collected
  {
    ReachableInv(s);
    TakenSubsequence(s.h.left);
    assert s.h.executed == s.h.collected + (s.d.gc + Slot(s.d.running));
  }

  /**
   The join handshake: the creator synchronizes only while the thread has stopped running
   code, and the thread drops its local objects only after the thread object and each
   executed task were synchronized.
   */
  lemma JoinHandshake(s: State)
    requires Reachable(s)
    ensures s.cpc.Syncing? ==> s.wpc.AwaitingExit? && s.d.running == None && (s.isWorker ==> s.d.queue == [])
    ensures s.wpc.Exiting? || s.wpc.Exited? ==> s.h.rootSynced && forall t :: t in s.h.executed ==> t in s.h.synced
    ensures s.d.joined && s.cpc.Free? ==> s.wpc.Exited? && s.exit
    ensures s.wpc.Exited? ==> s.done == []
  {
    ReachableInv(s);
    if s.wpc.Exiting? || s.wpc.Exited? {
      forall t | t in s.h.executed
        ensures t in s.h.synced
      {
        assert t in s.h.collected + s.d.gc + Slot(s.d.running);
        assert t in s.h.collected || t in s.d.gc;
      }
    }
  }

  /**
   Collecting takes the finished tasks that the collector accepts from the front, and has synchronized
   each task that it offered, the one that was refused included.
   */
  lemma CollectOffers(s: State, n: nat, s': State)
    requires Next(s, Collect(n), s')
    ensures n <= |s.d.gc| && s'.d.gc == s.d.gc[n..] && s'.h.collected == s.h.collected + s.d.gc[..n]
    ensures forall i :: 0 <= i < |s.d.gc| && i <= n ==> s.d.gc[i] in s'.h.synced
    ensures s'.d.tasksCollected == s.d.tasksCollected + n && (n > 0 ==> s'.d.collect)
  {
    var offered := Prefix(s.d.gc, n + 1);
    assert forall i :: 0 <= i < |s.d.gc| && i <= n ==> i < |offered| && offered[i] == s.d.gc[i];
  }

  // ---- Shutdown drains ---------------------------------------------------------------------

  /** Worker steps left until AWAIT_JOIN is set, once the creator is in join. */
  function Rank(s: State): nat {
    match s.wpc
    case RunningSelf => 4 * |s.d.queue| + 3
    case Fetching(_) => 4 * |s.d.queue| + 2
    case Running(_) => 4 * |s.d.queue| + 5
    case Returning(_) => 4 * |s.d.queue| + 4
    case Caching(_) => 4 * |s.d.queue| + 3
    case Leaving => 1
    case _ => 0
  }

  /** The creator has set JOINED and has not come back from join. */
  predicate InJoin(s: State) { s.d.joined && !s.cpc.Free? }

  /** Each worker step comes nearer to the end; nothing else moves it away. */
  lemma RankDecreases(s: State, a: Step, s': State)
    requires Inv(s) && InJoin(s) && Next(s, a, s') && !s.awaitJoin
    ensures InJoin(s')
    ensures ByWorker(a) ==> Rank(s') < Rank(s)
    ensures !ByWorker(a) ==> Rank(s') == Rank(s)
  {
    if a.NextTask? {
      NextTaskRank(s, s');
    } else if ByWorker(a) {
      WorkerRank(s, a, s');
    } else {
      CreatorRank(s, a, s');
    }
  }

  lemma NextTaskRank(s: State, s': State)
    requires Inv(s) && InJoin(s) && WorkerNext(s, NextTask, s')
    ensures InJoin(s') && Rank(s') < Rank(s)
  {
  }

  lemma WorkerRank(s: State, a: Step, s': State)
    requires Inv(s) && InJoin(s) && ByWorker(a) && !a.NextTask? && WorkerNext(s, a, s') && !s.awaitJoin
    ensures InJoin(s') && Rank(s') < Rank(s)
  {
  }

  lemma CreatorRank(s: State, a: Step, s': State)
    requires Inv(s) && InJoin(s) && !ByWorker(a) && CreatorNext(s, a, s') && !s.awaitJoin
    ensures InJoin(s') && Rank(s') == Rank(s)
  {
  }

  /** If run() returns, the thread always has a step to take: it never sleeps during a join. */
  lemma WorkerCanStep(s: State) returns (a: Step, s': State)
    requires Inv(s) && InJoin(s) && !s.awaitJoin
    ensures ByWorker(a) && Next(s, a, s')
  {
    match s.wpc
    case RunningSelf => a, s' := SelfDone, s.(wpc := if s.isWorker then Fetching(Checking) else Leaving);
    case Fetching(w) => a, s' := NextTask, NextTaskSection(s);
    case Running(t) => a, s' := RunDone, s.(wpc := Returning(t));
    case Returning(t) => a, s' := Garbage, s.(d := AddGarbage(s.d, t), wpc := Caching(t));
    case Caching(t) => a, s' := Cache, s.(done := s.done + [t], wpc := Fetching(Checking));
    case Leaving => a, s' := Await, Broadcast(s).(awaitJoin := true, wpc := AwaitingExit(Checking));
    case _ => assert false;
  }

  /** How many steps from position i on are the worker's. */
  function WorkerSteps(steps: seq<Step>, i: nat): nat
    requires i <= |steps|
    decreases |steps| - i
  {
    if i == |steps| then 0 else WorkerSteps(steps, i + 1) + if ByWorker(steps[i]) then 1 else 0
  }

  /**
   Every run from a reachable state inside join that gives the thread as many steps as its
   rank, at most 4 per queued task plus 5, passes a state with AWAIT_JOIN set, the queue
   empty and nothing running.
   */
  lemma ShutdownDrains(ss: seq<State>, steps: seq<Step>) returns (k: nat)
    requires Run(ss, steps) && Inv(ss[0]) && InJoin(ss[0])
    requires Rank(ss[0]) <= WorkerSteps(steps, 0)
    ensures k < |ss| && ss[k].awaitJoin && ss[k].d.running == None && ss[k].d.queue == []
    ensures forall i :: 0 <= i < k ==> !ss[i].awaitJoin
    ensures Rank(ss[0]) <= 4 * |ss[0].d.queue| + 5
  {
    RankBounded(ss[0]);
    k := DrainsFrom(ss, steps, 0);
  }

  lemma {:induction false} DrainsFrom(ss: seq<State>, steps: seq<Step>, i: nat) returns (k: nat)
    requires Run(ss, steps) && i < |ss| && Inv(ss[i]) && InJoin(ss[i])
    requires Rank(ss[i]) <= WorkerSteps(steps, i)
    ensures i <= k < |ss| && ss[k].awaitJoin && ss[k].d.running == None && ss[k].d.queue == []
    ensures forall m :: i <= m < k ==> !ss[m].awaitJoin
    decreases |ss| - i
  {
    RankBounded(ss[i]);
    if ss[i].awaitJoin {
      k := i;
    } else {
      DrainStep(ss, steps, i);
      k := DrainsFrom(ss, steps, i + 1);
    }
  }

  lemma DrainStep(ss: seq<State>, steps: seq<Step>, i: nat)
    requires Run(ss, steps) && i < |ss| && Inv(ss[i]) && InJoin(ss[i]) && !ss[i].awaitJoin
    requires 0 < Rank(ss[i]) <= WorkerSteps(steps, i)
    ensures i + 1 < |ss| && Inv(ss[i + 1]) && InJoin(ss[i + 1]) && Rank(ss[i + 1]) <= WorkerSteps(steps, i + 1)
  {
    assert StepAt(ss, steps, i);
    RankDecreases(ss[i], steps[i], ss[i + 1]);
    StepKeeps(ss[i], steps[i], ss[i + 1]);
  }

  lemma RankBounded(s: State)
    requires Inv(s) && InJoin(s)
    ensures Rank(s) <= 4 * |s.d.queue| + 5
    ensures Rank(s) == 0 ==> s.awaitJoin
    ensures s.awaitJoin ==> s.d.running == None && s.d.queue == []
  {
  }
}
