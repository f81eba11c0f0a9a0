/**
 The critical sections of src/worker.c as they update the worker's data in place, each
 proved to be the section that the step relation of `WorkerProtocol` uses.
 */
module WorkerObjects {
  import opened Wrappers
  import opened WorkerProtocol

  datatype Fetched = Took(t: Task) | Joined | MustWait

  class WorkerData {
    var queue: seq<Task>
    var gc: seq<Task>
    var running: Option<Task>
    var tasksCollected: nat
    var collect: bool
    var joined: bool

    constructor ()
      ensures Value() == Data([], [], None, 0, false, false)
    {
      queue, gc, running, tasksCollected, collect, joined := [], [], None, 0, false, false;
    }

    ghost function Value(): Data
      reads this
    {
      Data(queue, gc, running, tasksCollected, collect, joined)
    }

    /** pthreads_worker_add_task: pushes, and notifies if the queue was empty; returns its new size. */
    method AddTask(t: Task) returns (size: nat, notified: bool)
      modifies this`queue
      ensures Value() == WorkerProtocol.AddTask(old(Value()), t)
      ensures notified == AddTaskNotifies(old(Value())) && size == |queue|
    {
      size := |queue|;
      queue := queue + [t];
      notified := size == 0;
      size := |queue|;
    }

    /** pthreads_worker_dequeue_task: removes the oldest waiting task, if any. */
    method DequeueTask() returns (t: Option<Task>, size: nat)
      modifies this`queue
      ensures Value() == WorkerProtocol.DequeueTask(old(Value())) && size == |queue|
      ensures t == if old(queue) == [] then None else Some(old(queue)[0])
    {
      if queue == [] {
        return None, 0;
      }
      t := Some(queue[0]);
      queue := queue[1..];
      size := |queue|;
    }

    /** pthreads_worker_add_garbage, the part under the monitor. */
    method AddGarbage()
      requires running.Some?
      modifies this`gc, this`running
      ensures Value() == WorkerProtocol.AddGarbage(old(Value()), old(running).value)
    {
      gc := gc + [running.value];
      running := None;
    }

    /**
     pthreads_worker_collect_tasks: synchronizes and offers finished tasks, oldest first, until
     the collector refuses one.  Returns the number of tasks the worker still has.
     */
    method CollectTasks(accept: Task -> bool) returns (size: nat, synced: seq<Task>, n: nat)
      modifies this
      ensures n <= |old(gc)| && (forall i :: 0 <= i < n ==> accept(old(gc)[i]))
      ensures n == |old(gc)| || !accept(old(gc)[n])
      ensures Value() == WorkerProtocol.CollectTasks(old(Value()), n)
      ensures synced == Prefix(old(gc), n + 1)
      ensures size == |queue| + |gc| + |Slot(running)|
    {
      n, synced := 0, [];
      ghost var all := gc;
      var more := true;
      while more && gc != []
        invariant n <= |all| && gc == all[n..]
        invariant queue == old(queue) && running == old(running) && tasksCollected == old(tasksCollected)
        invariant collect == old(collect) && joined == old(joined)
        invariant forall i :: 0 <= i < n ==> accept(all[i])
        invariant more ==> synced == all[..n]
        invariant !more ==> n < |all| && !accept(all[n]) && synced == all[..n + 1]
        decreases |gc|, more
      {
        synced := synced + [gc[0]];
        if accept(gc[0]) {
          gc := gc[1..];
          n := n + 1;
        } else {
          more := false;
        }
      }
      if n > 0 {
        tasksCollected := tasksCollected + n;
        collect := true;
      }
      size := |queue| + |gc| + if running.Some? then 1 else 0;
    }

    /**
     pthreads_worker_next_task, one round under the monitor: drop from the done cache as many
     tasks as the creator collected, then take a task, leave, or wait.
     */
    method NextTask(done: seq<Task>) returns (done': seq<Task>, r: Fetched)
      modifies this
      ensures done' == PurgedDone(old(Value()), done)
      ensures var d := Purge(old(Value()));
              match r
              case Took(t) => d.queue != [] && t == d.queue[0] && Value() == TakeTask(d)
              case Joined => d.queue == [] && d.joined && Value() == d
              case MustWait => d.queue == [] && !d.joined && Value() == d
    {
      done' := done;
      if collect {
        var i := 0;
        while i < tasksCollected
          invariant i <= tasksCollected
          invariant done' == if i <= |done| then done[i..] else []
        {
          if done' != [] {
            done' := done'[1..];
          }
          i := i + 1;
        }
        tasksCollected := 0;
        collect := false;
      }
      if queue == [] {
        r := if joined then Joined else MustWait;
      } else {
        running := Some(queue[0]);
        r := Took(queue[0]);
        queue := queue[1..];
      }
    }
  }
}
