/**
 Round-robin pools of workers (classes/pool.c).

 A pool is a table of workers by index, the next index to use and the wanted size.  A worker is
 the list of tasks stacked on it.  `submit` starts workers lazily; `resize` shuts down the worker
 whose index is one less than the number of workers until the number is right, which makes
 progress only while that index is in use.
 */
module Pool {
  type Workers<T> = map<int, seq<T>>

  datatype State<T> = State(workers: Workers<T>, last: int, size: int)

  /** The indices low .. high - 1. */
  function Range(low: int, high: int): (r: set<int>)
    ensures forall k :: k in r <==> low <= k < high
    ensures |r| == if low < high then high - low else 0
    decreases high - low
  {
    if low < high then Range(low, high - 1) + {high - 1} else {}
  }

  // ---- What the operations compute ------------------------------------------

  function Selected<T>(s: State<T>): int {
    if s.last >= s.size then 0 else s.last
  }

  function StackedOn<T>(w: Workers<T>, k: int): seq<T> {
    if k in w then w[k] else []
  }

  /**
   A submission fails when a worker has to be made and the pool's worker class is not usable;
   the index was wrapped before that is found out.
   */
  function Submitted<T>(s: State<T>, task: T, classOk: bool): State<T> {
    var k := Selected(s);
    if k in s.workers || classOk then
      State(s.workers[k := StackedOn(s.workers, k) + [task]], k + 1, s.size)
    else
      s.(last := k)
  }

  function WithoutIndices(used: set<int>, low: int, high: int): set<int> {
    set k | k in used && !(low <= k < high)
  }

  /** The body of resize's loop, on the indices in use. */
  function DropTop(used: set<int>): set<int> {
    set k | k in used && k != |used| - 1
  }

  /** The indices in use after the body has run `rounds` times. */
  function Dropped(used: set<int>, rounds: nat): set<int>
    decreases rounds
  {
    if rounds == 0 then used else DropTop(Dropped(used, rounds - 1))
  }

  function Without<T>(w: Workers<T>, low: int, high: int): Workers<T> {
    map k | k in w && !(low <= k < high) :: w[k]
  }

  /** Resizing changes the size and, when there are too many workers, keeps the first ones. */
  function Resized<T>(s: State<T>, newsize: int): State<T> {
    State(Without(s.workers, newsize, |s.workers.Keys|), s.last, newsize)
  }

  function ShutDown<T>(s: State<T>): State<T> {
    s.(workers := map[])
  }

  function Empty<T>(size: int): State<T> {
    State(map[], 0, size)
  }

  // ---- The invariant --------------------------------------------------------

  predicate Contiguous(used: set<int>) {
    used == Range(0, |used|)
  }

  predicate Inv<T>(s: State<T>) {
    var used := s.workers.Keys;
    && Contiguous(used)
    && |used| <= s.size
    && 0 <= s.last
    && (s.last <= |used| || s.last >= s.size)
  }

  /** From the invariant and a positive size, a submission keeps it, whether or not it succeeds. */
  lemma SubmitKeeps<T>(s: State<T>, task: T, classOk: bool)
    requires Inv(s) && s.size >= 1
    ensures Inv(Submitted(s, task, classOk))
    ensures 0 <= Selected(s) <= |s.workers.Keys| && Selected(s) < s.size
  {
    var k := Selected(s);
    StackedKeys(s.workers, k, StackedOn(s.workers, k) + [task]);
    ContiguousGrows(s.workers.Keys, k);
  }

  lemma StackedKeys<T>(w: Workers<T>, k: int, tasks: seq<T>)
    ensures w[k := tasks].Keys == w.Keys + {k}
  {
  }

  lemma ContiguousGrows(used: set<int>, k: int)
    requires Contiguous(used) && 0 <= k <= |used|
    ensures Contiguous(used + {k}) && |used + {k}| == if k < |used| then |used| else |used| + 1
  {
    if k < |used| {
      assert used + {k} == used;
    } else {
      assert used + {k} == Range(0, |used| + 1);
    }
  }

  /**
   A submission goes to the worker at `last`, or at 0 if `last` has reached the size.  A worker that
   is not there is made, if it can be; if not, only the index is wrapped.  The other workers keep
   their tasks.
   */
  lemma SubmitEffect<T>(s: State<T>, task: T, classOk: bool)
    ensures var k := if s.last < s.size then s.last else 0;
      var t := Submitted(s, task, classOk);
      && t.size == s.size
      && (forall w :: w != k ==> (w in t.workers <==> w in s.workers))
      && (forall w :: w != k && w in s.workers ==> t.workers[w] == s.workers[w])
      && (k in s.workers ==> k in t.workers && t.workers[k] == s.workers[k] + [task] && t.last == k + 1)
      && (k !in s.workers && classOk ==> k in t.workers && t.workers[k] == [task] && t.last == k + 1)
      && (k !in s.workers && !classOk ==> k !in t.workers && t.last == k)
  {
  }

  /** A resize keeps the workers below the new size, with their tasks, and the next index. */
  lemma ResizeEffect<T>(s: State<T>, newsize: int)
    ensures var t := Resized(s, newsize);
      && t.size == newsize && t.last == s.last
      && (forall w :: w in t.workers <==> (w in s.workers && (w < newsize || w >= |s.workers.Keys|)))
      && forall w :: w in t.workers ==> t.workers[w] == s.workers[w]
  {
  }

  // ---- When resize ends -----------------------------------------------------

  /** The indices from the new size to the number of workers are all in use. */
  predicate NoGap(used: set<int>, newsize: int) {
    forall k :: newsize <= k < |used| ==> k in used
  }

  lemma DropTopSize(used: set<int>)
    ensures |DropTop(used)| == if |used| - 1 in used then |used| - 1 else |used|
    ensures |used| - 1 !in used ==> DropTop(used) == used
  {
    assert DropTop(used) == used - {|used| - 1};
  }

  /** Without gaps each round removes one worker from the top. */
  lemma {:induction false} DroppedWithoutGap(used: set<int>, low: int, rounds: nat)
    requires 0 <= low && low + rounds <= |used| && NoGap(used, low)
    ensures Dropped(used, rounds) == WithoutIndices(used, |used| - rounds, |used|)
    ensures |Dropped(used, rounds)| == |used| - rounds
    decreases rounds
  {
    if rounds > 0 {
      DroppedWithoutGap(used, low, rounds - 1);
      DropTopSize(Dropped(used, rounds - 1));
    }
  }

  /** Once the top index is missing nothing ever changes again. */
  lemma {:induction false} StuckForever(used: set<int>, rounds: nat)
    requires |used| - 1 !in used
    ensures Dropped(used, rounds) == used
    decreases rounds
  {
    if rounds > 0 {
      StuckForever(used, rounds - 1);
      DropTopSize(used);
    }
  }

  lemma {:induction false} DroppedNeverGrows(used: set<int>, rounds: nat)
    ensures Dropped(used, rounds) <= used
    ensures |Dropped(used, rounds)| <= |used|
    decreases rounds
  {
    if rounds > 0 {
      DroppedNeverGrows(used, rounds - 1);
      DropTopSize(Dropped(used, rounds - 1));
    }
  }

  /** Rounds that brought the number of workers down to n found every index from n up in use. */
  lemma {:induction false} EndingNeedsIndices(used: set<int>, n: int, rounds: nat)
    requires |Dropped(used, rounds)| <= n <= |used|
    ensures NoGap(used, n)
    decreases rounds
  {
    if rounds > 0 {
      var v := Dropped(used, rounds - 1);
      DropTopSize(v);
      DroppedNeverGrows(used, rounds - 1);
      assert Dropped(used, rounds) == DropTop(v);
      if |v| <= n {
        EndingNeedsIndices(used, n, rounds - 1);
      } else {
        EndingNeedsIndices(used, n + 1, rounds - 1);
        assert n in v;
      }
    }
  }

  /**
   The shrinking loop ends if and only if the new size is not negative and the indices above it
   are all in use; otherwise it runs for ever.
   */
  lemma ResizeEnds(used: set<int>, newsize: int)
    requires newsize < |used|
    ensures (exists rounds: nat :: rounds >= 1 && |Dropped(used, rounds)| == newsize)
        <==> 0 <= newsize && NoGap(used, newsize)
  {
    if 0 <= newsize && NoGap(used, newsize) {
      DroppedWithoutGap(used, newsize, |used| - newsize);
    }
    if rounds: nat :| rounds >= 1 && |Dropped(used, rounds)| == newsize {
      EndingNeedsIndices(used, newsize, rounds);
    }
  }

  /**
   From the invariant a resize always ends, with at most newsize workers; it keeps the invariant
   unless it grows the pool past an index that was due to wrap.
   */
  lemma ResizeFromInvariant<T>(s: State<T>, newsize: int)
    requires Inv(s) && 0 <= newsize
    ensures NoGap(s.workers.Keys, newsize)
    ensures Contiguous(Resized(s, newsize).workers.Keys) && |Resized(s, newsize).workers.Keys| <= newsize
    ensures Inv(Resized(s, newsize)) <==>
      (newsize < |s.workers.Keys| || s.last <= |s.workers.Keys| || s.last >= newsize)
  {
    var used := s.workers.Keys;
    var left := if newsize < |used| then newsize else |used|;
    assert Resized(s, newsize).workers.Keys == Range(0, left);
  }

  /** Shutting down keeps `last`, so the invariant survives exactly when `last` is 0 or due to wrap. */
  lemma ShutDownExact<T>(s: State<T>)
    requires Inv(s)
    ensures Inv(ShutDown(s)) <==> s.last == 0 || s.last >= s.size
  {
    assert ShutDown(s).workers.Keys == {};
  }

  // ---- Whole runs -----------------------------------------------------------

  datatype Op<T> = Submit(task: T, classOk: bool) | Resize(newsize: int) | Shutdown

  function Apply<T>(s: State<T>, op: Op<T>): State<T> {
    match op
    case Submit(task, classOk) => Submitted(s, task, classOk)
    case Resize(newsize) => Resized(s, newsize)
    case Shutdown => ShutDown(s)
  }

  /** What a caller checks before each call. */
  predicate Careful<T>(s: State<T>, op: Op<T>) {
    match op
    case Submit(_, _) => s.size >= 1
    case Resize(newsize) =>
      0 <= newsize && (newsize < |s.workers.Keys| || s.last <= |s.workers.Keys| || s.last >= newsize)
    case Shutdown => s.last == 0 || s.last >= s.size
  }

  predicate CarefulRun<T>(s: State<T>, ops: seq<Op<T>>)
    decreases |ops|
  {
    ops == [] || (Careful(s, ops[0]) && CarefulRun(Apply(s, ops[0]), ops[1..]))
  }

  function ApplyAll<T>(s: State<T>, ops: seq<Op<T>>): State<T>
    decreases |ops|
  {
    if ops == [] then s else ApplyAll(Apply(s, ops[0]), ops[1..])
  }

  /** Over every careful run the indices stay contiguous and no resize can loop for ever. */
  lemma {:induction false} RunKeeps<T>(s: State<T>, ops: seq<Op<T>>)
    requires Inv(s) && CarefulRun(s, ops)
    ensures Inv(ApplyAll(s, ops))
    ensures forall newsize :: 0 <= newsize ==> NoGap(ApplyAll(s, ops).workers.Keys, newsize)
    decreases |ops|
  {
    if ops != [] {
      StepKeeps(s, ops[0]);
      RunKeeps(Apply(s, ops[0]), ops[1..]);
    }
  }

  lemma StepKeeps<T>(s: State<T>, op: Op<T>)
    requires Inv(s) && Careful(s, op)
    ensures Inv(Apply(s, op))
  {
    match op
    case Submit(task, classOk) => SubmitKeeps(s, task, classOk);
    case Resize(newsize) => ResizeFromInvariant(s, newsize);
    case Shutdown => ShutDownExact(s);
  }

  // ---- Round robin ----------------------------------------------------------

  /** The tasks that a fair dealer gives to worker w out of `size`. */
  function Dealt<T>(tasks: seq<T>, w: int, size: int): seq<T>
    requires size >= 1
    decreases |tasks|
  {
    if tasks == [] then []
    else
      var n := |tasks| - 1;
      Dealt(tasks[..n], w, size) + if n % size == w then [tasks[n]] else []
  }

  function SubmitAll<T>(size: int, tasks: seq<T>): State<T>
    decreases |tasks|
  {
    if tasks == [] then Empty(size)
    else Submitted(SubmitAll(size, tasks[..|tasks| - 1]), tasks[|tasks| - 1], true)
  }

  /** The index after the one used for submission number n - 1 leads to n mod size. */
  lemma NextIndex(n: int, size: int)
    requires n >= 1 && size >= 1
    ensures (if (n - 1) % size + 1 >= size then 0 else (n - 1) % size + 1) == n % size
  {
    var q, r := (n - 1) / size, (n - 1) % size;
    assert n - 1 == size * q + r;
    if r + 1 >= size {
      assert n == size * (q + 1);
      MultipleLeavesNothing(size, q + 1);
    } else {
      assert n == size * q + (r + 1);
      RemainderIs(size, q, r + 1);
    }
  }

  lemma MultipleLeavesNothing(size: int, q: int)
    requires size >= 1
    ensures (size * q) % size == 0
  {
    RemainderIs(size, q, 0);
  }

  lemma RemainderIs(size: int, q: int, r: int)
    requires 0 <= r < size
    ensures (size * q + r) % size == r
  {
    var x := size * q + r;
    assert x == size * (x / size) + x % size;
    assert size * (q - x / size) == x % size - r;
    assert -size < size * (q - x / size) < size;
    SmallMultiple(size, q - x / size);
  }

  lemma SmallMultiple(size: int, q: int)
    requires -size < size * q < size
    ensures q == 0
  {
    MultipleGrows(size, q - 1);
    MultipleGrows(size, -1 - q);
  }

  lemma MultipleGrows(size: int, q: int)
    ensures size >= 0 && q >= 0 ==> size * q >= 0
  {
  }

  /**
   On a fresh pool of fixed size, submission number j goes to worker j mod size: each worker has
   been stacked exactly the tasks dealt to it, in order.
   */
  lemma {:induction false} RoundRobin<T>(size: int, tasks: seq<T>)
    requires size >= 1
    ensures Selected(SubmitAll(size, tasks)) == |tasks| % size
    ensures SubmitAll(size, tasks).size == size && Inv(SubmitAll(size, tasks))
    ensures forall w :: StackedOn(SubmitAll(size, tasks).workers, w) == Dealt(tasks, w, size)
    decreases |tasks|
  {
    if tasks == [] {
      assert SubmitAll(size, tasks).workers.Keys == {};
    } else {
      var n := |tasks| - 1;
      RoundRobin(size, tasks[..n]);
      var s := SubmitAll(size, tasks[..n]);
      SubmitKeeps(s, tasks[n], true);
      NextIndex(n + 1, size);
    }
  }

  // ---- Gaps do occur --------------------------------------------------------

  /** Shut down and submit: the only worker has index 1, and a resize to 0 never ends. */
  lemma GapAfterShutdown<T>(a: T)
    ensures var s := Submitted(ShutDown(Submitted(Empty(3), a, true)), a, true);
      && s.workers == map[1 := [a]]
      && forall rounds: nat :: |Dropped(s.workers.Keys, rounds)| != 0
  {
    var s := Submitted(ShutDown(Submitted(Empty(3), a, true)), a, true);
    assert StackedOn<T>(map[], 1) + [a] == [a];
    assert s.workers.Keys == {1};
    forall rounds: nat
      ensures |Dropped(s.workers.Keys, rounds)| != 0
    {
      StuckForever(s.workers.Keys, rounds);
    }
  }

  /**
   Shrink and grow: from three workers down to one, up to five, then one more submission uses
   index 3; shrinking to 1 again never ends.
   */
  lemma GapAfterGrowing<T>(s: State<T>, a: T)
    requires Inv(s) && s.size == 3 && |s.workers.Keys| == 3 && s.last == 3
    ensures var t := Submitted(Resized(Resized(s, 1), 5), a, true);
      && t.workers.Keys == {0, 3}
      && forall rounds: nat :: |Dropped(t.workers.Keys, rounds)| != 1
  {
    var one := Resized(s, 1);
    assert one.workers.Keys == {0};
    var five := Resized(one, 5);
    assert five.workers.Keys == {0};
    var t := Submitted(five, a, true);
    assert t.workers.Keys == {0, 3};
    forall rounds: nat
      ensures |Dropped(t.workers.Keys, rounds)| != 1
    {
      StuckForever(t.workers.Keys, rounds);
    }
  }

  // ---- The object -----------------------------------------------------------

  /** The shrinking loop can end. */
  predicate Shrinkable(used: set<int>, newsize: int) {
    0 <= newsize && NoGap(used, newsize)
  }

  /** Without gaps: the workers after some rounds of shrinking, and those that were shut down. */
  ghost predicate Shrunk<T>(was: Workers<T>, newsize: int, rounds: nat, now: Workers<T>, stopped: seq<int>) {
    var top := |was.Keys|;
    && rounds <= top - newsize
    && now == Without(was, top - rounds, top) && |now.Keys| == top - rounds
    && |stopped| == rounds
    && forall j :: 0 <= j < |stopped| ==> stopped[j] == top - 1 - j
  }

  lemma ShrinkRound<T>(was: Workers<T>, newsize: int, rounds: nat, now: Workers<T>, stopped: seq<int>)
    requires Shrinkable(was.Keys, newsize) ==> Shrunk(was, newsize, rounds, now, stopped)
    requires Shrinkable(was.Keys, newsize) ==> rounds < |was.Keys| - newsize
    ensures Shrinkable(was.Keys, newsize) ==>
      && |now.Keys| - 1 in now
      && Shrunk(was, newsize, rounds + 1, now - {|now.Keys| - 1}, stopped + [|now.Keys| - 1])
  {
    if Shrinkable(was.Keys, newsize) {
      var top := |was.Keys|;
      assert top - rounds - 1 in was;
      DropTopSize(now.Keys);
      OneMore(was, top, rounds);
      assert (now - {|now.Keys| - 1}).Keys == DropTop(now.Keys);
    }
  }

  /** Removing one more index below a removed range. */
  lemma OneMore<T>(w: Workers<T>, top: int, n: nat)
    ensures Without(w, top - n, top) - {top - n - 1} == Without(w, top - n - 1, top)
  {
  }

  class PoolObject<T(0)> {
    var workers: map<int, seq<T>>
    var last: int
    var size: int

    ghost function Value(): State<T>
      reads this
    {
      State(workers, last, size)
    }

    constructor (n: int)
      ensures Value() == Empty(n)
    {
      workers, last, size := map[], 0, n;
    }

    method SubmitTask(task: T, classOk: bool) returns (index: int, accepted: bool)
      modifies this
      ensures Value() == Submitted(old(Value()), task, classOk)
      ensures index == Selected(old(Value()))
      ensures accepted <==> (index in old(workers) || classOk)
    {
      if last >= size {
        last := 0;
      }
      index := last;
      if last !in workers {
        if !classOk {
          return index, false;
        }
        workers := workers[last := []];
      }
      workers := workers[last := workers[last] + [task]];
      last := last + 1;
      accepted := true;
    }

    /** The body of the shrinking loop.  Returns the worker that was shut down, if there was one. */
    method ShutTop() returns (stopped: seq<int>)
      modifies this
      ensures workers == old(workers) - {|old(workers.Keys)| - 1}
      ensures workers.Keys == DropTop(old(workers.Keys)) && last == old(last) && size == old(size)
      ensures stopped == if |old(workers.Keys)| - 1 in old(workers) then [|old(workers.Keys)| - 1] else []
    {
      var top := |workers.Keys|;
      stopped := [];
      if top - 1 in workers {
        stopped := [top - 1];
      }
      workers := workers - {top - 1};
    }

    /**
     At most `patience` rounds of the shrinking loop, from any state and for any size.  The loop has
     ended by then exactly if it is not needed, or no index is unused and the rounds suffice; then the
     last workers were shut down, from the top.  Otherwise it has only done its rounds.
     */
    method ResizeTo(newsize: int, patience: nat) returns (ended: bool, stopped: seq<int>)
      modifies this
      ensures ended <==>
                || newsize >= |old(workers.Keys)|
                || (Shrinkable(old(workers.Keys), newsize) && |old(workers.Keys)| - newsize <= patience)
      ensures ended ==> Value() == Resized(old(Value()), newsize)
      ensures ended ==> |stopped| == if newsize < |old(workers.Keys)| then |old(workers.Keys)| - newsize else 0
      ensures ended ==> forall j :: 0 <= j < |stopped| ==> stopped[j] == |old(workers.Keys)| - 1 - j
      ensures !ended ==> workers.Keys == Dropped(old(workers.Keys), patience) && last == old(last) && size == old(size)
    {
      stopped := [];
      ended := newsize >= |workers.Keys|;
      if !ended {
        ended, stopped := Shrink(newsize, patience);
      }
      if ended {
        size := newsize;
      }
    }

    method Shrink(newsize: int, patience: nat) returns (ended: bool, stopped: seq<int>)
      requires newsize < |workers.Keys|
      modifies this
      ensures last == old(last) && size == old(size)
      ensures ended <==> Shrinkable(old(workers.Keys), newsize) && |old(workers.Keys)| - newsize <= patience
      ensures ended ==> workers == Without(old(workers), newsize, |old(workers.Keys)|)
      ensures ended ==> |stopped| == |old(workers.Keys)| - newsize
      ensures ended ==> forall j :: 0 <= j < |stopped| ==> stopped[j] == |old(workers.Keys)| - 1 - j
      ensures !ended ==> workers.Keys == Dropped(old(workers.Keys), patience)
    {
      ghost var was := workers;
      ghost var top := |was.Keys|;
      stopped, ended := [], false;
      var rounds: nat := 0;
      while rounds < patience && !ended
        invariant rounds <= patience && last == old(last) && size == old(size)
        invariant workers.Keys == Dropped(was.Keys, rounds)
        invariant ended <==> Shrinkable(was.Keys, newsize) && rounds == top - newsize
        invariant Shrinkable(was.Keys, newsize) ==> Shrunk(was, newsize, rounds, workers, stopped)
      {
        ended, stopped := Round(was, newsize, rounds, stopped);
        rounds := rounds + 1;
      }
    }

    /** One round of the loop and its test. */
    method Round(ghost was: Workers<T>, newsize: int, ghost rounds: nat, stoppedSoFar: seq<int>)
      returns (ended: bool, stopped: seq<int>)
      requires newsize < |was.Keys| && workers.Keys == Dropped(was.Keys, rounds)
      requires Shrinkable(was.Keys, newsize) ==> Shrunk(was, newsize, rounds, workers, stoppedSoFar)
      requires Shrinkable(was.Keys, newsize) ==> rounds != |was.Keys| - newsize
      modifies this
      ensures last == old(last) && size == old(size)
      ensures workers.Keys == Dropped(was.Keys, rounds + 1)
      ensures ended <==> Shrinkable(was.Keys, newsize) && rounds + 1 == |was.Keys| - newsize
      ensures Shrinkable(was.Keys, newsize) ==> Shrunk(was, newsize, rounds + 1, workers, stopped)
    {
      ShrinkRound(was, newsize, rounds, workers, stoppedSoFar);
      var one := ShutTop();
      stopped := stoppedSoFar + one;
      ended := |workers.Keys| == newsize;
      if ended {
        EndingNeedsIndices(was.Keys, newsize, rounds + 1);
      }
    }

    method ShutdownAll() returns (stopped: set<int>)
      modifies this
      ensures Value() == ShutDown(old(Value()))
      ensures stopped == old(workers.Keys)
    {
      stopped := workers.Keys;
      workers := map[];
    }
  }
}
