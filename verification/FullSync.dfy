/**
 Full synchronization: one thread pulls every cacheable property of an object, and of all
 objects behind it, into its local caches.  The object graph may contain cycles; a mark on
 the objects being processed stops the recursion.
 */
module FullSync {

  type Obj = nat
  type Key = nat

  /** What a property of the shared table restores to. */
  datatype Target =
    | Child(o: Obj)      // a live threaded object
    | Other              // any other cacheable slot, among them objects already destroyed
    | Simple             // not cacheable

  /**
   The shared side, as it stands during the call.  `confirmed` are the keys whose local
   entry a plain sync keeps; `garbage` are the finished tasks of a worker object.
   */
  datatype Graph = Graph(props: map<Obj, seq<(Key, Target)>>, confirmed: map<Obj, set<Key>>,
                         garbage: map<Obj, seq<Obj>>)

  /** The local side: cached keys per object, and the objects whose counter is up to date. */
  datatype Local = Local(cache: map<Obj, set<Key>>, inSync: set<Obj>)

  predicate DistinctKeys(ps: seq<(Key, Target)>) {
    forall i, j :: 0 <= i < j < |ps| ==> ps[i].0 != ps[j].0
  }

  predicate WellFormed(g: Graph) {
    && g.confirmed.Keys == g.props.Keys && g.garbage.Keys == g.props.Keys
    && forall o {:trigger ObjectOk(g, o)} :: o in g.props ==> ObjectOk(g, o)
  }

  /** The keys of an object are distinct, and what it leads to exists. */
  predicate ObjectOk(g: Graph, o: Obj)
    requires o in g.props && o in g.garbage
  {
    && DistinctKeys(g.props[o])
    && (forall i :: 0 <= i < |g.props[o]| && g.props[o][i].1.Child? ==> g.props[o][i].1.o in g.props)
    && (forall i :: 0 <= i < |g.garbage[o]| ==> g.garbage[o][i] in g.props)
  }

  /** The entries of o that are still there after a plain sync. */
  function Surviving(g: Graph, s: Local, o: Obj): set<Key>
    requires o in s.cache && o in g.confirmed
  {
    if o in s.inSync then s.cache[o] else s.cache[o] * g.confirmed[o]
  }

  /** o is up to date and caches each of its cacheable properties. */
  predicate Complete(g: Graph, s: Local, o: Obj)
    requires o in g.props && o in s.cache
  {
    && o in s.inSync
    && forall i :: 0 <= i < |g.props[o]| && !g.props[o][i].1.Simple? ==> g.props[o][i].0 in s.cache[o]
  }

  /** Every object that o leads to through an entry that was not cached at the start lies in `seen`. */
  predicate Closed(g: Graph, s: Local, o: Obj, seen: set<Obj>)
    requires o in g.props && o in s.cache && o in g.confirmed && o in g.garbage
  {
    && (forall i :: 0 <= i < |g.props[o]| ==> ClosedAt(g, s, o, i, seen))
    && (forall i :: 0 <= i < |g.garbage[o]| ==> g.garbage[o][i] in seen)
  }

  predicate ClosedAt(g: Graph, s: Local, o: Obj, i: nat, seen: set<Obj>)
    requires o in g.props && o in s.cache && o in g.confirmed && i < |g.props[o]|
  {
    g.props[o][i].1.Child? && g.props[o][i].0 !in Surviving(g, s, o) ==> g.props[o][i].1.o in seen
  }

  lemma ClosedWider(g: Graph, s: Local, o: Obj, seen: set<Obj>, more: set<Obj>)
    requires o in g.props && o in s.cache && o in g.confirmed && o in g.garbage
    requires Closed(g, s, o, seen) && seen <= more
    ensures Closed(g, s, o, more)
  {
    forall i | 0 <= i < |g.props[o]|
      ensures ClosedAt(g, s, o, i, more)
    {
      assert ClosedAt(g, s, o, i, seen);
    }
  }

  predicate Covers(g: Graph, s: Local) {
    s.cache.Keys == g.props.Keys
  }

  // ---- What can be reached ---------------------------------------------------------

  /** o leads to o' through an entry not cached at the start, or as a finished task. */
  predicate Leads(g: Graph, s: Local, o: Obj, o': Obj)
    requires WellFormed(g) && Covers(g, s) && o in g.props
  {
    || (exists i :: 0 <= i < |g.props[o]| && LeadsBy(g, s, o, i, o'))
    || (exists i :: 0 <= i < |g.garbage[o]| && g.garbage[o][i] == o')
  }

  predicate LeadsBy(g: Graph, s: Local, o: Obj, i: nat, o': Obj)
    requires WellFormed(g) && Covers(g, s) && o in g.props && i < |g.props[o]|
  {
    g.props[o][i].1 == Child(o') && g.props[o][i].0 !in Surviving(g, s, o)
  }

  /** o leads to x in n steps. */
  ghost predicate Within(g: Graph, s: Local, o: Obj, x: Obj, n: nat)
    requires WellFormed(g) && Covers(g, s)
    decreases n
  {
    if n == 0 then o == x
    else o in g.props && exists y :: Leads(g, s, o, y) && Within(g, s, y, x, n - 1)
  }

  /** x lies on a path from o, of any length, over entries that are not cached in s and finished tasks. */
  ghost predicate Reached(g: Graph, s: Local, o: Obj, x: Obj)
    requires WellFormed(g) && Covers(g, s)
  {
    exists n: nat :: Within(g, s, o, x, n)
  }

  ghost predicate Behind(g: Graph, s: Local, o: Obj, visited: set<Obj>)
    requires WellFormed(g) && Covers(g, s)
  {
    forall x :: x in visited ==> Reached(g, s, o, x)
  }

  /** No entry gets lost. */
  ghost predicate Grows(g: Graph, s: Local, s': Local)
    requires WellFormed(g) && Covers(g, s) && Covers(g, s')
  {
    forall o {:trigger Surviving(g, s', o)} :: o in g.props ==> Surviving(g, s, o) <= Surviving(g, s', o)
  }

  /** An object that o leads to over entries that are uncached now, it led to before. */
  lemma LeadsBefore(g: Graph, s: Local, s': Local, o: Obj, x: Obj)
    requires WellFormed(g) && Covers(g, s) && Covers(g, s') && Grows(g, s, s')
    requires o in g.props && Leads(g, s', o, x)
    ensures Leads(g, s, o, x)
  {
    assert Surviving(g, s, o) <= Surviving(g, s', o);
    if i: nat :| i < |g.props[o]| && LeadsBy(g, s', o, i, x) {
      assert LeadsBy(g, s, o, i, x);
    }
  }

  lemma {:induction false} WithinBefore(g: Graph, s: Local, s': Local, o: Obj, x: Obj, n: nat)
    requires WellFormed(g) && Covers(g, s) && Covers(g, s') && Grows(g, s, s')
    requires Within(g, s', o, x, n)
    ensures Within(g, s, o, x, n)
    decreases n
  {
    if n > 0 {
      var y :| Leads(g, s', o, y) && Within(g, s', y, x, n - 1);
      WithinBefore(g, s, s', y, x, n - 1);
      LeadsBefore(g, s, s', o, y);
    }
  }

  lemma FirstStep(g: Graph, s: Local, o: Obj, x: Obj, n: nat) returns (y: Obj)
    requires WellFormed(g) && Covers(g, s) && Within(g, s, o, x, n) && o != x
    ensures n > 0 && o in g.props && Leads(g, s, o, y) && Within(g, s, y, x, n - 1)
  {
    y :| Leads(g, s, o, y) && Within(g, s, y, x, n - 1);
  }

  /** A path with one more edge at its end. */
  lemma {:induction false} WithinStep(g: Graph, s: Local, o: Obj, y: Obj, x: Obj, n: nat)
    requires WellFormed(g) && Covers(g, s) && y in g.props && Within(g, s, o, y, n) && Leads(g, s, y, x)
    ensures Within(g, s, o, x, n + 1)
    decreases n
  {
    if n == 0 {
      assert Within(g, s, x, x, 0);
    } else {
      var u :| Leads(g, s, o, u) && Within(g, s, u, y, n - 1);
      WithinStep(g, s, u, y, x, n - 1);
    }
  }

  lemma ReachedStep(g: Graph, s: Local, o: Obj, y: Obj, x: Obj)
    requires WellFormed(g) && Covers(g, s) && y in g.props && Reached(g, s, o, y) && Leads(g, s, y, x)
    ensures Reached(g, s, o, x)
  {
    var n: nat :| Within(g, s, o, y, n);
    WithinStep(g, s, o, y, x, n);
  }

  /** A path that leaves a set has an edge that leaves it. */
  lemma {:induction false} EdgeOut(g: Graph, s: Local, seen: set<Obj>, o: Obj, x: Obj, n: nat) returns (y: Obj, u: Obj)
    requires WellFormed(g) && Covers(g, s) && Within(g, s, o, x, n) && o in seen && x !in seen
    ensures y in seen && u !in seen && y in g.props && Leads(g, s, y, u)
    decreases n
  {
    y := o;
    u := FirstStep(g, s, o, x, n);
    if u in seen {
      y, u := EdgeOut(g, s, seen, u, x, n - 1);
    }
  }

  lemma {:induction false} WithinExists(g: Graph, s: Local, o: Obj, x: Obj, n: nat)
    requires WellFormed(g) && Covers(g, s) && o in g.props && Within(g, s, o, x, n)
    ensures x in g.props
    decreases n
  {
    if n > 0 {
      var y :| Leads(g, s, o, y) && Within(g, s, y, x, n - 1);
      assert ObjectOk(g, o);
      assert forall i :: 0 <= i < |g.props[o]| && LeadsBy(g, s, o, i, y) ==> y in g.props;
      WithinExists(g, s, y, x, n - 1);
    }
  }

  // ---- Progress ----------------------------------------------------------------------

  function CacheableKeys(g: Graph, o: Obj): set<Key>
    requires o in g.props
  {
    set i | 0 <= i < |g.props[o]| && !g.props[o][i].1.Simple? :: g.props[o][i].0
  }

  /** What o caches after it was processed. */
  function Filled(g: Graph, s: Local, o: Obj): set<Key>
    requires o in s.cache && o in g.confirmed && o in g.props
  {
    Surviving(g, s, o) + CacheableKeys(g, o)
  }

  /** x is up to date, has its cache filled, and what it leads to lies in `seen`. */
  predicate DoneAt(g: Graph, s: Local, s': Local, x: Obj, seen: set<Obj>)
    requires WellFormed(g) && Covers(g, s) && Covers(g, s') && x in g.props
  {
    x in s'.inSync && s'.cache[x] == Filled(g, s, x) && Closed(g, s, x, seen)
  }

  predicate SameAt(s: Local, s': Local, x: Obj)
    requires x in s.cache && x in s'.cache
  {
    s'.cache[x] == s.cache[x] && (x in s'.inSync <==> x in s.inSync)
  }

  /**
   Between s and s', exactly the objects in `visited` were processed, the marked ones being left
   alone; nothing is said about the objects in `open`.
   */
  ghost predicate ProgressBut(g: Graph, s: Local, s': Local, marked: set<Obj>, visited: set<Obj>, open: set<Obj>)
    requires WellFormed(g) && Covers(g, s) && Covers(g, s')
  {
    && visited <= g.props.Keys
    && visited !! marked
    && (forall x {:trigger DoneAt(g, s, s', x, visited + marked)} ::
          x in visited ==> DoneAt(g, s, s', x, visited + marked))
    && (forall x {:trigger SameAt(s, s', x)} :: x in g.props && x !in visited && x !in open ==> SameAt(s, s', x))
  }

  ghost predicate Progress(g: Graph, s: Local, s': Local, marked: set<Obj>, visited: set<Obj>)
    requires WellFormed(g) && Covers(g, s) && Covers(g, s')
  {
    ProgressBut(g, s, s', marked, visited, {})
  }

  lemma NoProgress(g: Graph, s: Local, marked: set<Obj>)
    requires WellFormed(g) && Covers(g, s)
    ensures Progress(g, s, s, marked, {})
  {
  }

  /** Two calls in a row, under the same marks, progress together. */
  lemma ProgressTwice(g: Graph, s: Local, s1: Local, s2: Local, marked: set<Obj>, v1: set<Obj>, v2: set<Obj>,
                      open: set<Obj>)
    requires WellFormed(g) && Covers(g, s) && Covers(g, s1) && Covers(g, s2)
    requires ProgressBut(g, s, s1, marked, v1, open) && Progress(g, s1, s2, marked, v2)
    requires v2 !! open
    ensures ProgressBut(g, s, s2, marked, v1 + v2, open)
  {
    forall x | x in v1 + v2
      ensures DoneAt(g, s, s2, x, v1 + v2 + marked)
    {
      if x in v1 {
        assert DoneAt(g, s, s1, x, v1 + marked);
        ClosedWider(g, s, x, v1 + marked, v1 + v2 + marked);
        if x in v2 {
          assert DoneAt(g, s1, s2, x, v2 + marked);
        } else {
          assert SameAt(s1, s2, x);
        }
      } else {
        assert SameAt(s, s1, x);
        assert DoneAt(g, s1, s2, x, v2 + marked);
        SameClosed(g, s, s1, x, v2 + marked);
        ClosedWider(g, s, x, v2 + marked, v1 + v2 + marked);
      }
    }
    forall x | x in g.props && x !in v1 + v2 && x !in open
      ensures SameAt(s, s2, x)
    {
      assert SameAt(s, s1, x) && SameAt(s1, s2, x);
    }
  }

  lemma SameClosed(g: Graph, s: Local, s1: Local, x: Obj, seen: set<Obj>)
    requires WellFormed(g) && Covers(g, s) && Covers(g, s1) && x in g.props
    requires SameAt(s, s1, x) && Closed(g, s1, x, seen)
    ensures Closed(g, s, x, seen)
  {
    forall i | 0 <= i < |g.props[x]|
      ensures ClosedAt(g, s, x, i, seen)
    {
      assert ClosedAt(g, s1, x, i, seen);
    }
  }

  // ---- The object in progress ----------------------------------------------------

  /** The keys cached for o once its first n properties were handled. */
  function CachedUpTo(g: Graph, s: Local, o: Obj, n: nat): set<Key>
    requires o in g.props && o in s.cache && o in g.confirmed && n <= |g.props[o]|
  {
    if n == 0 then Surviving(g, s, o)
    else
      CachedUpTo(g, s, o, n - 1) + if g.props[o][n - 1].1.Simple? then {} else {g.props[o][n - 1].0}
  }

  lemma {:induction false} CachedUpToIs(g: Graph, s: Local, o: Obj, n: nat, k: Key)
    requires o in g.props && o in s.cache && o in g.confirmed && n <= |g.props[o]|
    ensures k in CachedUpTo(g, s, o, n) <==>
              k in Surviving(g, s, o) || exists i :: 0 <= i < n && g.props[o][i].0 == k && !g.props[o][i].1.Simple?
  {
    if n > 0 {
      CachedUpToIs(g, s, o, n - 1, k);
      if k in CachedUpTo(g, s, o, n) && k !in CachedUpTo(g, s, o, n - 1) {
        assert g.props[o][n - 1].0 == k;
      }
    }
  }

  lemma {:induction false} SurvivorsStay(g: Graph, s: Local, o: Obj, n: nat)
    requires o in g.props && o in s.cache && o in g.confirmed && n <= |g.props[o]|
    ensures Surviving(g, s, o) <= CachedUpTo(g, s, o, n)
    decreases n
  {
    if n > 0 {
      SurvivorsStay(g, s, o, n - 1);
    }
  }

  lemma AllCached(g: Graph, s: Local, o: Obj)
    requires o in g.props && o in s.cache && o in g.confirmed
    ensures CachedUpTo(g, s, o, |g.props[o]|) == Filled(g, s, o)
  {
    forall k
      ensures k in CachedUpTo(g, s, o, |g.props[o]|) <==> k in Filled(g, s, o)
    {
      CachedUpToIs(g, s, o, |g.props[o]|, k);
    }
  }

  /** o itself: n of its properties and m of its tasks are handled. */
  predicate Handled(g: Graph, s: Local, s': Local, o: Obj, n: nat, m: nat, seen: set<Obj>)
    requires WellFormed(g) && Covers(g, s) && Covers(g, s') && o in g.props
  {
    && n <= |g.props[o]| && m <= |g.garbage[o]|
    && o in s'.inSync
    && s'.cache[o] == CachedUpTo(g, s, o, n)
    && (forall i :: 0 <= i < n ==> ClosedAt(g, s, o, i, seen))
    && (forall i :: 0 <= i < m ==> g.garbage[o][i] in seen)
  }

  /**
   Object o, which is marked, is being processed: n of its properties and m of its tasks are
   handled, and the recursive calls have processed `visited`.
   */
  ghost predicate Working(g: Graph, s: Local, s': Local, o: Obj, n: nat, m: nat, marked: set<Obj>, visited: set<Obj>)
    requires WellFormed(g) && Covers(g, s) && Covers(g, s') && o in g.props
  {
    && o in marked
    && Handled(g, s, s', o, n, m, visited + marked)
    && Behind(g, s, o, visited)
    && ProgressBut(g, s, s', marked, visited, {o})
  }

  lemma WorkStarts(g: Graph, s: Local, s': Local, o: Obj, marked: set<Obj>)
    requires WellFormed(g) && Covers(g, s) && o in g.props && o in marked
    requires s' == Local(s.cache[o := Surviving(g, s, o)], s.inSync + {o})
    ensures Covers(g, s') && Working(g, s, s', o, 0, 0, marked, {})
  {
  }

  /** What a recursive call processes is behind o. */
  lemma CalledBehind(g: Graph, s: Local, s1: Local, o: Obj, n: nat, m: nat, marked: set<Obj>, v1: set<Obj>, c: Obj,
                     v2: set<Obj>)
    requires WellFormed(g) && Covers(g, s) && Covers(g, s1) && o in g.props
    requires Working(g, s, s1, o, n, m, marked, v1)
    requires Leads(g, s, o, c) && Behind(g, s1, c, v2)
    ensures Behind(g, s, o, v2)
  {
    WorkGrows(g, s, s1, o, n, m, marked, v1);
    forall x | x in v2
      ensures Reached(g, s, o, x)
    {
      var l: nat :| Within(g, s1, c, x, l);
      WithinBefore(g, s, s1, c, x, l);
      assert Within(g, s, o, x, l + 1);
    }
  }

  lemma WorkGrows(g: Graph, s: Local, s1: Local, o: Obj, n: nat, m: nat, marked: set<Obj>, v1: set<Obj>)
    requires WellFormed(g) && Covers(g, s) && Covers(g, s1) && o in g.props
    requires Working(g, s, s1, o, n, m, marked, v1)
    ensures Grows(g, s, s1)
  {
    forall x | x in g.props
      ensures Surviving(g, s, x) <= Surviving(g, s1, x)
    {
      if x == o {
        SurvivorsStay(g, s, o, n);
      } else if x in v1 {
        assert DoneAt(g, s, s1, x, v1 + marked);
      } else {
        assert SameAt(s, s1, x);
      }
    }
  }

  /** A recursive call, under o's mark, leaves o alone. */
  lemma WorkCalls(g: Graph, s: Local, s1: Local, s2: Local, o: Obj, n: nat, m: nat, marked: set<Obj>, v1: set<Obj>,
                  v2: set<Obj>)
    requires WellFormed(g) && Covers(g, s) && Covers(g, s1) && Covers(g, s2) && o in g.props
    requires Working(g, s, s1, o, n, m, marked, v1)
    requires Progress(g, s1, s2, marked, v2) && Behind(g, s, o, v2)
    ensures Working(g, s, s2, o, n, m, marked, v1 + v2)
  {
    assert o !in v2 && SameAt(s1, s2, o);
    ProgressTwice(g, s, s1, s2, marked, v1, v2, {o});
    HandledWider(g, s, s1, s2, o, n, m, v1 + marked, v1 + v2 + marked);
  }

  lemma HandledWider(g: Graph, s: Local, s1: Local, s2: Local, o: Obj, n: nat, m: nat, seen: set<Obj>, more: set<Obj>)
    requires WellFormed(g) && Covers(g, s) && Covers(g, s1) && Covers(g, s2) && o in g.props
    requires Handled(g, s, s1, o, n, m, seen) && SameAt(s1, s2, o) && seen <= more
    ensures Handled(g, s, s2, o, n, m, more)
  {
    forall i | 0 <= i < n
      ensures ClosedAt(g, s, o, i, more)
    {
      assert ClosedAt(g, s, o, i, seen);
    }
  }

  /** Property n of o is handled: it was cached, is not cacheable, or its child has been processed. */
  lemma WorkAdvances(g: Graph, s: Local, s1: Local, s2: Local, o: Obj, n: nat, m: nat, marked: set<Obj>,
                     visited: set<Obj>)
    requires WellFormed(g) && Covers(g, s) && Covers(g, s1) && Covers(g, s2) && o in g.props
    requires Working(g, s, s1, o, n, m, marked, visited) && n < |g.props[o]|
    requires s2 == s1.(cache := s1.cache[o := CachedUpTo(g, s, o, n + 1)])
    requires ClosedAt(g, s, o, n, visited + marked)
    ensures Working(g, s, s2, o, n + 1, m, marked, visited)
  {
    forall x | x in visited
      ensures DoneAt(g, s, s2, x, visited + marked)
    {
      assert DoneAt(g, s, s1, x, visited + marked);
    }
    forall x | x in g.props && x !in visited && x != o
      ensures SameAt(s, s2, x)
    {
      assert SameAt(s, s1, x);
    }
  }

  lemma WorkSkips(g: Graph, s: Local, s': Local, o: Obj, n: nat, m: nat, marked: set<Obj>, visited: set<Obj>)
    requires WellFormed(g) && Covers(g, s) && Covers(g, s') && o in g.props
    requires Working(g, s, s', o, n, m, marked, visited) && n < |g.props[o]|
    requires g.props[o][n].0 in s'.cache[o] || g.props[o][n].1.Simple?
    ensures Working(g, s, s', o, n + 1, m, marked, visited)
  {
    SkipsAt(g, s, s', o, n);
    assert s'.cache == s'.cache[o := CachedUpTo(g, s, o, n + 1)];
    assert ClosedAt(g, s, o, n, visited + marked);
    WorkAdvances(g, s, s', s', o, n, m, marked, visited);
  }

  /** A property that is skipped was cached at the start, for no other property has its key. */
  lemma SkipsAt(g: Graph, s: Local, s': Local, o: Obj, n: nat)
    requires WellFormed(g) && Covers(g, s) && Covers(g, s') && o in g.props && n < |g.props[o]|
    requires s'.cache[o] == CachedUpTo(g, s, o, n)
    requires g.props[o][n].0 in s'.cache[o] || g.props[o][n].1.Simple?
    ensures CachedUpTo(g, s, o, n + 1) == s'.cache[o]
    ensures g.props[o][n].1.Simple? || g.props[o][n].0 in Surviving(g, s, o)
  {
    assert ObjectOk(g, o);
    CachedUpToIs(g, s, o, n, g.props[o][n].0);
  }

  lemma WorkKeeps(g: Graph, s: Local, s1: Local, s2: Local, o: Obj, n: nat, m: nat, marked: set<Obj>, visited: set<Obj>)
    requires WellFormed(g) && Covers(g, s) && Covers(g, s1) && o in g.props
    requires Working(g, s, s1, o, n, m, marked, visited) && n < |g.props[o]|
    requires !g.props[o][n].1.Simple?
    requires g.props[o][n].1.Child? ==> g.props[o][n].1.o in visited + marked
    requires s2 == s1.(cache := s1.cache[o := s1.cache[o] + {g.props[o][n].0}])
    ensures Covers(g, s2) && Working(g, s, s2, o, n + 1, m, marked, visited)
  {
    assert ClosedAt(g, s, o, n, visited + marked);
    WorkAdvances(g, s, s1, s2, o, n, m, marked, visited);
  }

  lemma WorkTask(g: Graph, s: Local, s': Local, o: Obj, m: nat, marked: set<Obj>, visited: set<Obj>)
    requires WellFormed(g) && Covers(g, s) && Covers(g, s') && o in g.props
    requires Working(g, s, s', o, |g.props[o]|, m, marked, visited) && m < |g.garbage[o]|
    requires g.garbage[o][m] in visited + marked
    ensures Working(g, s, s', o, |g.props[o]|, m + 1, marked, visited)
  {
  }

  /** All properties and tasks of o are done: o itself is processed. */
  lemma WorkEnds(g: Graph, s: Local, s': Local, o: Obj, marked: set<Obj>, visited: set<Obj>)
    requires WellFormed(g) && Covers(g, s) && Covers(g, s') && o in g.props
    requires Working(g, s, s', o, |g.props[o]|, |g.garbage[o]|, marked, visited)
    ensures Progress(g, s, s', marked - {o}, visited + {o}) && Behind(g, s, o, visited + {o})
  {
    var seen := visited + {o} + (marked - {o});
    assert seen == visited + marked;
    AllCached(g, s, o);
    assert Within(g, s, o, o, 0);
    forall x | x in visited + {o}
      ensures DoneAt(g, s, s', x, seen)
    {
      if x != o {
        assert DoneAt(g, s, s', x, visited + marked);
      }
    }
    forall x | x in g.props && x !in visited + {o}
      ensures SameAt(s, s', x)
    {
    }
  }

  // ---- The recursion ---------------------------------------------------------------

  class Synchronizer {
    const g: Graph
    var cache: map<Obj, set<Key>>
    var inSync: set<Obj>
    var marked: set<Obj>

    constructor (g: Graph, cache: map<Obj, set<Key>>, inSync: set<Obj>)
      ensures this.g == g && this.cache == cache && this.inSync == inSync && marked == {}
    {
      this.g, this.cache, this.inSync, this.marked := g, cache, inSync, {};
    }

    ghost function Now(): Local
      reads this
    {
      Local(cache, inSync)
    }

    ghost predicate Valid()
      reads this
    {
      WellFormed(g) && Covers(g, Now()) && marked <= g.props.Keys
    }

    /** o is in progress, under its mark, with n properties and m tasks done since s. */
    ghost predicate At(o: Obj, s: Local, n: nat, m: nat, visited: set<Obj>)
      reads this
    {
      && Valid() && o in g.props && Covers(g, s)
      && Working(g, s, Now(), o, n, m, marked, visited)
    }

    /** pthreads_store_full_sync_local_properties.  `visited` is what the call has processed. */
    method Sync(o: Obj) returns (ghost visited: set<Obj>)
      requires Valid() && o in g.props
      modifies this
      ensures Valid() && marked == old(marked)
      ensures Progress(g, old(Now()), Now(), marked, visited)
      ensures o in visited + marked && Behind(g, old(Now()), o, visited)
      decreases g.props.Keys - marked, 0
    {
      visited := {};
      if o in marked {
        NoProgress(g, Now(), marked);
        return;
      }
      ghost var s := Now();
      Enter(o);
      visited := Properties(o, s);
      visited := Tasks(o, s, visited);
      visited := Leave(o, s, visited);
    }

    /** A call from outside: processes exactly what the root reaches. */
    method SyncRoot(root: Obj) returns (ghost visited: set<Obj>)
      requires Valid() && root in g.props && marked == {}
      modifies this
      ensures Valid() && marked == {}
      ensures forall x :: x in g.props ==> ExactAt(g, old(Now()), Now(), root, x)
      ensures IsLeast(g, old(Now()), root, visited) && Effect(g, old(Now()), Now(), visited)
    {
      visited := Sync(root);
      SyncIsLeast(g, old(Now()), Now(), root, visited);
      forall x | x in g.props
        ensures ExactAt(g, old(Now()), Now(), root, x)
      {
        SyncExact(g, old(Now()), Now(), root, visited, x);
      }
    }

    /** Marks the object and drops its outdated entries. */
    method Enter(o: Obj)
      requires Valid() && o in g.props && o !in marked
      modifies this
      ensures marked == old(marked) + {o} && At(o, old(Now()), 0, 0, {})
    {
      marked := marked + {o};
      if o !in inSync {
        cache := cache[o := cache[o] * g.confirmed[o]];
        inSync := inSync + {o};
      }
      ghost var s := old(Now());
      assert Now() == Local(s.cache[o := Surviving(g, s, o)], s.inSync + {o});
      WorkStarts(g, s, Now(), o, marked);
    }

    /** Takes the mark away. */
    method Leave(o: Obj, ghost s: Local, ghost seen: set<Obj>) returns (ghost visited: set<Obj>)
      requires o in g.props && o in g.garbage && At(o, s, |g.props[o]|, |g.garbage[o]|, seen)
      modifies this`marked
      ensures Valid() && marked == old(marked) - {o} && visited == seen + {o}
      ensures Progress(g, s, Now(), marked, visited) && Behind(g, s, o, visited)
    {
      WorkEnds(g, s, Now(), o, marked, seen);
      visited := seen + {o};
      marked := marked - {o};
    }

    /** The loop over the shared table. */
    method Properties(o: Obj, ghost s: Local) returns (ghost visited: set<Obj>)
      requires o in g.props && At(o, s, 0, 0, {})
      modifies this
      ensures marked == old(marked) && At(o, s, |g.props[o]|, 0, visited)
      decreases g.props.Keys - marked, 3
    {
      visited := {};
      var n := 0;
      while n < |g.props[o]|
        invariant n <= |g.props[o]| && marked == old(marked) && At(o, s, n, 0, visited)
      {
        visited := Property(o, n, s, visited);
        n := n + 1;
      }
    }

    /** pthreads_worker_sync_collectable_tasks */
    method Tasks(o: Obj, ghost s: Local, ghost seen: set<Obj>) returns (ghost visited: set<Obj>)
      requires o in g.props && o in g.garbage && At(o, s, |g.props[o]|, 0, seen)
      modifies this
      ensures marked == old(marked) && At(o, s, |g.props[o]|, |g.garbage[o]|, visited)
      decreases g.props.Keys - marked, 3
    {
      visited := seen;
      var m := 0;
      while m < |g.garbage[o]|
        invariant m <= |g.garbage[o]| && marked == old(marked) && At(o, s, |g.props[o]|, m, visited)
      {
        visited := Task(o, m, s, visited);
        m := m + 1;
      }
    }

    /** One round of the loop over the shared table. */
    method Property(o: Obj, n: nat, ghost s: Local, ghost seen: set<Obj>) returns (ghost visited: set<Obj>)
      requires o in g.props && n < |g.props[o]| && At(o, s, n, 0, seen)
      modifies this
      ensures marked == old(marked) && At(o, s, n + 1, 0, visited)
      decreases g.props.Keys - marked, 2
    {
      visited := seen;
      var k, target := g.props[o][n].0, g.props[o][n].1;
      if k in cache[o] || target.Simple? {
        WorkSkips(g, s, Now(), o, n, 0, marked, visited);
      } else {
        if target.Child? {
          SurvivorsStay(g, s, o, n);
          assert LeadsBy(g, s, o, n, target.o);
          assert ObjectOk(g, o);
          visited := Descend(o, n, 0, s, visited, target.o);
        }
        Keep(o, n, s, visited);
      }
    }

    /** One round of pthreads_worker_sync_collectable_tasks. */
    method Task(o: Obj, m: nat, ghost s: Local, ghost seen: set<Obj>) returns (ghost visited: set<Obj>)
      requires o in g.props && o in g.garbage && m < |g.garbage[o]| && At(o, s, |g.props[o]|, m, seen)
      modifies this
      ensures marked == old(marked) && At(o, s, |g.props[o]|, m + 1, visited)
      decreases g.props.Keys - marked, 2
    {
      assert ObjectOk(g, o);
      assert Leads(g, s, o, g.garbage[o][m]);
      visited := Descend(o, |g.props[o]|, m, s, seen, g.garbage[o][m]);
      WorkTask(g, s, Now(), o, m, marked, visited);
    }

    /** The recursive call for something that o leads to. */
    method Descend(o: Obj, ghost n: nat, ghost m: nat, ghost s: Local, ghost seen: set<Obj>, c: Obj)
      returns (ghost visited: set<Obj>)
      requires o in g.props && c in g.props && At(o, s, n, m, seen) && Leads(g, s, o, c)
      modifies this
      ensures marked == old(marked) && At(o, s, n, m, visited) && c in visited + marked
      ensures cache[o] == old(cache)[o]
      decreases g.props.Keys - marked, 1
    {
      ghost var more := Sync(c);
      CalledBehind(g, s, old(Now()), o, n, m, marked, seen, c, more);
      WorkCalls(g, s, old(Now()), Now(), o, n, m, marked, seen, more);
      visited := seen + more;
      assert SameAt(old(Now()), Now(), o);
    }

    /** Caches property n. */
    method Keep(o: Obj, n: nat, ghost s: Local, ghost visited: set<Obj>)
      requires o in g.props && n < |g.props[o]| && !g.props[o][n].1.Simple? && At(o, s, n, 0, visited)
      requires g.props[o][n].1.Child? ==> g.props[o][n].1.o in visited + marked
      modifies this`cache
      ensures At(o, s, n + 1, 0, visited)
    {
      ghost var before := Now();
      cache := cache[o := cache[o] + {g.props[o][n].0}];
      WorkKeeps(g, s, before, Now(), o, n, 0, marked, visited);
    }
  }

  // ---- What the caller gets ----------------------------------------------------------

  /**
   A full sync that starts without marks leaves every object reachable from a processed one, along
   a path of any length, with all of its cacheable properties in the local cache.
   */
  lemma {:induction false} ReachedIsComplete(g: Graph, s: Local, s': Local, visited: set<Obj>, o: Obj, x: Obj, n: nat)
    requires WellFormed(g) && Covers(g, s) && Covers(g, s')
    requires Progress(g, s, s', {}, visited)
    requires o in visited && Within(g, s, o, x, n)
    ensures x in visited && Complete(g, s', x)
    decreases n
  {
    if n == 0 {
      assert DoneAt(g, s, s', x, visited + {});
    } else {
      var y :| Leads(g, s, o, y) && Within(g, s, y, x, n - 1);
      DoneLeads(g, s, s', visited, o, y);
      ReachedIsComplete(g, s, s', visited, y, x, n - 1);
    }
  }

  /** What a processed object leads to was processed. */
  lemma DoneLeads(g: Graph, s: Local, s': Local, visited: set<Obj>, y: Obj, x: Obj)
    requires WellFormed(g) && Covers(g, s) && Covers(g, s')
    requires Progress(g, s, s', {}, visited) && y in visited && Leads(g, s, y, x)
    ensures x in visited && x in g.props && Complete(g, s', x)
  {
    assert DoneAt(g, s, s', y, visited + {});
    if i: nat :| i < |g.props[y]| && LeadsBy(g, s, y, i, x) {
      assert ClosedAt(g, s, y, i, visited + {});
    }
    assert DoneAt(g, s, s', x, visited + {});
  }

  lemma ReachedIsVisited(g: Graph, s: Local, s': Local, visited: set<Obj>, o: Obj, x: Obj)
    requires WellFormed(g) && Covers(g, s) && Covers(g, s')
    requires Progress(g, s, s', {}, visited) && o in visited && Reached(g, s, o, x)
    ensures x in visited
  {
    var n: nat :| Within(g, s, o, x, n);
    ReachedIsComplete(g, s, s', visited, o, x, n);
  }

  ghost predicate ExactAt(g: Graph, s: Local, s': Local, root: Obj, x: Obj)
    requires WellFormed(g) && Covers(g, s) && Covers(g, s') && x in g.props
  {
    && s'.cache[x] == (if Reached(g, s, root, x) then Filled(g, s, x) else s.cache[x])
    && (x in s'.inSync <==> Reached(g, s, root, x) || x in s.inSync)
    && (Complete(g, s', x) <==> Reached(g, s, root, x) || Complete(g, s, x))
  }

  /**
   Exactly what a full sync that starts without marks does: it processes the objects reached
   from the root over entries that were not cached, fills their caches, and touches no other.
   So an object is complete afterwards if and only if it was reached or was complete before.
   */
  lemma SyncExact(g: Graph, s: Local, s': Local, root: Obj, visited: set<Obj>, x: Obj)
    requires WellFormed(g) && Covers(g, s) && Covers(g, s') && x in g.props
    requires Progress(g, s, s', {}, visited) && root in visited && Behind(g, s, root, visited)
    ensures x in visited <==> Reached(g, s, root, x)
    ensures ExactAt(g, s, s', root, x)
  {
    if Reached(g, s, root, x) {
      var n: nat :| Within(g, s, root, x, n);
      ReachedIsComplete(g, s, s', visited, root, x, n);
      assert DoneAt(g, s, s', x, visited + {});
    } else {
      assert SameAt(s, s', x);
    }
  }

  // ---- The effect, said in terms of caches, counters and confirmations alone -------------

  /**
   A synchronization of o has to fill key k: nothing is cached under it, or what is cached is
   outdated, for o is not up to date and the shared table does not confirm it.
   */
  predicate Due(g: Graph, s: Local, o: Obj, k: Key)
    requires o in s.cache && o in g.confirmed
  {
    k in s.cache[o] ==> o !in s.inSync && k !in g.confirmed[o]
  }

  /** All objects that a due key of o holds, and all finished tasks of o, are in `all`. */
  predicate TakesAlong(g: Graph, s: Local, o: Obj, all: set<Obj>)
    requires o in s.cache && o in g.confirmed && o in g.props && o in g.garbage
  {
    && (forall i :: 0 <= i < |g.props[o]| ==>
          g.props[o][i].1.Child? && Due(g, s, o, g.props[o][i].0) ==> g.props[o][i].1.o in all)
    && (forall i :: 0 <= i < |g.garbage[o]| ==> g.garbage[o][i] in all)
  }

  ghost predicate TakesAllAlong(g: Graph, s: Local, all: set<Obj>)
    requires WellFormed(g) && Covers(g, s)
  {
    forall o :: o in all ==> o in g.props && TakesAlong(g, s, o, all)
  }

  /** `all` is the least set that has the root and, with an object, all that it takes along. */
  ghost predicate IsLeast(g: Graph, s: Local, root: Obj, all: set<Obj>)
    requires WellFormed(g) && Covers(g, s)
  {
    && root in all && TakesAllAlong(g, s, all)
    && forall other: set<Obj> :: root in other && TakesAllAlong(g, s, other) ==> all <= other
  }

  /**
   The objects in `all` are up to date, cache what was not outdated and each cacheable key, and
   nothing else; all other objects are as they were.
   */
  ghost predicate Effect(g: Graph, s: Local, s': Local, all: set<Obj>)
    requires WellFormed(g) && Covers(g, s) && Covers(g, s') && all <= g.props.Keys
  {
    forall o :: o in g.props ==>
      if o in all then
        && o in s'.inSync
        && (forall k :: k in s'.cache[o] <==>
              || (k in s.cache[o] && !Due(g, s, o, k))
              || exists i :: 0 <= i < |g.props[o]| && g.props[o][i].0 == k && !g.props[o][i].1.Simple?)
      else
        s'.cache[o] == s.cache[o] && (o in s'.inSync <==> o in s.inSync)
  }

  lemma {:induction false} WithinLeast(g: Graph, s: Local, other: set<Obj>, o: Obj, x: Obj, n: nat)
    requires WellFormed(g) && Covers(g, s) && TakesAllAlong(g, s, other) && o in other && Within(g, s, o, x, n)
    ensures x in other
    decreases n
  {
    if n > 0 {
      var y :| Leads(g, s, o, y) && Within(g, s, y, x, n - 1);
      assert TakesAlong(g, s, o, other);
      if i: nat :| i < |g.props[o]| && LeadsBy(g, s, o, i, y) {
        assert Due(g, s, o, g.props[o][i].0);
      }
      WithinLeast(g, s, other, y, x, n - 1);
    }
  }

  /** A full sync processes the least such set, and has exactly that effect. */
  lemma SyncIsLeast(g: Graph, s: Local, s': Local, root: Obj, visited: set<Obj>)
    requires WellFormed(g) && Covers(g, s) && Covers(g, s')
    requires Progress(g, s, s', {}, visited) && root in visited && Behind(g, s, root, visited)
    ensures IsLeast(g, s, root, visited) && Effect(g, s, s', visited)
  {
    forall o | o in visited
      ensures TakesAlong(g, s, o, visited)
    {
      assert DoneAt(g, s, s', o, visited + {});
      assert visited + {} == visited;
      forall i | 0 <= i < |g.props[o]| && g.props[o][i].1.Child? && Due(g, s, o, g.props[o][i].0)
        ensures g.props[o][i].1.o in visited
      {
        assert ClosedAt(g, s, o, i, visited + {});
      }
    }
    forall other: set<Obj> | root in other && TakesAllAlong(g, s, other)
      ensures visited <= other
    {
      forall x | x in visited
        ensures x in other
      {
        assert Reached(g, s, root, x);
        var n: nat :| Within(g, s, root, x, n);
        WithinLeast(g, s, other, root, x, n);
      }
    }
    EffectHolds(g, s, s', visited);
  }

  lemma EffectHolds(g: Graph, s: Local, s': Local, visited: set<Obj>)
    requires WellFormed(g) && Covers(g, s) && Covers(g, s') && Progress(g, s, s', {}, visited)
    ensures Effect(g, s, s', visited)
  {
    forall o | o in g.props && o in visited
      ensures o in s'.inSync
      ensures forall k :: k in s'.cache[o] <==>
                || (k in s.cache[o] && !Due(g, s, o, k))
                || exists i :: 0 <= i < |g.props[o]| && g.props[o][i].0 == k && !g.props[o][i].1.Simple?
    {
      assert DoneAt(g, s, s', o, visited + {});
    }
    forall o | o in g.props && o !in visited
      ensures SameAt(s, s', o)
    {
    }
  }

  /**
   What becomes of the cache of an object that is reached.  Outdated entries are gone unless their key
   is cacheable, and then it has been filled again; an object under such a key is complete.  All other
   entries stay.
   */
  lemma OutdatedEntriesGo(g: Graph, s: Local, s': Local, root: Obj, visited: set<Obj>, o: Obj)
    requires WellFormed(g) && Covers(g, s) && Covers(g, s')
    requires Progress(g, s, s', {}, visited) && root in visited && Behind(g, s, root, visited) && o in visited
    ensures o in g.props && o in g.confirmed
    ensures o !in s.inSync ==>
              && (forall k :: k in s.cache[o] && k !in g.confirmed[o] && k in s'.cache[o] ==>
                    exists i :: 0 <= i < |g.props[o]| && g.props[o][i].0 == k && !g.props[o][i].1.Simple?)
              && (forall k :: k in s.cache[o] && k in g.confirmed[o] ==> k in s'.cache[o])
              && (forall i :: 0 <= i < |g.props[o]| && g.props[o][i].0 !in g.confirmed[o] && g.props[o][i].1.Child? ==>
                    g.props[o][i].1.o in g.props && Complete(g, s', g.props[o][i].1.o))
    ensures o in s.inSync ==> s.cache[o] <= s'.cache[o]
  {
    SyncIsLeast(g, s, s', root, visited);
    assert TakesAlong(g, s, o, visited);
    forall i | 0 <= i < |g.props[o]| && g.props[o][i].0 !in g.confirmed[o] && g.props[o][i].1.Child? && o !in s.inSync
      ensures g.props[o][i].1.o in visited && Complete(g, s', g.props[o][i].1.o)
    {
      assert DoneAt(g, s, s', g.props[o][i].1.o, visited + {});
    }
  }

  /** An outdated entry does not hide the child behind it: every full sync fills the child's cache. */
  lemma OutdatedEntryIsFollowed() returns (g: Graph, s: Local)
    ensures WellFormed(g) && Covers(g, s)
    ensures g.props == map[0 := [(7, Child(1))], 1 := [(8, Other)]] && s == Local(map[0 := {7}, 1 := {}], {})
    ensures g.confirmed == map[0 := {}, 1 := {}]
    ensures forall s', visited ::
              Covers(g, s') && 0 in visited && Progress(g, s, s', {}, visited) && Behind(g, s, 0, visited) ==>
                1 in s'.inSync && s'.cache[1] == {8}
  {
    g := Graph(map[0 := [(7, Child(1))], 1 := [(8, Other)]], map[0 := {}, 1 := {}], map[0 := [], 1 := []]);
    s := Local(map[0 := {7}, 1 := {}], {});
    assert ObjectOk(g, 0) && ObjectOk(g, 1);
    forall s', visited | Covers(g, s') && 0 in visited && Progress(g, s, s', {}, visited) && Behind(g, s, 0, visited)
      ensures 1 in s'.inSync && s'.cache[1] == {8}
    {
      SyncIsLeast(g, s, s', 0, visited);
      FollowedAt(g, s, s', visited);
    }
  }

  lemma FollowedAt(g: Graph, s: Local, s': Local, visited: set<Obj>)
    requires WellFormed(g) && Covers(g, s) && Covers(g, s') && visited <= g.props.Keys
    requires g.props == map[0 := [(7, Child(1))], 1 := [(8, Other)]] && s == Local(map[0 := {7}, 1 := {}], {})
    requires g.confirmed == map[0 := {}, 1 := {}]
    requires 0 in visited && TakesAllAlong(g, s, visited) && Effect(g, s, s', visited)
    ensures 1 in s'.inSync && s'.cache[1] == {8}
  {
    assert TakesAlong(g, s, 0, visited);
    assert g.props[0][0] == (7, Child(1)) && g.props[1][0] == (8, Other);
    assert 1 in visited;
  }

  /** Entries that were cached already are not descended into: the child behind one stays incomplete. */
  lemma CachedEntriesAreSkipped() returns (g: Graph, s: Local)
    ensures WellFormed(g) && Covers(g, s)
    ensures 0 in g.props && 1 in g.props && g.props[0] == [(7, Child(1))] && 7 in s.cache[0]
    ensures forall s', visited ::
              Covers(g, s') && 0 in visited && Progress(g, s, s', {}, visited) && Behind(g, s, 0, visited) ==>
                !Complete(g, s', 1)
  {
    g := Graph(map[0 := [(7, Child(1))], 1 := [(8, Other)]], map[0 := {7}, 1 := {}], map[0 := [], 1 := []]);
    s := Local(map[0 := {7}, 1 := {}], {0});
    assert g.props[1][0] == (8, Other);
    assert Surviving(g, s, 0) == {7};
    forall s', visited | Covers(g, s') && 0 in visited && Progress(g, s, s', {}, visited) && Behind(g, s, 0, visited)
      ensures !Complete(g, s', 1)
    {
      OnlyItself(g, s, 1);
      SyncExact(g, s, s', 0, visited, 1);
      assert !Complete(g, s, 1);
    }
  }

  /** When the root leads nowhere, it reaches nothing else. */
  lemma OnlyItself(g: Graph, s: Local, x: Obj)
    requires WellFormed(g) && Covers(g, s) && 0 in g.props && x != 0
    requires forall o :: !Leads(g, s, 0, o)
    ensures !Reached(g, s, 0, x)
  {
  }
}
