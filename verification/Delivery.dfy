/**
 Exactly-once delivery: any number of connections take entries with shift, pop and chunk.
 */
module Delivery {
  import opened Wrappers
  import opened OrderedTable
  import opened Store
  import opened StoreCoherence

  /** The entries of a table, in order, as plain contents. */
  ghost function Entries(t: Table<Slot>): seq<(Key, Content)>
    requires Valid(t)
  {
    seq(|t.order|, i requires 0 <= i < |t.order| =>
      assert t.order[i] in KeySet(t.order); (t.order[i], SlotContent(t.slots[t.order[i]])))
  }

  /** The entries an operation hands out from the front, in order. */
  ghost function Front(s: State, op: Op): seq<(Key, Content)>
    requires Valid(s.table)
  {
    match op
    case Shift(_) => if s.table.order == [] then [] else Entries(s.table)[..1]
    case Chunk(_, n) => Entries(s.table)[..ChunkSize(s.table, n)]
    case _ => []
  }

  /** The entries an operation hands out from the back. */
  ghost function Back(s: State, op: Op): seq<(Key, Content)>
    requires Valid(s.table)
  {
    match op
    case Pop(_) => if s.table.order == [] then [] else Entries(s.table)[|s.table.order| - 1..]
    case _ => []
  }

  predicate Takes(op: Op) { op.Shift? || op.Pop? || op.Chunk? }
  predicate Changes(op: Op) { op.Write? || op.Delete? || op.Merge? }

  lemma DropFirstEntries(t: Table<Slot>, n: nat)
    requires Valid(t) && n <= |t.order|
    ensures Valid(DropFirst(t, n)) && Entries(DropFirst(t, n)) == Entries(t)[n..]
  {
    DropFirstValid(t, n);
    var d := DropFirst(t, n);
    forall i | 0 <= i < |d.order|
      ensures Entries(d)[i] == Entries(t)[n..][i]
    {
      assert d.order[i] in KeySet(d.order);
    }
  }

  lemma DropLastEntries(t: Table<Slot>)
    requires Valid(t) && t.order != []
    ensures Valid(DropLast(t)) && Entries(DropLast(t)) == Entries(t)[..|t.order| - 1]
  {
    DropLastValid(t);
    var d := DropLast(t);
    forall i | 0 <= i < |d.order|
      ensures Entries(d)[i] == Entries(t)[i]
    {
      assert d.order[i] in KeySet(d.order);
    }
  }

  lemma SameEntries(t: Table<Slot>, t': Table<Slot>)
    requires Valid(t) && t'.order == t.order && Meaning(t') == Meaning(t)
    ensures Valid(t') && Entries(t') == Entries(t)
  {
    assert Meaning(t).Keys == t.slots.Keys && Meaning(t').Keys == t'.slots.Keys;
    forall i | 0 <= i < |t.order|
      ensures Entries(t')[i] == Entries(t)[i]
    {
      var k := t.order[i];
      assert k in KeySet(t.order);
      assert Meaning(t')[k] == Meaning(t)[k];
    }
  }

  /** The step splits the table into what it hands out at either end and what remains. */
  ghost predicate Splits(s: State, op: Op, s': State) {
    && Valid(s.table) && Valid(s'.table)
    && Entries(s.table) == Front(s, op) + Entries(s'.table) + Back(s, op)
  }

  /** The table that an operation leaves. */
  ghost function TableAfter(s: State, op: Op): Table<Slot>
    requires op.Connect? || op.c in s.conns
    requires op.Merge? ==> Valid(op.src)
  {
    match op
    case Write(c, k, v) =>
      var slot := Save(s.conns[c].thread, v);
      if slot.Some? then Put(s.table, k, slot.value) else s.table
    case Delete(_, k) => if k in s.table.slots then Del(s.table, k) else s.table
    case Shift(_) => if s.table.order == [] then s.table else DropFirst(s.table, 1)
    case Pop(_) => if s.table.order == [] then s.table else DropLast(s.table)
    case Chunk(_, n) => DropFirst(s.table, ChunkSize(s.table, n))
    case Merge(_, src, overwrite) => MergeTable(s.table, src, overwrite)
    case Free(c) => PersistTable(s.table, s.conns[c].thread)
    case _ => s.table
  }

  lemma NextTable(s: State, op: Op, live: set<ZObject>, out: Outcome, s': State)
    requires Next(s, op, live, out, s')
    ensures (op.Connect? || op.c in s.conns) && (op.Merge? ==> Valid(op.src))
    ensures s'.table == TableAfter(s, op)
  {
    if op.Read? || op.Export? || op.FullSync? || op.Synchronize? || op.Finish? || op.Connect? {
      QuietStepRefines(s, op, live, out, s');
    } else if op.Shift? || op.Pop? || op.Chunk? {
      TakenTable(Noted(s, live), op, live, out, s');
    } else {
      ChangedTable(Noted(s, live), op, live, out, s');
    }
  }

  lemma TakenTable(s: State, op: Op, live: set<ZObject>, out: Outcome, s': State)
    requires Takes(op) && op.c in s.conns && LockedStep(s, op, live, out, s')
    ensures s'.table == TableAfter(s, op)
  {
  }

  lemma ChangedTable(s: State, op: Op, live: set<ZObject>, out: Outcome, s': State)
    requires (Changes(op) || op.Free?) && op.c in s.conns && LockedStep(s, op, live, out, s')
    ensures op.Merge? ==> Valid(op.src)
    ensures s'.table == TableAfter(s, op)
  {
  }

  lemma ShiftSplits(s: State, op: Op, s': State)
    requires Valid(s.table) && op.Shift? && op.c in s.conns && s'.table == TableAfter(s, op)
    ensures Splits(s, op, s')
  {
    if s.table.order != [] {
      DropFirstEntries(s.table, 1);
      assert Front(s, op) == Entries(s.table)[..1];
    }
  }

  lemma ChunkSplits(s: State, op: Op, s': State)
    requires Valid(s.table) && op.Chunk? && op.c in s.conns && s'.table == TableAfter(s, op)
    ensures Splits(s, op, s')
  {
    var n := ChunkSize(s.table, op.n);
    DropFirstEntries(s.table, n);
    SplitAt(Entries(s.table), n, Front(s, op), Entries(s'.table), Back(s, op));
  }

  lemma SplitAt(all: seq<(Key, Content)>, n: nat, front: seq<(Key, Content)>, rest: seq<(Key, Content)>,
                back: seq<(Key, Content)>)
    requires n <= |all| && front == all[..n] && rest == all[n..] && back == []
    ensures all == front + rest + back
  {
  }

  lemma PopSplits(s: State, op: Op, s': State)
    requires Valid(s.table) && op.Pop? && op.c in s.conns && s'.table == TableAfter(s, op)
    ensures Splits(s, op, s')
  {
    if s.table.order != [] {
      DropLastEntries(s.table);
    }
  }

  lemma StepSplits(s: State, op: Op, live: set<ZObject>, out: Outcome, s': State)
    requires Valid(s.table) && Next(s, op, live, out, s') && !Changes(op)
    ensures Splits(s, op, s')
  {
    NextTable(s, op, live, out, s');
    TableSplits(s, op, s');
  }

  lemma TableSplits(s: State, op: Op, s': State)
    requires Valid(s.table) && (op.Connect? || op.c in s.conns) && !Changes(op) && s'.table == TableAfter(s, op)
    ensures Splits(s, op, s')
  {
    if op.Shift? {
      ShiftSplits(s, op, s');
    } else if op.Chunk? {
      ChunkSplits(s, op, s');
    } else if op.Pop? {
      PopSplits(s, op, s');
    } else if op.Free? {
      assert Meaning(s'.table) == Meaning(s.table);
      SameEntries(s.table, s'.table);
    }
  }

  // What a whole run hands out: from the front in order, from the back latest first.
  ghost function Fronts(ss: seq<State>, es: seq<Event>): seq<(Key, Content)>
    requires |ss| == |es| + 1 && forall i :: 0 <= i < |ss| ==> Valid(ss[i].table)
    decreases |es|
  {
    if es == [] then []
    else Fronts(ss[..|es|], es[..|es| - 1]) + Front(ss[|es| - 1], es[|es| - 1].op)
  }

  ghost function Backs(ss: seq<State>, es: seq<Event>): seq<(Key, Content)>
    requires |ss| == |es| + 1 && forall i :: 0 <= i < |ss| ==> Valid(ss[i].table)
    decreases |es|
  {
    if es == [] then []
    else Back(ss[|es| - 1], es[|es| - 1].op) + Backs(ss[..|es|], es[..|es| - 1])
  }

  lemma {:induction false} SplitsCompose(ss: seq<State>, es: seq<Event>)
    requires |ss| == |es| + 1 && Valid(ss[0].table)
    requires forall i :: 0 <= i < |es| ==> Splits(ss[i], es[i].op, ss[i + 1])
    ensures forall i :: 0 <= i < |ss| ==> Valid(ss[i].table)
    ensures Entries(ss[0].table) == Fronts(ss, es) + Entries(ss[|es|].table) + Backs(ss, es)
    decreases |es|
  {
    if es != [] {
      var n := |es| - 1;
      var ss', es' := ss[..n + 1], es[..n];
      SplitsCompose(ss', es');
      assert ss'[n] == ss[n] && ss'[0] == ss[0];
      assert Splits(ss[n], es[n].op, ss[n + 1]);
      forall i | 0 <= i < |ss|
        ensures Valid(ss[i].table)
      {
        assert i <= n ==> ss'[i] == ss[i];
      }
      Regroup(Fronts(ss', es'), Front(ss[n], es[n].op), Entries(ss[n + 1].table), Back(ss[n], es[n].op),
              Backs(ss', es'));
    }
  }

  lemma Regroup<T>(a: seq<T>, b: seq<T>, c: seq<T>, d: seq<T>, e: seq<T>)
    ensures a + (b + c + d) + e == (a + b) + c + (d + e)
  {
  }

  lemma {:induction false} RunValid(ss: seq<State>, es: seq<Event>)
    requires Run(ss, es) && Valid(ss[0].table)
    requires forall i :: 0 <= i < |es| ==> !Changes(es[i].op)
    ensures forall i :: 0 <= i < |es| ==> Splits(ss[i], es[i].op, ss[i + 1])
    decreases |es|
  {
    if es != [] {
      var n := |es| - 1;
      RunPrefix(ss, es);
      RunValid(ss[..n + 1], es[..n]);
      forall i | 0 <= i < n
        ensures Splits(ss[i], es[i].op, ss[i + 1])
      {
        assert ss[..n + 1][i] == ss[i] && ss[..n + 1][i + 1] == ss[i + 1] && es[..n][i] == es[i];
      }
      assert n > 0 ==> Splits(ss[n - 1], es[n - 1].op, ss[n]);
      StepSplits(ss[n], es[n].op, es[n].live, es[n].out, ss[n + 1]);
    }
  }

  /**
   Over every run that only takes: front removals in order, then what remains, then back
   removals in reverse, is exactly the original table.  No entry is lost or handed out twice.
   */
  lemma RunDelivers(ss: seq<State>, es: seq<Event>)
    requires Run(ss, es) && Valid(ss[0].table)
    requires forall i :: 0 <= i < |es| ==> !Changes(es[i].op)
    ensures forall i :: 0 <= i < |ss| ==> Valid(ss[i].table)
    ensures Entries(ss[0].table) == Fronts(ss, es) + Entries(ss[|es|].table) + Backs(ss, es)
  {
    RunValid(ss, es);
    SplitsCompose(ss, es);
  }

  /** The key handed out at one place of a run is handed out nowhere else, and does not remain. */
  lemma DeliveredOnce(t: Table<Slot>, fronts: seq<(Key, Content)>, rest: seq<(Key, Content)>,
                      backs: seq<(Key, Content)>, i: nat, j: nat)
    requires Valid(t) && Entries(t) == fronts + rest + backs
    requires i < j < |fronts + rest + backs|
    ensures (fronts + rest + backs)[i].0 != (fronts + rest + backs)[j].0
  {
    assert t.order[i] != t.order[j];
  }

  /** The caller of a taking operation obtains the content of exactly the entries taken. */
  lemma TakersObtain(s: State, op: Op, live: set<ZObject>, out: Outcome, s': State)
    requires Valid(s.table) && Next(s, op, live, out, s') && Takes(op)
    ensures op.Chunk? ==>
              && out.Many? && |out.entries| == |Front(s, op)|
              && forall i :: 0 <= i < |out.entries| ==>
                   && out.entries[i].0 == Front(s, op)[i].0
                   && Obtains(s.table, live, out.entries[i].0, out.entries[i].1)
    ensures !op.Chunk? ==>
              && out.Got?
              && var taken := Front(s, op) + Back(s, op);
                 if taken == [] then out.v == Scalar(Null)
                 else |taken| == 1 && Obtains(s.table, live, taken[0].0, out.v)
  {
    match op
    case Chunk(c, n) =>
      var m := ChunkSize(s.table, n);
      forall i | 0 <= i < |out.entries|
        ensures out.entries[i].0 == Front(s, op)[i].0 && Obtains(s.table, live, out.entries[i].0, out.entries[i].1)
      {
        var k := s.table.order[..m][i];
        assert k == s.table.order[i];
        RestoreContent(s.table.slots[k], s.conns[c].thread, live, out.entries[i].1);
      }
    case Shift(c) =>
      if s.table.order != [] {
        RestoreContent(s.table.slots[s.table.order[0]], s.conns[c].thread, live, out.v);
      }
    case Pop(c) =>
      if s.table.order != [] {
        RestoreContent(s.table.slots[s.table.order[|s.table.order| - 1]], s.conns[c].thread, live, out.v);
      }
  }

  /** v is the content under key k, or null because the object behind it was destroyed. */
  predicate Obtains(t: Table<Slot>, live: set<ZObject>, k: Key, v: Value) {
    && k in t.slots
    && (|| ContentOf(v) == SlotContent(t.slots[k])
        || (t.slots[k].ThreadedSlot? && t.slots[k].z !in live && v == Scalar(Null)))
  }

  // ---- With concurrent changes -------------------------------------------------

  /** The entries as a set: keys are distinct, so each occurs once. */
  function Pairs(t: Table<Slot>): set<(Key, Content)> {
    set k | k in t.slots :: (k, SlotContent(t.slots[k]))
  }

  function PairsAt(t: Table<Slot>, keys: set<Key>): set<(Key, Content)> {
    set k | k in t.slots && k in keys :: (k, SlotContent(t.slots[k]))
  }

  /** The entries that an operation puts into the table. */
  function Added(s: State, op: Op): set<(Key, Content)>
    requires op.Connect? || op.c in s.conns
  {
    match op
    case Write(c, k, v) => if Save(s.conns[c].thread, v).Some? then {(k, ContentOf(v))} else {}
    case Merge(_, src, overwrite) => PairsAt(src, Merged(s.table, src, overwrite))
    case _ => {}
  }

  /** The entries that an operation overwrites or deletes without handing them out. */
  function Discarded(s: State, op: Op): set<(Key, Content)>
    requires op.Connect? || op.c in s.conns
  {
    match op
    case Write(c, k, v) => if Save(s.conns[c].thread, v).Some? then PairsAt(s.table, {k}) else {}
    case Delete(_, k) => PairsAt(s.table, {k})
    case Merge(_, src, overwrite) => PairsAt(s.table, Merged(s.table, src, overwrite))
    case _ => {}
  }

  /** Taken plus discarded plus remaining is what was there plus what was added. */
  ghost predicate Conserves(s: State, op: Op, s': State) {
    && (op.Connect? || op.c in s.conns)
    && Valid(s.table) && Valid(s'.table)
    && multiset(Entries(s.table)) + multiset(Added(s, op))
       == multiset(Front(s, op)) + multiset(Back(s, op)) + multiset(Discarded(s, op)) + multiset(Entries(s'.table))
  }

  lemma {:induction false} DistinctCounts<T>(s: seq<T>, x: T)
    requires forall i, j :: 0 <= i < j < |s| ==> s[i] != s[j]
    ensures multiset(s)[x] == if x in s then 1 else 0
    decreases |s|
  {
    if s != [] {
      var n := |s| - 1;
      DistinctCounts(s[..n], x);
      assert s == s[..n] + [s[n]];
    }
  }

  lemma EntriesArePairs(t: Table<Slot>)
    requires Valid(t)
    ensures multiset(Entries(t)) == multiset(Pairs(t))
  {
    var es := Entries(t);
    assert forall k :: k in t.slots ==> k in KeySet(t.order);
    forall x
      ensures x in es <==> x in Pairs(t)
    {
      if x in Pairs(t) {
        var i :| 0 <= i < |t.order| && t.order[i] == x.0;
        assert es[i] == x;
      }
      if x in es {
        var i :| 0 <= i < |es| && es[i] == x;
        assert t.order[i] in KeySet(t.order);
      }
    }
    forall x
      ensures multiset(es)[x] == multiset(Pairs(t))[x]
    {
      assert forall i, j :: 0 <= i < j < |es| ==> t.order[i] != t.order[j] && es[i] != es[j];
      DistinctCounts(es, x);
    }
  }

  lemma ReplacedBags<T>(before: set<T>, removed: set<T>, added: set<T>, after: set<T>)
    requires removed <= before && (before - removed) !! added && after == (before - removed) + added
    ensures multiset(before) + multiset(added) == multiset(removed) + multiset(after)
  {
    assert multiset(before) == multiset(removed) + multiset(before - removed);
    assert multiset(after) == multiset(before - removed) + multiset(added);
  }

  /** Overwriting or removing some keys and adding entries under some of them. */
  lemma ChangedPairs(t: Table<Slot>, t': Table<Slot>, keys: set<Key>, added: set<(Key, Content)>)
    requires Valid(t) && Valid(t')
    requires forall x :: x in added ==> x.0 in keys
    requires forall k :: k !in keys ==> Lookup(t', k) == Lookup(t, k)
    requires PairsAt(t', keys) == added
    ensures multiset(Entries(t)) + multiset(added) == multiset(PairsAt(t, keys)) + multiset(Entries(t'))
  {
    EntriesArePairs(t);
    EntriesArePairs(t');
    var rest := Pairs(t) - PairsAt(t, keys);
    forall x
      ensures x in rest + added <==> x in Pairs(t')
    {
      assert Lookup(t', x.0).Some? <==> x.0 in t'.slots;
      assert Lookup(t, x.0).Some? <==> x.0 in t.slots;
    }
    ReplacedBags(Pairs(t), PairsAt(t, keys), added, Pairs(t'));
  }

  lemma WriteConserves(s: State, op: Op, s': State)
    requires Valid(s.table) && op.Write? && op.c in s.conns && Writable(op) && s'.table == TableAfter(s, op)
    ensures Conserves(s, op, s')
  {
    if Save(s.conns[op.c].thread, op.v).Some? {
      var slot := Save(s.conns[op.c].thread, op.v).value;
      SaveContent(s.conns[op.c].thread, op.v);
      PutValid(s.table, op.k, slot);
      assert PairsAt(s'.table, {op.k}) == {(op.k, ContentOf(op.v))};
      ChangedPairs(s.table, s'.table, {op.k}, Added(s, op));
    }
  }

  lemma DeleteConserves(s: State, op: Op, s': State)
    requires Valid(s.table) && op.Delete? && op.c in s.conns && s'.table == TableAfter(s, op)
    ensures Conserves(s, op, s')
  {
    DelValid(s.table, op.k);
    ChangedPairs(s.table, s'.table, {op.k}, {});
  }

  lemma MergeConserves(s: State, op: Op, s': State)
    requires Valid(s.table) && op.Merge? && op.c in s.conns && Valid(op.src) && s'.table == TableAfter(s, op)
    ensures Conserves(s, op, s')
  {
    var keys := Merged(s.table, op.src, op.overwrite);
    MergeSlots(s.table, op.src, op.overwrite);
    forall x
      ensures x in PairsAt(s'.table, keys) <==> x in PairsAt(op.src, keys)
    {
      assert Lookup(s'.table, x.0) == if x.0 in keys then Some(HardCopy(op.src.slots[x.0])) else Lookup(s.table, x.0);
    }
    ChangedPairs(s.table, s'.table, keys, PairsAt(op.src, keys));
  }

  lemma StepConserves(s: State, e: Event, s': State)
    requires Valid(s.table) && Next(s, e.op, e.live, e.out, s') && Writable(e.op)
    ensures Conserves(s, e.op, s')
  {
    NextTable(s, e.op, e.live, e.out, s');
    TableConserves(s, e.op, s');
  }

  lemma TableConserves(s: State, op: Op, s': State)
    requires Valid(s.table) && (op.Connect? || op.c in s.conns) && (op.Merge? ==> Valid(op.src)) && Writable(op)
    requires s'.table == TableAfter(s, op)
    ensures Conserves(s, op, s')
  {
    match op
    case Write(_, _, _) => WriteConserves(s, op, s');
    case Delete(_, _) => DeleteConserves(s, op, s');
    case Merge(_, _, _) => MergeConserves(s, op, s');
    case _ => TableSplits(s, op, s');
  }

  // What a whole run takes, discards and adds.
  ghost function Taken(ss: seq<State>, es: seq<Event>): multiset<(Key, Content)>
    requires Accountable(ss, es)
    decreases |es|
  {
    if es == [] then multiset{}
    else
      var n := |es| - 1;
      AccountablePrefix(ss, es);
      Taken(ss[..n + 1], es[..n]) + multiset(Front(ss[n], es[n].op)) + multiset(Back(ss[n], es[n].op))
  }

  ghost function DiscardedAll(ss: seq<State>, es: seq<Event>): multiset<(Key, Content)>
    requires Accountable(ss, es)
    decreases |es|
  {
    if es == [] then multiset{}
    else
      var n := |es| - 1;
      AccountablePrefix(ss, es);
      DiscardedAll(ss[..n + 1], es[..n]) + multiset(Discarded(ss[n], es[n].op))
  }

  ghost function AddedAll(ss: seq<State>, es: seq<Event>): multiset<(Key, Content)>
    requires Accountable(ss, es)
    decreases |es|
  {
    if es == [] then multiset{}
    else
      var n := |es| - 1;
      AccountablePrefix(ss, es);
      AddedAll(ss[..n + 1], es[..n]) + multiset(Added(ss[n], es[n].op))
  }

  ghost predicate Accountable(ss: seq<State>, es: seq<Event>) {
    && |ss| == |es| + 1
    && (forall i :: 0 <= i < |ss| ==> Valid(ss[i].table))
    && (forall i :: 0 <= i < |es| ==> es[i].op.Connect? || es[i].op.c in ss[i].conns)
  }

  lemma AccountablePrefix(ss: seq<State>, es: seq<Event>)
    requires Accountable(ss, es) && es != []
    ensures Accountable(ss[..|es|], es[..|es| - 1])
  {
  }

  lemma RegroupBags<T>(first: multiset<T>, added: multiset<T>, taken: multiset<T>, gone: multiset<T>, mid: multiset<T>,
                       more: multiset<T>, front: multiset<T>, back: multiset<T>, dropped: multiset<T>,
                       last: multiset<T>)
    requires first + added == taken + gone + mid
    requires mid + more == front + back + dropped + last
    ensures first + (added + more) == (taken + front + back) + (gone + dropped) + last
  {
    forall x: T
      ensures (first + (added + more))[x] == ((taken + front + back) + (gone + dropped) + last)[x]
    {
      assert (first + added)[x] == (taken + gone + mid)[x];
      assert (mid + more)[x] == (front + back + dropped + last)[x];
    }
  }

  lemma {:induction false} ConservesCompose(ss: seq<State>, es: seq<Event>)
    requires Accountable(ss, es)
    requires forall i :: 0 <= i < |es| ==> Conserves(ss[i], es[i].op, ss[i + 1])
    ensures multiset(Entries(ss[0].table)) + AddedAll(ss, es)
         == Taken(ss, es) + DiscardedAll(ss, es) + multiset(Entries(ss[|es|].table))
    decreases |es|
  {
    if es != [] {
      var n := |es| - 1;
      var ss', es' := ss[..n + 1], es[..n];
      AccountablePrefix(ss, es);
      ConservesCompose(ss', es');
      assert Conserves(ss[n], es[n].op, ss[n + 1]);
      RegroupBags(multiset(Entries(ss[0].table)), AddedAll(ss', es'), Taken(ss', es'), DiscardedAll(ss', es'),
                  multiset(Entries(ss[n].table)), multiset(Added(ss[n], es[n].op)), multiset(Front(ss[n], es[n].op)),
                  multiset(Back(ss[n], es[n].op)), multiset(Discarded(ss[n], es[n].op)),
                  multiset(Entries(ss[n + 1].table)));
    }
  }

  lemma {:induction false} RunStepsConserve(ss: seq<State>, es: seq<Event>)
    requires Run(ss, es) && Valid(ss[0].table)
    requires forall i :: 0 <= i < |es| ==> Writable(es[i].op)
    ensures forall i :: 0 <= i < |es| ==> Conserves(ss[i], es[i].op, ss[i + 1])
    decreases |es|
  {
    if es != [] {
      var n := |es| - 1;
      RunPrefix(ss, es);
      RunStepsConserve(ss[..n + 1], es[..n]);
      forall i | 0 <= i < n
        ensures Conserves(ss[i], es[i].op, ss[i + 1])
      {
        assert ss[..n + 1][i] == ss[i] && ss[..n + 1][i + 1] == ss[i + 1] && es[..n][i] == es[i];
      }
      assert n > 0 ==> Conserves(ss[n - 1], es[n - 1].op, ss[n]);
      StepConserves(ss[n], es[n], ss[n + 1]);
    }
  }

  /**
   Conservation over every run of all operations: what was taken, what was overwritten or deleted,
   and what remains are together what was there and what was added.
   */
  lemma RunConserves(ss: seq<State>, es: seq<Event>)
    requires Run(ss, es) && Valid(ss[0].table)
    requires forall i :: 0 <= i < |es| ==> Writable(es[i].op)
    ensures Accountable(ss, es)
    ensures multiset(Entries(ss[0].table)) + AddedAll(ss, es)
         == Taken(ss, es) + DiscardedAll(ss, es) + multiset(Entries(ss[|es|].table))
  {
    RunStepsConserve(ss, es);
    forall i | 0 <= i < |ss|
      ensures Valid(ss[i].table)
    {
      assert i > 0 ==> Conserves(ss[i - 1], es[i - 1].op, ss[i]);
    }
    forall i | 0 <= i < |es|
      ensures es[i].op.Connect? || es[i].op.c in ss[i].conns
    {
      assert Conserves(ss[i], es[i].op, ss[i + 1]);
    }
    ConservesCompose(ss, es);
  }
}
