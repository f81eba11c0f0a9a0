/**
 Converting nested PHP arrays to threaded arrays and merging arrays, flat or threaded,
 into a shared table (ThreadedArray::fromArray, ThreadedArray::merge).
 */
module ThreadedArrays {
  import opened Wrappers
  import opened OrderedTable
  import opened Store
  import opened StoreCoherence
  import StoreLaws

  /** A PHP array value: leaves, and arrays nested to any depth. */
  datatype Php = Leaf(v: Value) | Arr(entries: seq<(Key, Php)>)

  predicate DistinctKeys(es: seq<(Key, Php)>) {
    forall i, j :: 0 <= i < j < |es| ==> es[i].0 != es[j].0
  }

  /** PHP arrays have distinct keys at every level. */
  predicate WellFormed(v: Php) {
    match v
    case Leaf(x) => OriginalOk(Core(x))
    case Arr(es) => DistinctKeys(es) && forall i :: 0 <= i < |es| ==> WellFormed(es[i].1)
  }

  /** Values that a write accepts.  Anything else raises an error and is skipped. */
  predicate Supported(owner: ThreadId, v: Php) {
    v.Arr? || Save(owner, v.v).Some?
  }

  function Keys(es: seq<(Key, Php)>): seq<Key> {
    seq(|es|, i requires 0 <= i < |es| => es[i].0)
  }

  function Accepted(owner: ThreadId, es: seq<(Key, Php)>): seq<(Key, Php)> {
    if es == [] then []
    else
      var n := |es| - 1;
      Accepted(owner, es[..n]) + if Supported(owner, es[n].1) then [es[n]] else []
  }

  // ---- What a slot stands for --------------------------------------------------

  type Tables = map<nat, Table<Slot>>

  /** Slot s of the table store stands for v; every table it uses lies in [lo, hi). */
  predicate Represents(ts: Tables, lo: nat, hi: nat, owner: ThreadId, s: Slot, v: Php)
    decreases v, 1
  {
    match v
    case Leaf(x) => Save(owner, x) == Some(s)
    case Arr(es) =>
      && s.ThreadedSlot?
      && lo <= s.z.shared < hi
      && s.z.shared in ts
      && ts[s.z.shared].order == Keys(Accepted(owner, es))
      && forall i :: 0 <= i < |es| && Supported(owner, es[i].1) ==>
           RepresentsAt(ts, lo, hi, owner, ts[s.z.shared], es, i)
  }

  predicate RepresentsAt(ts: Tables, lo: nat, hi: nat, owner: ThreadId, t: Table<Slot>, es: seq<(Key, Php)>, i: nat)
    requires i < |es|
    decreases es[i].1, 2
  {
    es[i].0 in t.slots && Represents(ts, lo, hi, owner, t.slots[es[i].0], es[i].1)
  }

  /** Only tables in the range matter. */
  lemma {:induction false} RepresentsFrame(ts: Tables, ts': Tables, lo: nat, hi: nat, lo': nat, hi': nat,
                                           owner: ThreadId, s: Slot, v: Php)
    requires Represents(ts, lo, hi, owner, s, v)
    requires lo' <= lo && hi <= hi'
    requires forall id :: lo <= id < hi && id in ts ==> id in ts' && ts'[id] == ts[id]
    ensures Represents(ts', lo', hi', owner, s, v)
    decreases v
  {
    if v.Arr? {
      var t := ts[s.z.shared];
      forall i | 0 <= i < |v.entries| && Supported(owner, v.entries[i].1)
        ensures RepresentsAt(ts', lo', hi', owner, t, v.entries, i)
      {
        assert RepresentsAt(ts, lo, hi, owner, t, v.entries, i);
        RepresentsFrame(ts, ts', lo, hi, lo', hi', owner, t.slots[v.entries[i].0], v.entries[i].1);
      }
    }
  }

  // ---- The conversion, as it allocates and fills tables -------------------------

  /** The order of a table after entries were written to it. */
  function Extend(order: seq<Key>, owner: ThreadId, es: seq<(Key, Php)>): seq<Key> {
    if es == [] then order
    else
      var n := |es| - 1;
      var r := Extend(order, owner, es[..n]);
      if Supported(owner, es[n].1) && es[n].0 !in r then r + [es[n].0] else r
  }

  class Heap {
    const owner: ThreadId
    var tables: Tables
    var next: nat

    constructor (owner: ThreadId)
      ensures Valid() && this.owner == owner && tables == map[] && next == 0
    {
      this.owner, tables, next := owner, map[], 0;
    }

    ghost predicate Valid()
      reads this
    {
      forall id :: id in tables ==> id < next && OrderedTable.Valid(tables[id])
    }

    /** object_init_ex of a threaded array: a fresh, empty table. */
    method Allocate() returns (id: nat)
      requires Valid()
      modifies this
      ensures Valid() && id == old(next) && next == id + 1
      ensures tables == old(tables)[id := Table([], map[])]
    {
      id := next;
      tables := tables[id := Table([], map[])];
      next := next + 1;
    }

    /** pthreads_store_write with arrays coerced to threaded arrays. */
    method Write(dst: nat, k: Key, v: Php)
      requires Valid() && dst in tables && WellFormed(v)
      modifies this
      ensures Valid() && old(next) <= next && dst in tables
      ensures forall id :: id != dst && id in old(tables) ==> id in tables && tables[id] == old(tables)[id]
      ensures if Supported(owner, v) then WrittenTo(old(tables), old(next), tables, next, owner, dst, k, v)
              else tables[dst] == old(tables)[dst]
      decreases v, 1
    {
      match v
      case Arr(es) =>
        var id := Allocate();
        Merge(id, es, true);
        var slot := ThreadedSlot(ZObject(id, id, owner));
        ghost var built := tables;
        FreshRepresents(tables, next, owner, id, es);
        PutValid(tables[dst], k, slot);
        tables := tables[dst := Put(tables[dst], k, slot)];
        RepresentsFrame(built, tables, id, next, id, next, owner, slot, v);
      case Leaf(x) =>
        var slot := Save(owner, x);
        if slot.Some? {
          PutValid(tables[dst], k, slot.value);
          tables := tables[dst := Put(tables[dst], k, slot.value)];
        }
    }

    /** pthreads_store_merge from an array. */
    method Merge(dst: nat, es: seq<(Key, Php)>, overwrite: bool)
      requires Valid() && dst in tables && WellFormed(Arr(es))
      modifies this
      ensures Valid() && old(next) <= next && dst in tables
      ensures forall id :: id != dst && id in old(tables) ==> id in tables && tables[id] == old(tables)[id]
      ensures MergedSoFar(tables, next, owner, dst, old(tables)[dst], old(next), es, |es|, overwrite)
      decreases es, 1
    {
      var i := 0;
      while i < |es|
        invariant i <= |es|
        invariant Valid() && old(next) <= next && dst in tables
        invariant forall id :: id != dst && id in old(tables) ==> id in tables && tables[id] == old(tables)[id]
        invariant MergedSoFar(tables, next, owner, dst, old(tables)[dst], old(next), es, i, overwrite)
      {
        MergeOne(dst, es, i, overwrite, old(tables)[dst], old(next));
        i := i + 1;
      }
    }

    /** ThreadedArray::fromArray: the result stands for the whole nested array. */
    method FromArray(es: seq<(Key, Php)>) returns (id: nat)
      requires Valid() && WellFormed(Arr(es))
      modifies this
      ensures Valid() && id == old(next) && id < next
      ensures forall other :: other in old(tables) ==> other in tables && tables[other] == old(tables)[other]
      ensures Represents(tables, id, next, owner, ThreadedSlot(ZObject(id, id, owner)), Arr(es))
    {
      id := Allocate();
      Merge(id, es, true);
      FreshRepresents(tables, next, owner, id, es);
    }

    /** One round of the merge loop. */
    method MergeOne(dst: nat, es: seq<(Key, Php)>, i: nat, overwrite: bool, ghost t: Table<Slot>, ghost base: nat)
      requires Valid() && dst in tables && dst < base <= next && i < |es| && WellFormed(Arr(es))
      requires MergedSoFar(tables, next, owner, dst, t, base, es, i, overwrite)
      modifies this
      ensures Valid() && old(next) <= next && dst in tables
      ensures forall id :: id != dst && id in old(tables) ==> id in tables && tables[id] == old(tables)[id]
      ensures MergedSoFar(tables, next, owner, dst, t, base, es, i + 1, overwrite)
      decreases es, 0
    {
      if overwrite || es[i].0 !in tables[dst].slots {
        Write(dst, es[i].0, es[i].1);
      }
      MergeRound(old(tables), old(next), tables, next, owner, dst, t, base, es, i, overwrite);
    }
  }

  /** The first n entries of es have been merged into table dst, which was t before. */
  ghost predicate MergedSoFar(ts: Tables, next: nat, owner: ThreadId, dst: nat, t: Table<Slot>, base: nat,
                              es: seq<(Key, Php)>, n: nat, overwrite: bool)
    requires n <= |es|
  {
    && dst in ts
    && ts[dst].order == Extend(t.order, owner, es[..n])
    && (forall i :: 0 <= i < n ==> EntryMerged(ts, next, owner, dst, t, base, es, i, overwrite))
    && (forall k :: k !in Keys(es[..n]) ==> Lookup(ts[dst], k) == Lookup(t, k))
  }

  /** What a merge leaves under the key of entry i: the new value, or what was there before. */
  ghost predicate EntryMerged(ts: Tables, next: nat, owner: ThreadId, dst: nat, t: Table<Slot>, base: nat,
                         es: seq<(Key, Php)>, i: nat, overwrite: bool)
    requires i < |es| && dst in ts
  {
    if Supported(owner, es[i].1) && (overwrite || es[i].0 !in t.slots)
    then RepresentsAt(ts, base, next, owner, ts[dst], es, i)
    else Lookup(ts[dst], es[i].0) == Lookup(t, es[i].0)
  }

  /** A merge into a fresh table builds a representation of the array. */
  lemma FreshRepresents(ts: Tables, next: nat, owner: ThreadId, id: nat, es: seq<(Key, Php)>)
    requires id < next && DistinctKeys(es)
    requires MergedSoFar(ts, next, owner, id, Table([], map[]), id + 1, es, |es|, true)
    ensures Represents(ts, id, next, owner, ThreadedSlot(ZObject(id, id, owner)), Arr(es))
  {
    assert es[..|es|] == es;
    ExtendFresh(owner, es);
    forall i | 0 <= i < |es| && Supported(owner, es[i].1)
      ensures RepresentsAt(ts, id, next, owner, ts[id], es, i)
    {
      assert EntryMerged(ts, next, owner, id, Table([], map[]), id + 1, es, i, true);
      RepresentsFrame(ts, ts, id + 1, next, id, next, owner, ts[id].slots[es[i].0], es[i].1);
    }
  }

  /** Entry i was skipped, written or refused: the loop has made one more round. */
  lemma MergeRound(ts: Tables, next: nat, ts': Tables, next': nat, owner: ThreadId, dst: nat, t: Table<Slot>, base: nat,
                   es: seq<(Key, Php)>, i: nat, overwrite: bool)
    requires i < |es| && DistinctKeys(es) && dst < base <= next <= next'
    requires MergedSoFar(ts, next, owner, dst, t, base, es, i, overwrite)
    requires OrderedTable.Valid(ts[dst]) && dst in ts'
    requires forall id :: id != dst && id in ts ==> id in ts' && ts'[id] == ts[id]
    requires if (overwrite || es[i].0 !in ts[dst].slots) && Supported(owner, es[i].1)
             then WrittenTo(ts, next, ts', next', owner, dst, es[i].0, es[i].1)
             else ts'[dst] == ts[dst]
    ensures MergedSoFar(ts', next', owner, dst, t, base, es, i + 1, overwrite)
  {
    var (k, v) := es[i];
    KeysStep(es, i);
    OrderKeys(ts[dst]);
    assert es[..i + 1][..i] == es[..i];
    assert Lookup(ts[dst], k) == Lookup(t, k);
    assert forall j :: j != k ==> Lookup(ts'[dst], j) == Lookup(ts[dst], j);
    forall j | 0 <= j < i
      ensures EntryMerged(ts', next', owner, dst, t, base, es, j, overwrite)
    {
      MergedKept(ts, next, ts', next', owner, dst, t, base, es, i, j, overwrite);
    }
    if (overwrite || k !in ts[dst].slots) && Supported(owner, v) {
      var s :| ts'[dst] == Put(ts[dst], k, s) && Represents(ts', next, next', owner, s, v);
      RepresentsFrame(ts', ts', next, next', base, next', owner, s, v);
    }
    assert EntryMerged(ts', next', owner, dst, t, base, es, i, overwrite);
  }

  /** A supported value has been put under k, using only tables allocated since. */
  ghost predicate WrittenTo(ts: Tables, next: nat, ts': Tables, next': nat, owner: ThreadId, dst: nat, k: Key, v: Php)
    requires dst in ts && dst in ts'
  {
    exists s :: ts'[dst] == Put(ts[dst], k, s) && Represents(ts', next, next', owner, s, v)
  }

  lemma MergedKept(ts: Tables, next: nat, ts': Tables, next': nat, owner: ThreadId, dst: nat, t: Table<Slot>, base: nat,
                   es: seq<(Key, Php)>, i: nat, j: nat, overwrite: bool)
    requires j < i < |es| && DistinctKeys(es) && dst < base && next <= next'
    requires dst in ts && dst in ts' && EntryMerged(ts, next, owner, dst, t, base, es, j, overwrite)
    requires forall id :: id != dst && id in ts ==> id in ts' && ts'[id] == ts[id]
    requires forall k :: k != es[i].0 ==> Lookup(ts'[dst], k) == Lookup(ts[dst], k)
    ensures EntryMerged(ts', next', owner, dst, t, base, es, j, overwrite)
  {
    var k := es[j].0;
    assert Lookup(ts'[dst], k) == Lookup(ts[dst], k);
    if Supported(owner, es[j].1) && (overwrite || k !in t.slots) {
      RepresentsFrame(ts, ts', base, next, base, next', owner, ts'[dst].slots[k], es[j].1);
    }
  }

  lemma KeysStep(es: seq<(Key, Php)>, i: nat)
    requires i < |es| && DistinctKeys(es)
    ensures es[i].0 !in Keys(es[..i])
    ensures forall k :: k in Keys(es[..i + 1]) <==> k in Keys(es[..i]) || k == es[i].0
  {
    var a, b := Keys(es[..i]), Keys(es[..i + 1]);
    assert forall j :: 0 <= j < i ==> a[j] == es[j].0;
    assert b == a + [es[i].0];
  }

  lemma OrderKeys(t: Table<Slot>)
    requires OrderedTable.Valid(t)
    ensures forall k :: k in t.order <==> k in t.slots
  {
    assert forall k :: k in t.order <==> k in KeySet(t.order);
  }

  lemma {:induction false} ExtendFresh(owner: ThreadId, es: seq<(Key, Php)>)
    requires DistinctKeys(es)
    ensures Extend([], owner, es) == Keys(Accepted(owner, es))
    ensures forall k :: k in Extend([], owner, es) ==> k in Keys(es)
  {
    if es != [] {
      var n := |es| - 1;
      ExtendFresh(owner, es[..n]);
      assert forall i :: 0 <= i < n ==> Keys(es[..n])[i] == Keys(es)[i];
      assert Keys(es)[n] == es[n].0;
      assert es[n].0 !in Keys(es[..n]);
    }
  }

  // ---- Reading the result back ---------------------------------------------------

  /** Nested contents, without any sharing. */
  datatype Plain = Atom(c: Content) | Nested(entries: seq<(Key, Plain)>)

  /** The original array as plain contents, without what a write refuses. */
  function PlainOf(owner: ThreadId, v: Php): Plain
    decreases v, 0
  {
    match v
    case Leaf(x) => Atom(ContentOf(x))
    case Arr(es) => Nested(PlainEntries(owner, v, |es|))
  }

  function PlainEntries(owner: ThreadId, v: Php, n: nat): seq<(Key, Plain)>
    requires v.Arr? && n <= |v.entries|
    decreases v, 0, n
  {
    if n == 0 then []
    else
      var e := v.entries[n - 1];
      PlainEntries(owner, v, n - 1) + if Supported(owner, e.1) then [(e.0, PlainOf(owner, e.1))] else []
  }

  function Depth(v: Php): nat
    decreases v, 0
  {
    match v
    case Leaf(_) => 0
    case Arr(es) => 1 + DepthBelow(v, |es|)
  }

  function DepthBelow(v: Php, n: nat): nat
    requires v.Arr? && n <= |v.entries|
    decreases v, 0, n
  {
    if n == 0 then 0
    else
      var a, b := DepthBelow(v, n - 1), Depth(v.entries[n - 1].1);
      if a < b then b else a
  }

  lemma {:induction false} DepthOfEntry(v: Php, n: nat, i: nat)
    requires v.Arr? && i < n <= |v.entries|
    ensures Depth(v.entries[i].1) <= DepthBelow(v, n)
    decreases n
  {
    if i < n - 1 {
      DepthOfEntry(v, n - 1, i);
    }
  }

  /** Reads a slot, following nested threaded arrays (tables numbered `base` and up) to the given depth. */
  function Read(ts: Tables, base: nat, s: Slot, depth: nat): Plain
    decreases depth, 0
  {
    if s.ThreadedSlot? && base <= s.z.shared && s.z.shared in ts && depth > 0
    then Nested(ReadEntries(ts, base, ts[s.z.shared], |ts[s.z.shared].order|, depth - 1))
    else Atom(SlotContent(s))
  }

  /** The first n entries of a table, in order. */
  function ReadEntries(ts: Tables, base: nat, t: Table<Slot>, n: nat, depth: nat): seq<(Key, Plain)>
    requires n <= |t.order|
    decreases depth, 1, n
  {
    if n == 0 then []
    else
      var k := t.order[n - 1];
      ReadEntries(ts, base, t, n - 1, depth) + if k in t.slots then [(k, Read(ts, base, t.slots[k], depth))] else []
  }

  /** Objects that are leaves of the array existed before it was converted. */
  predicate LeavesBelow(owner: ThreadId, base: nat, v: Php) {
    match v
    case Leaf(x) =>
      var s := Save(owner, x);
      s.Some? && s.value.ThreadedSlot? ==> s.value.z.shared < base
    case Arr(es) => forall i :: 0 <= i < |es| ==> LeavesBelow(owner, base, es[i].1)
  }

  lemma {:induction false} AcceptedPrefix(owner: ThreadId, es: seq<(Key, Php)>, n: nat)
    requires n <= |es|
    ensures |Accepted(owner, es[..n])| <= |Accepted(owner, es)|
    ensures Accepted(owner, es)[..|Accepted(owner, es[..n])|] == Accepted(owner, es[..n])
    decreases |es|
  {
    if n == |es| {
      assert es[..n] == es;
    } else {
      var m := |es| - 1;
      AcceptedPrefix(owner, es[..m], n);
      assert es[..m][..n] == es[..n];
      assert Accepted(owner, es) == Accepted(owner, es[..m]) + if Supported(owner, es[m].1) then [es[m]] else [];
    }
  }

  /** What was converted reads back as it was: same keys, same order, same values, at every depth. */
  lemma {:induction false} ReadsBack(ts: Tables, lo: nat, hi: nat, owner: ThreadId, s: Slot, v: Php, base: nat,
                                     depth: nat)
    requires Represents(ts, lo, hi, owner, s, v) && WellFormed(v)
    requires base <= lo && LeavesBelow(owner, base, v) && Depth(v) <= depth
    ensures Read(ts, base, s, depth) == PlainOf(owner, v)
    decreases v, 1
  {
    match v
    case Leaf(x) => SaveContent(owner, x);
    case Arr(es) =>
      assert es[..|es|] == es;
      EntriesReadBack(ts, lo, hi, owner, s, v, base, depth - 1, |es|);
      assert |Keys(Accepted(owner, es))| == |Accepted(owner, es)|;
  }

  lemma {:induction false} EntriesReadBack(ts: Tables, lo: nat, hi: nat, owner: ThreadId, s: Slot, v: Php, base: nat,
                                           depth: nat, n: nat)
    requires v.Arr? && n <= |v.entries| && Represents(ts, lo, hi, owner, s, v) && WellFormed(v)
    requires base <= lo && LeavesBelow(owner, base, v) && Depth(v) <= depth + 1
    ensures var t := ts[s.z.shared];
            var m := |Accepted(owner, v.entries[..n])|;
            m <= |t.order| && ReadEntries(ts, base, t, m, depth) == PlainEntries(owner, v, n)
    decreases v, 0, n
  {
    var t := ts[s.z.shared];
    var es := v.entries;
    AcceptedPrefix(owner, es, n);
    if n > 0 {
      EntriesReadBack(ts, lo, hi, owner, s, v, base, depth, n - 1);
      assert es[..n][..n - 1] == es[..n - 1] && es[..n][n - 1] == es[n - 1];
      if Supported(owner, es[n - 1].1) {
        EntryReadsBack(ts, lo, hi, owner, s, v, base, depth, n);
      }
    }
  }

  lemma {:induction false} EntryReadsBack(ts: Tables, lo: nat, hi: nat, owner: ThreadId, s: Slot, v: Php, base: nat,
                                          depth: nat, n: nat)
    requires v.Arr? && 0 < n <= |v.entries| && Represents(ts, lo, hi, owner, s, v) && WellFormed(v)
    requires base <= lo && LeavesBelow(owner, base, v) && Depth(v) <= depth + 1
    requires Supported(owner, v.entries[n - 1].1)
    ensures var t := ts[s.z.shared];
            var (k, e) := v.entries[n - 1];
            var m := |Accepted(owner, v.entries[..n])|;
            && 0 < m <= |t.order| && t.order[m - 1] == k && k in t.slots
            && Accepted(owner, v.entries[..n]) == Accepted(owner, v.entries[..n - 1]) + [v.entries[n - 1]]
            && Read(ts, base, t.slots[k], depth) == PlainOf(owner, e)
    decreases v, 0, 0
  {
    var t := ts[s.z.shared];
    var es := v.entries;
    AcceptedPrefix(owner, es, n);
    assert es[..n][..n - 1] == es[..n - 1] && es[..n][n - 1] == es[n - 1];
    var m := |Accepted(owner, es[..n])|;
    assert Accepted(owner, es)[m - 1] == Accepted(owner, es[..n])[m - 1] == es[n - 1];
    assert t.order[m - 1] == es[n - 1].0;
    assert RepresentsAt(ts, lo, hi, owner, t, es, n - 1);
    DepthOfEntry(v, |es|, n - 1);
    ReadsBack(ts, lo, hi, owner, t.slots[es[n - 1].0], es[n - 1].1, base, depth);
  }

  /** Every leaf can be stored: it is not, and does not refer to, something else, nor a simple value. */
  predicate Storable(v: Php) {
    match v
    case Leaf(x) => !Core(x).Unsupported? && !(x.Reference? && Core(x).Scalar?)
    case Arr(es) => forall i :: 0 <= i < |es| ==> Storable(es[i].1)
  }

  /** The original array as plain contents, with nothing left out. */
  function Whole(v: Php): Plain {
    match v
    case Leaf(x) => Atom(ContentOf(x))
    case Arr(es) => Nested(seq(|es|, i requires 0 <= i < |es| => (es[i].0, Whole(es[i].1))))
  }

  lemma {:induction false} PlainIsWhole(owner: ThreadId, v: Php)
    requires Storable(v)
    ensures PlainOf(owner, v) == Whole(v) && Supported(owner, v)
    decreases v, 1
  {
    match v
    case Leaf(x) => StoreLaws.SavedAs(owner, x);
    case Arr(es) =>
      PlainIsWholeBelow(owner, v, |es|);
      assert PlainEntries(owner, v, |es|) == Whole(v).entries;
  }

  lemma {:induction false} PlainIsWholeBelow(owner: ThreadId, v: Php, n: nat)
    requires v.Arr? && Storable(v) && n <= |v.entries|
    ensures |PlainEntries(owner, v, n)| == n
    ensures forall i :: 0 <= i < n ==> PlainEntries(owner, v, n)[i] == (v.entries[i].0, Whole(v.entries[i].1))
    decreases v, 0, n
  {
    if n > 0 {
      PlainIsWholeBelow(owner, v, n - 1);
      PlainIsWhole(owner, v.entries[n - 1].1);
    }
  }

  /** So an array of values that can be stored comes back whole: all keys, in their order, all values. */
  lemma ReadsWholeBack(ts: Tables, lo: nat, hi: nat, owner: ThreadId, s: Slot, v: Php, base: nat, depth: nat)
    requires Represents(ts, lo, hi, owner, s, v) && WellFormed(v) && Storable(v)
    requires base <= lo && LeavesBelow(owner, base, v) && Depth(v) <= depth
    ensures Read(ts, base, s, depth) == Whole(v)
  {
    ReadsBack(ts, lo, hi, owner, s, v, base, depth);
    PlainIsWhole(owner, v);
  }

  // ---- Merging an array and merging a threaded array ------------------------------

  /** src holds the same keys, order and contents as the flat array es. */
  ghost predicate SameFlat(owner: ThreadId, src: Table<Slot>, es: seq<(Key, Php)>) {
    && OrderedTable.Valid(src) && src.order == Keys(es)
    && forall i :: 0 <= i < |es| ==> SameLeaf(owner, src, es[i])
  }

  predicate SameLeaf(owner: ThreadId, src: Table<Slot>, e: (Key, Php)) {
    && e.1.Leaf? && Supported(owner, e.1)
    && e.0 in src.slots && SlotContent(src.slots[e.0]) == ContentOf(e.1.v)
  }

  lemma {:induction false} MergeOrders(owner: ThreadId, t: Table<Slot>, src: Table<Slot>, es: seq<(Key, Php)>,
                                       overwrite: bool, n: nat)
    requires OrderedTable.Valid(t) && SameFlat(owner, src, es) && n <= |es|
    ensures MergeFrom(t, src, overwrite, n).order == Extend(t.order, owner, es[..n])
  {
    if n > 0 {
      MergeOrders(owner, t, src, es, overwrite, n - 1);
      MergeFromValid(t, src, overwrite, n - 1);
      var d := MergeFrom(t, src, overwrite, n - 1);
      OrderKeys(d);
      assert es[..n][..n - 1] == es[..n - 1] && es[..n][n - 1] == es[n - 1];
      assert SameLeaf(owner, src, es[n - 1]);
      assert src.order[n - 1] == es[n - 1].0;
    }
  }

  /**
   Merging a flat array into a table, as `Heap.Merge` leaves it, and merging a threaded
   array with the same contents give the same contents in the same order, whether or not
   existing keys are overwritten.
   */
  lemma FlatMergesAgree(ts: Tables, next: nat, owner: ThreadId, dst: nat, t: Table<Slot>, base: nat,
                        es: seq<(Key, Php)>, src: Table<Slot>, overwrite: bool)
    requires OrderedTable.Valid(t) && WellFormed(Arr(es)) && SameFlat(owner, src, es)
    requires MergedSoFar(ts, next, owner, dst, t, base, es, |es|, overwrite) && OrderedTable.Valid(ts[dst])
    ensures Abstract(ts[dst]) == Abstract(MergeTable(t, src, overwrite))
  {
    var r := MergeTable(t, src, overwrite);
    assert es[..|es|] == es;
    MergeOrders(owner, t, src, es, overwrite, |es|);
    MergeSlots(t, src, overwrite);
    OrderKeys(r);
    OrderKeys(ts[dst]);
    forall k
      ensures Lookup(ts[dst], k).Some? == Lookup(r, k).Some?
      ensures Lookup(r, k).Some? ==> SlotContent(Lookup(ts[dst], k).value) == SlotContent(Lookup(r, k).value)
    {
      FlatMergesAgreeAt(ts, next, owner, dst, t, base, es, src, overwrite, k);
    }
    SameMeaning(ts[dst], r);
  }

  lemma SameMeaning(a: Table<Slot>, b: Table<Slot>)
    requires forall k :: Lookup(a, k).Some? == Lookup(b, k).Some?
    requires forall k :: Lookup(b, k).Some? ==> SlotContent(Lookup(a, k).value) == SlotContent(Lookup(b, k).value)
    ensures Meaning(a) == Meaning(b)
  {
    assert forall k :: k in a.slots <==> Lookup(a, k).Some?;
    assert forall k :: k in b.slots <==> Lookup(b, k).Some?;
    assert Meaning(a).Keys == Meaning(b).Keys;
    forall k | k in b.slots
      ensures Meaning(a)[k] == Meaning(b)[k]
    {
      assert Lookup(b, k) == Some(b.slots[k]) && Lookup(a, k) == Some(a.slots[k]);
    }
  }

  lemma FlatMergesAgreeAt(ts: Tables, next: nat, owner: ThreadId, dst: nat, t: Table<Slot>, base: nat,
                          es: seq<(Key, Php)>, src: Table<Slot>, overwrite: bool, k: Key)
    requires OrderedTable.Valid(t) && WellFormed(Arr(es)) && SameFlat(owner, src, es)
    requires MergedSoFar(ts, next, owner, dst, t, base, es, |es|, overwrite)
    ensures var a, b := Lookup(ts[dst], k), Lookup(MergeTable(t, src, overwrite), k);
            a.Some? == b.Some? && (b.Some? ==> SlotContent(a.value) == SlotContent(b.value))
  {
    var r := MergeTable(t, src, overwrite);
    MergeSlots(t, src, overwrite);
    if k in Keys(es) {
      var i :| 0 <= i < |es| && Keys(es)[i] == k;
      assert SameLeaf(owner, src, es[i]);
      assert EntryMerged(ts, next, owner, dst, t, base, es, i, overwrite);
      assert WellFormed(es[i].1);
      EntryAgrees(ts, next, owner, dst, t, base, es, src, overwrite, i);
      assert Lookup(r, k) == if overwrite || k !in t.slots then Some(HardCopy(src.slots[k])) else Lookup(t, k);
    } else {
      assert es[..|es|] == es;
      OrderKeys(src);
      assert k !in Store.Merged(t, src, overwrite);
      assert Lookup(r, k) == Lookup(t, k) == Lookup(ts[dst], k);
    }
  }

  lemma EntryAgrees(ts: Tables, next: nat, owner: ThreadId, dst: nat, t: Table<Slot>, base: nat,
                    es: seq<(Key, Php)>, src: Table<Slot>, overwrite: bool, i: nat)
    requires i < |es| && dst in ts && SameLeaf(owner, src, es[i]) && WellFormed(es[i].1)
    requires EntryMerged(ts, next, owner, dst, t, base, es, i, overwrite)
    ensures var k := es[i].0;
            var a := Lookup(ts[dst], k);
            if overwrite || k !in t.slots then a.Some? && SlotContent(a.value) == SlotContent(HardCopy(src.slots[k]))
            else a == Lookup(t, k)
  {
    var (k, v) := es[i];
    SaveContent(owner, v.v);
    if overwrite || k !in t.slots {
      assert RepresentsAt(ts, base, next, owner, ts[dst], es, i);
      assert Represents(ts, base, next, owner, ts[dst].slots[k], v);
      assert Save(owner, v.v) == Some(ts[dst].slots[k]);
    }
  }
}
