/**
 Static members of a class prepared for another thread (src/prepare.c).

 A class table of static members starts with the members of its ancestors.  Preparing a class
 copies the members it declares and points every inherited slot at the slot of the same index in
 the prepared ancestor that declares it, walking down the indices and up the parent chain.
 */
module Statics {
  datatype Slot<V> = Direct(value: V) | Null | Indirect(home: ClassEntry<V>, index: nat)

  class ClassEntry<V> {
    const parent: ClassEntry?<V>
    const linked: bool
    var count: nat
    var table: array?<Slot<V>>

    constructor (parent: ClassEntry?<V>, linked: bool)
      ensures this.parent == parent && this.linked == linked && count == 0 && table == null
    {
      this.parent, this.linked, count, table := parent, linked, 0, null;
    }
  }

  // ---- Which ancestor declares a slot ---------------------------------------

  /** counts[j] is the number of slots of the j-th class of a chain, the most derived class first. */
  predicate Shrinking(counts: seq<nat>) {
    forall j :: 0 < j < |counts| ==> counts[j] <= counts[j - 1]
  }

  function Inherited(counts: seq<nat>, j: nat): nat {
    if j + 1 < |counts| then counts[j + 1] else 0
  }

  /** Class j of the chain declares slot i: it has the slot and its parent does not. */
  predicate Declares(counts: seq<nat>, j: nat, i: int) {
    j < |counts| && Inherited(counts, j) <= i < counts[j]
  }

  /** The first slot that a class in front of this chain declares itself. */
  function OwnFrom(counts: seq<nat>): nat {
    if counts == [] then 0 else counts[0]
  }

  /** Every slot of the first class is declared somewhere. */
  lemma {:induction false} SomeoneDeclares(counts: seq<nat>, k: nat, i: nat)
    requires k < |counts| && i < counts[k]
    ensures exists j :: k <= j < |counts| && Declares(counts, j, i)
    decreases |counts| - k
  {
    if i < Inherited(counts, k) {
      SomeoneDeclares(counts, k + 1, i);
    } else {
      assert Declares(counts, k, i);
    }
  }

  lemma {:induction false} CountsShrink(counts: seq<nat>, j: nat, k: nat)
    requires Shrinking(counts) && j <= k < |counts|
    ensures counts[k] <= counts[j]
    decreases k - j
  {
    if j < k {
      CountsShrink(counts, j, k - 1);
    }
  }

  lemma NothingAbove(counts: seq<nat>)
    requires Shrinking(counts)
    ensures forall j: nat, i: nat :: Declares(counts, j, i) ==> i < counts[0]
  {
    forall j: nat | j < |counts|
      ensures counts[j] <= counts[0]
    {
      CountsShrink(counts, 0, j);
    }
  }

  /** Only one class of the chain declares a slot. */
  lemma DeclaresOnce(counts: seq<nat>, j: nat, k: nat, i: nat)
    requires Shrinking(counts) && Declares(counts, j, i) && Declares(counts, k, i)
    ensures j == k
  {
    if j < k {
      CountsShrink(counts, j + 1, k);
    } else if k < j {
      CountsShrink(counts, k + 1, j);
    }
  }

  // ---- Chains of prepared classes -------------------------------------------

  /** Each class's parent is the next one; the last has none. */
  ghost predicate IsChain<V>(chain: seq<ClassEntry<V>>) {
    forall j: nat :: j < |chain| ==> chain[j].parent == EntryAt(chain, j + 1)
  }

  ghost function EntryAt<V>(chain: seq<ClassEntry<V>>, j: nat): ClassEntry?<V> {
    if j < |chain| then chain[j] else null
  }

  ghost predicate HasTable<V>(c: ClassEntry<V>, count: nat)
    reads c
  {
    c.count == count && (count > 0 ==> c.table != null) && (c.table != null ==> c.table.Length == count)
  }

  ghost predicate Sized<V>(chain: seq<ClassEntry<V>>, counts: seq<nat>)
    reads chain
  {
    && |chain| == |counts|
    && Shrinking(counts)
    && forall j :: 0 <= j < |chain| ==> HasTable(chain[j], counts[j])
  }

  ghost function Tables<V>(chain: seq<ClassEntry<V>>): set<object>
    reads chain
  {
    set j | 0 <= j < |chain| && chain[j].table != null :: chain[j].table
  }

  ghost predicate Separate<V>(chain: seq<ClassEntry<V>>)
    reads chain
  {
    forall j, k :: 0 <= j < k < |chain| && chain[j].table != null ==> chain[j].table != chain[k].table
  }

  ghost function Row<V>(c: ClassEntry<V>): seq<Slot<V>>
    reads c, c.table
  {
    if c.table == null then [] else c.table[..]
  }

  /** Slot i of class k, when class j declares it: the member itself or a pointer to class j's. */
  ghost predicate SlotLinked<V>(slot: Slot<V>, chain: seq<ClassEntry<V>>, k: nat, j: nat, i: nat)
    requires k <= j < |chain|
  {
    if k == j then !slot.Indirect? else slot == Indirect(chain[j], i)
  }

  ghost predicate RowLinked<V>(row: seq<Slot<V>>, chain: seq<ClassEntry<V>>, counts: seq<nat>, k: nat)
    requires k < |chain|
  {
    forall j: nat, i: nat | k <= j < |chain| && Declares(counts, j, i) ::
      i < |row| && SlotLinked(row[i], chain, k, j, i)
  }

  /** Every slot of every class of the chain is linked to the class that declares it. */
  ghost predicate ChainLinked<V>(chain: seq<ClassEntry<V>>, counts: seq<nat>)
    reads chain, Tables(chain)
  {
    && IsChain(chain) && Sized(chain, counts) && Separate(chain)
    && forall k :: 0 <= k < |chain| ==> RowLinked(Row(chain[k]), chain, counts, k)
  }

  // ---- prepare_class_statics ------------------------------------------------

  ghost function Tabled<V>(c: ClassEntry<V>): set<object>
    reads c
  {
    {c} + if c.table != null then {c.table} else {}
  }

  /** What a member stands for: copying follows an indirection. */
  function Pointee<V>(s: Slot<V>): Slot<V>
    reads if s.Indirect? then Tabled(s.home) else {}
  {
    if s.Indirect? && s.home.table != null && s.index < s.home.table.Length then s.home.table[s.index] else s
  }

  /** pthreads_copy_zval of what a member stands for; a value that cannot be copied becomes null. */
  function CopySlot<V>(s: Slot<V>, copyable: V -> bool): Slot<V> {
    if s.Direct? && copyable(s.value) then s else Null
  }

  /** Slots low .. high - 1 point at the same slots of `home`, the others are as they were. */
  ghost predicate Pointed<V>(now: seq<Slot<V>>, was: seq<Slot<V>>, home: ClassEntry<V>, low: int, high: int) {
    && |now| == |was|
    && forall i :: 0 <= i < |was| ==> now[i] == if low <= i < high then Indirect(home, i) else was[i]
  }

  /** One round of the outer loop: the inner loop that counts the index down to the next ancestor. */
  method PointAt<V>(table: array<Slot<V>>, home: ClassEntry<V>, end: nat, from: int) returns (i: int)
    requires -1 <= from < table.Length && end <= from + 1
    modifies table
    ensures i == end - 1
    ensures Pointed(table[..], old(table[..]), home, end, from + 1)
  {
    i := from;
    while i >= end
      invariant end - 1 <= i <= from
      invariant Pointed(table[..], old(table[..]), home, i + 1, from + 1)
    {
      table[i] := Indirect(home, i);
      i := i - 1;
    }
  }

  /**
   now is the copy of what a member stood for: a value is copied, if it can be, and anything else is
   null.
   */
  ghost predicate IsCopyOf<V>(now: Slot<V>, value: Slot<V>, copyable: V -> bool) {
    && (value.Direct? && copyable(value.value) ==> now == Direct(value.value))
    && (now == Null <==> (value.Direct? ==> !copyable(value.value)))
    && !now.Indirect?
  }

  /** What the members of a table stand for, none of them in the table that is being filled. */
  ghost predicate StandFor<V>(source: array<Slot<V>>, values: seq<Slot<V>>, table: array<Slot<V>>)
    reads source, set k | 0 <= k < source.Length && source[k].Indirect? :: source[k].home,
          set k | 0 <= k < source.Length && source[k].Indirect? && source[k].home.table != null :: source[k].home.table
  {
    && |values| == source.Length
    && forall k :: 0 <= k < source.Length ==>
         Pointee(source[k]) == values[k] && (source[k].Indirect? ==> source[k].home.table != table)
  }

  /** The loop that copies the members the class itself declares. */
  method CopyOwn<V>(table: array<Slot<V>>, source: array<Slot<V>>, end: nat, copyable: V -> bool,
                    ghost values: seq<Slot<V>>) returns (i: int)
    requires table != source && table.Length == source.Length && end <= table.Length
    requires StandFor(source, values, table)
    modifies table
    ensures i == end - 1
    ensures forall k :: end <= k < table.Length ==> IsCopyOf(table[k], values[k], copyable)
  {
    i := table.Length - 1;
    while i >= end
      invariant end - 1 <= i < table.Length
      invariant StandFor(source, values, table)
      invariant forall k :: i < k < table.Length ==> IsCopyOf(table[k], values[k], copyable)
    {
      table[i] := CopySlot(Pointee(source[i]), copyable);
      i := i - 1;
    }
  }

  /** Slots from `low` up to the first ancestor's count point at the ancestor that declares them. */
  ghost predicate PointedAbove<V>(table: seq<Slot<V>>, ancestors: seq<ClassEntry<V>>, counts: seq<nat>, low: int)
    requires |ancestors| == |counts|
  {
    forall j: nat, i: nat | j < |counts| && Declares(counts, j, i) && low <= i < |table| ::
      table[i] == Indirect(ancestors[j], i)
  }

  lemma PointedFurther<V>(now: seq<Slot<V>>, was: seq<Slot<V>>, ancestors: seq<ClassEntry<V>>, counts: seq<nat>,
                          at: nat)
    requires |ancestors| == |counts| && Shrinking(counts) && at < |counts| && counts[at] <= |was|
    requires PointedAbove(was, ancestors, counts, counts[at])
    requires Pointed(now, was, ancestors[at], Inherited(counts, at), counts[at])
    ensures PointedAbove(now, ancestors, counts, Inherited(counts, at))
  {
    forall j: nat, i: nat | j < |counts| && Declares(counts, j, i) && Inherited(counts, at) <= i < |now|
      ensures now[i] == Indirect(ancestors[j], i)
    {
      if i < counts[at] {
        DeclaresOnce(counts, at, j, i);
      }
    }
  }

  /** The outer loop: creates the indirections to the ancestors, from the parent upwards. */
  method PointAtAncestors<V>(table: array<Slot<V>>, ghost ancestors: seq<ClassEntry<V>>, ghost counts: seq<nat>,
                             first: ClassEntry?<V>, from: int)
    requires IsChain(ancestors) && Sized(ancestors, counts)
    requires table !in Tables(ancestors)
    requires first == EntryAt(ancestors, 0)
    requires from == if counts == [] then -1 else counts[0] as int - 1
    requires from < table.Length
    modifies table
    ensures PointedAbove(table[..], ancestors, counts, 0)
    ensures forall k :: from < k < table.Length ==> table[k] == old(table[k])
  {
    var i := from;
    var parent := first;
    NothingAbove(counts);
    ghost var at: nat := 0;
    while parent != null && parent.table != null
      invariant at <= |ancestors| && parent == EntryAt(ancestors, at)
      invariant i + 1 == (if at < |counts| then counts[at] else 0) && i <= from
      invariant PointedAbove(table[..], ancestors, counts, i + 1)
      invariant forall k :: from < k < table.Length ==> table[k] == old(table[k])
      decreases |ancestors| - at
    {
      ghost var was := table[..];
      assert HasTable(ancestors[at], counts[at]);
      assert at + 1 < |ancestors| ==> HasTable(ancestors[at + 1], counts[at + 1]);
      var end := if parent.parent != null then parent.parent.count else 0;
      assert end == Inherited(counts, at);
      assert parent.table != table;
      i := PointAt(table, parent, end, i);
      PointedFurther(table[..], was, ancestors, counts, at);
      parent := parent.parent;
      at := at + 1;
    }
    assert at < |ancestors| ==> HasTable(ancestors[at], counts[at]);
  }

  /** From `low` on, the members are copies of what the source's members stand for. */
  ghost predicate OwnCopied<V>(table: seq<Slot<V>>, source: seq<Slot<V>>, low: nat, copyable: V -> bool) {
    && |table| == |source|
    && forall i :: low <= i < |table| ==> IsCopyOf(table[i], source[i], copyable)
  }

  /** What the members of a class stand for. */
  ghost function Values<V>(c: ClassEntry<V>): (r: seq<Slot<V>>)
    requires c.table != null
    reads *
    ensures |r| == c.table.Length && forall i :: 0 <= i < |r| ==> r[i] == Pointee(c.table[i])
  {
    ValuesUpTo(c, c.table.Length)
  }

  ghost function ValuesUpTo<V>(c: ClassEntry<V>, n: nat): (r: seq<Slot<V>>)
    requires c.table != null && n <= c.table.Length
    reads *
    ensures |r| == n && forall i :: 0 <= i < n ==> r[i] == Pointee(c.table[i])
  {
    if n == 0 then [] else ValuesUpTo(c, n - 1) + [Pointee(c.table[n - 1])]
  }

  method BlockCopy<V>(source: array<Slot<V>>, ghost values: seq<Slot<V>>) returns (table: array<Slot<V>>)
    requires |values| == source.Length && forall i :: 0 <= i < source.Length ==> values[i] == Pointee(source[i])
    ensures fresh(table) && table.Length == source.Length && StandFor(source, values, table)
  {
    table := new Slot<V>[source.Length](i requires 0 <= i < source.Length reads source => source[i]);
  }

  /** Block copy of the candidate's table, then the two loops. */
  method NewTable<V>(candidate: ClassEntry<V>, copyable: V -> bool, parent: ClassEntry?<V>,
                     ghost ancestors: seq<ClassEntry<V>>, ghost counts: seq<nat>) returns (table: array<Slot<V>>)
    requires IsChain(ancestors) && Sized(ancestors, counts) && parent == EntryAt(ancestors, 0)
    requires HasTable(candidate, candidate.count) && candidate.table != null
    requires candidate.count >= OwnFrom(counts)
    ensures fresh(table)
    ensures OwnCopied(table[..], Values(candidate), OwnFrom(counts), copyable)
    ensures PointedAbove(table[..], ancestors, counts, 0)
  {
    ghost var values := Values(candidate);
    table := BlockCopy(candidate.table, values);
    assert ancestors != [] ==> HasTable(ancestors[0], counts[0]);
    var end := if parent != null then parent.count else 0;
    var i := CopyOwn(table, candidate.table, end, copyable, values);
    PointAtAncestors(table, ancestors, counts, parent, i);
  }

  /**
   prepare_class_statics.  `ancestors` are the prepared class's parent chain as this thread has
   it (empty when the class is not linked).  A linked chain of any depth stays linked with the
   new class in front: each inherited slot points to the ancestor that declares it, and each
   declared slot holds the copy of the candidate's.
   */
  method PrepareClassStatics<V>(candidate: ClassEntry<V>, prepared: ClassEntry<V>, copyable: V -> bool,
                                ghost ancestors: seq<ClassEntry<V>>, ghost counts: seq<nat>)
    requires ChainLinked(ancestors, counts)
    requires prepared !in ancestors && candidate != prepared
    requires (if prepared.linked then prepared.parent else null) == EntryAt(ancestors, 0)
    requires HasTable(candidate, candidate.count)
    requires candidate.count >= OwnFrom(counts)
    requires candidate.count == 0 ==> prepared.table == null
    modifies prepared
    ensures prepared.count == candidate.count
    ensures candidate.count > 0 ==> fresh(prepared.table)
    ensures candidate.count == 0 ==> prepared.table == null
    ensures prepared.linked || prepared.parent == null ==>
              ChainLinked([prepared] + ancestors, [candidate.count] + counts)
    ensures candidate.count > 0 ==>
      && prepared.table != null
      && OwnCopied(prepared.table[..], old(Values(candidate)), OwnFrom(counts), copyable)
      && PointedAbove(prepared.table[..], ancestors, counts, 0)
    // a member that the class declares and the candidate holds can be read through the class at once
    ensures candidate.count > 0 ==> ReadsOwn(prepared, candidate.table[..], OwnFrom(counts), copyable)
    // an inherited one reads as it does through the ancestors
    ensures candidate.count > 0 ==> ReadsInherited(prepared, ancestors, counts)
  {
    if candidate.count > 0 {
      PrepareTable(candidate, prepared, copyable, ancestors, counts);
    } else {
      prepared.count := 0;
      LinkEmptyFront(prepared, ancestors, counts);
    }
  }

  /** The same for a class that has members. */
  method PrepareTable<V>(candidate: ClassEntry<V>, prepared: ClassEntry<V>, copyable: V -> bool,
                         ghost ancestors: seq<ClassEntry<V>>, ghost counts: seq<nat>)
    requires ChainLinked(ancestors, counts)
    requires prepared !in ancestors && candidate != prepared
    requires (if prepared.linked then prepared.parent else null) == EntryAt(ancestors, 0)
    requires HasTable(candidate, candidate.count) && candidate.count > 0 && candidate.count >= OwnFrom(counts)
    modifies prepared
    ensures prepared.count == candidate.count && prepared.table != null && fresh(prepared.table)
    ensures prepared.linked || prepared.parent == null ==>
              ChainLinked([prepared] + ancestors, [candidate.count] + counts)
    ensures OwnCopied(prepared.table[..], old(Values(candidate)), OwnFrom(counts), copyable)
    ensures PointedAbove(prepared.table[..], ancestors, counts, 0)
    ensures ReadsOwn(prepared, candidate.table[..], OwnFrom(counts), copyable)
    ensures ReadsInherited(prepared, ancestors, counts)
  {
    var parent := if !prepared.linked then null else prepared.parent;
    var table := NewTable(candidate, copyable, parent, ancestors, counts);
    ghost var values := Values(candidate);
    Install(prepared, table, ancestors, counts);
    OwnReadable(prepared, candidate.table[..], values, OwnFrom(counts), copyable);
    InheritedReadable(prepared, ancestors, counts);
  }

  /**
   Through class c, each member from `low` on reads as the source's value, if that can be copied, and as
   null exactly if the source's member was null or cannot be copied.
   */
  ghost predicate ReadsOwn<V>(c: ClassEntry<V>, members: seq<Slot<V>>, low: nat, copyable: V -> bool)
    reads *
  {
    forall i: nat :: low <= i < |members| ==>
      && (members[i].Direct? && copyable(members[i].value) ==> ReadSlot(c, i) == members[i])
      && (!members[i].Indirect? ==>
            (ReadSlot(c, i) == Null <==> (members[i].Direct? ==> !copyable(members[i].value))))
  }

  /** Through class c, each inherited member reads as what the ancestor that declares it holds. */
  ghost predicate ReadsInherited<V>(c: ClassEntry<V>, ancestors: seq<ClassEntry<V>>, counts: seq<nat>)
    requires |ancestors| == |counts|
    reads *
  {
    forall j: nat, i: nat :: j < |counts| && Declares(counts, j, i) ==>
      && ancestors[j].table != null && i < ancestors[j].table.Length
      && ReadSlot(c, i) == ancestors[j].table[i]
  }

  lemma OwnReadable<V>(c: ClassEntry<V>, members: seq<Slot<V>>, values: seq<Slot<V>>, low: nat, copyable: V -> bool)
    requires c.table != null && OwnCopied(c.table[..], values, low, copyable) && |values| == |members|
    requires forall i :: 0 <= i < |members| && !members[i].Indirect? ==> values[i] == members[i]
    ensures ReadsOwn(c, members, low, copyable)
  {
    forall i: nat | low <= i < |members|
      ensures members[i].Direct? && copyable(members[i].value) ==> ReadSlot(c, i) == members[i]
      ensures !members[i].Indirect? ==>
                (ReadSlot(c, i) == Null <==> (members[i].Direct? ==> !copyable(members[i].value)))
    {
      assert IsCopyOf(c.table[..][i], values[i], copyable);
      assert ReadSlot(c, i) == c.table[i];
    }
  }

  lemma InheritedReadable<V>(c: ClassEntry<V>, ancestors: seq<ClassEntry<V>>, counts: seq<nat>)
    requires ChainLinked(ancestors, counts) && c.table != null && OwnFrom(counts) <= c.table.Length
    requires PointedAbove(c.table[..], ancestors, counts, 0)
    ensures ReadsInherited(c, ancestors, counts)
  {
    NothingAbove(counts);
    forall j: nat, i: nat | j < |counts| && Declares(counts, j, i)
      ensures ancestors[j].table != null && i < ancestors[j].table.Length && ReadSlot(c, i) == ancestors[j].table[i]
    {
      SharedSlot(ancestors, counts, j, j, i);
      assert c.table[..][i] == Indirect(ancestors[j], i);
    }
  }

  method Install<V>(prepared: ClassEntry<V>, table: array<Slot<V>>, ghost ancestors: seq<ClassEntry<V>>,
                    ghost counts: seq<nat>)
    requires ChainLinked(ancestors, counts) && prepared !in ancestors && table !in Tables(ancestors)
    requires OwnFrom(counts) <= table.Length && PointedAbove(table[..], ancestors, counts, 0)
    requires forall i :: OwnFrom(counts) <= i < |table[..]| ==> !table[..][i].Indirect?
    modifies prepared
    ensures prepared.table == table && prepared.count == table.Length
    ensures prepared.parent == EntryAt(ancestors, 0) ==> ChainLinked([prepared] + ancestors, [table.Length] + counts)
  {
    prepared.table := table;
    prepared.count := table.Length;
    LinkFront(prepared, ancestors, counts);
  }

  // ---- The chain grows ------------------------------------------------------

  ghost predicate FrontReady<V>(c: ClassEntry<V>, ancestors: seq<ClassEntry<V>>, counts: seq<nat>)
    reads c, ancestors, Tables(ancestors)
  {
    && ChainLinked(ancestors, counts)
    && c !in ancestors
    && HasTable(c, c.count)
    && (c.table != null ==> c.table !in Tables(ancestors))
    && c.count >= OwnFrom(counts)
  }

  lemma DeclaresShift(count: nat, counts: seq<nat>, j: nat, i: int)
    ensures Declares([count] + counts, j + 1, i) <==> Declares(counts, j, i)
  {
  }

  lemma ShrinkingFront(count: nat, counts: seq<nat>)
    requires Shrinking(counts) && count >= OwnFrom(counts)
    ensures Shrinking([count] + counts)
  {
    var all := [count] + counts;
    forall j | 0 < j < |all|
      ensures all[j] <= all[j - 1]
    {
      if j > 1 {
        assert counts[j - 1] <= counts[j - 2];
      }
    }
  }

  lemma ChainShape<V>(c: ClassEntry<V>, ancestors: seq<ClassEntry<V>>, counts: seq<nat>)
    requires FrontReady(c, ancestors, counts)
    requires c.parent == EntryAt(ancestors, 0)
    ensures IsChain([c] + ancestors) && Sized([c] + ancestors, [c.count] + counts) && Separate([c] + ancestors)
  {
    var all, sizes := [c] + ancestors, [c.count] + counts;
    ShrinkingFront(c.count, counts);
    forall j: nat | j < |all|
      ensures HasTable(all[j], sizes[j])
      ensures all[j].parent == EntryAt(all, j + 1)
    {
      assert EntryAt(all, j + 1) == EntryAt(ancestors, j);
      if j > 0 {
        assert HasTable(ancestors[j - 1], counts[j - 1]);
        assert ancestors[j - 1].parent == EntryAt(ancestors, j);
      }
    }
    forall j, k | 0 <= j < k < |all| && all[j].table != null
      ensures all[j].table != all[k].table
    {
      if j == 0 {
        assert all[k] == ancestors[k - 1];
      }
    }
  }

  lemma OldRowLinked<V>(row: seq<Slot<V>>, c: ClassEntry<V>, count: nat, ancestors: seq<ClassEntry<V>>,
                        counts: seq<nat>, k: nat)
    requires k < |ancestors| == |counts| && RowLinked(row, ancestors, counts, k)
    ensures RowLinked(row, [c] + ancestors, [count] + counts, k + 1)
  {
    var all, sizes := [c] + ancestors, [count] + counts;
    forall j: nat, i: nat | k + 1 <= j < |all| && Declares(sizes, j, i)
      ensures i < |row| && SlotLinked(row[i], all, k + 1, j, i)
    {
      DeclaresShift(count, counts, j - 1, i);
      assert SlotLinked(row[i], ancestors, k, j - 1, i);
    }
  }

  lemma NewRowLinked<V>(row: seq<Slot<V>>, c: ClassEntry<V>, ancestors: seq<ClassEntry<V>>, counts: seq<nat>)
    requires |ancestors| == |counts| && Shrinking(counts) && OwnFrom(counts) <= |row|
    requires PointedAbove(row, ancestors, counts, 0)
    requires forall i :: OwnFrom(counts) <= i < |row| ==> !row[i].Indirect?
    ensures RowLinked(row, [c] + ancestors, [|row|] + counts, 0)
  {
    var all, sizes := [c] + ancestors, [|row|] + counts;
    NothingAbove(counts);
    forall j: nat, i: nat | 0 <= j < |all| && Declares(sizes, j, i)
      ensures i < |row| && SlotLinked(row[i], all, 0, j, i)
    {
      if j > 0 {
        DeclaresShift(|row|, counts, j - 1, i);
      }
    }
  }

  /** The rows of the old classes stay linked when a class is put in front. */
  lemma OldRowsLinked<V>(c: ClassEntry<V>, count: nat, ancestors: seq<ClassEntry<V>>, counts: seq<nat>)
    requires ChainLinked(ancestors, counts)
    ensures var all := [c] + ancestors;
      forall k: nat :: 1 <= k < |all| ==> RowLinked(Row(all[k]), all, [count] + counts, k)
  {
    var all := [c] + ancestors;
    forall k: nat | 1 <= k < |all|
      ensures RowLinked(Row(all[k]), all, [count] + counts, k)
    {
      assert all[k] == ancestors[k - 1];
      OldRowLinked(Row(ancestors[k - 1]), c, count, ancestors, counts, k - 1);
    }
  }

  lemma LinkFront<V>(c: ClassEntry<V>, ancestors: seq<ClassEntry<V>>, counts: seq<nat>)
    requires FrontReady(c, ancestors, counts) && c.table != null
    requires PointedAbove(c.table[..], ancestors, counts, 0)
    requires forall i :: OwnFrom(counts) <= i < |c.table[..]| ==> !c.table[..][i].Indirect?
    ensures c.parent == EntryAt(ancestors, 0) ==> ChainLinked([c] + ancestors, [c.count] + counts)
  {
    if c.parent == EntryAt(ancestors, 0) {
      ChainShape(c, ancestors, counts);
      NewRowLinked(c.table[..], c, ancestors, counts);
      OldRowsLinked(c, c.count, ancestors, counts);
    }
  }

  lemma LinkEmptyFront<V>(c: ClassEntry<V>, ancestors: seq<ClassEntry<V>>, counts: seq<nat>)
    requires FrontReady(c, ancestors, counts) && c.count == 0
    ensures c.parent == EntryAt(ancestors, 0) ==> ChainLinked([c] + ancestors, [c.count] + counts)
  {
    if c.parent == EntryAt(ancestors, 0) {
      ChainShape(c, ancestors, counts);
      NothingAbove([c.count] + counts);
      OldRowsLinked(c, c.count, ancestors, counts);
    }
  }

  // ---- Sharing --------------------------------------------------------------

  /** Where a read or write through class c's slot i lands. */
  function Home<V>(c: ClassEntry<V>, i: nat): (ClassEntry<V>, nat)
    requires c.table != null && i < c.table.Length
    reads c, c.table
  {
    match c.table[i]
    case Indirect(home, index) => (home, index)
    case _ => (c, i)
  }

  /** Through every class of the chain that has slot i, the slot is the declaring class's. */
  lemma SharedSlot<V>(chain: seq<ClassEntry<V>>, counts: seq<nat>, k: nat, j: nat, i: nat)
    requires ChainLinked(chain, counts)
    requires k <= j < |chain| && Declares(counts, j, i)
    ensures chain[k].table != null && i < chain[k].table.Length
    ensures Home(chain[k], i) == (chain[j], i)
  {
    assert RowLinked(Row(chain[k]), chain, counts, k);
    assert SlotLinked(Row(chain[k])[i], chain, k, j, i);
  }

  /** The value a read through class c's slot i gives; null when there is none. */
  ghost function ReadSlot<V>(c: ClassEntry<V>, i: nat): Slot<V>
    reads *
  {
    if c.table == null || i >= c.table.Length then Null
    else
      var (home, index) := Home(c, i);
      if home.table == null || index >= home.table.Length then Null else home.table[index]
  }

  /** The values that preparation copies are those that a read through the candidate gives. */
  lemma ValuesAreRead<V>(c: ClassEntry<V>, i: nat)
    requires c.table != null && i < c.table.Length
    requires c.table[i].Indirect? ==>
               c.table[i].home.table != null && c.table[i].index < c.table[i].home.table.Length
    ensures Values(c)[i] == ReadSlot(c, i)
  {
    assert Home(c, i) == if c.table[i].Indirect? then (c.table[i].home, c.table[i].index) else (c, i);
  }

  /** A member reads the same through every class of the chain that has it. */
  lemma DeclaredValueRead<V>(chain: seq<ClassEntry<V>>, counts: seq<nat>, j: nat, i: nat, v: V)
    requires ChainLinked(chain, counts) && j < |chain| && Declares(counts, j, i)
    requires chain[j].table != null && i < chain[j].table.Length && chain[j].table[i] == Direct(v)
    ensures forall m: nat :: m <= j ==> ReadSlot(chain[m], i) == Direct(v)
  {
    forall m: nat | m <= j
      ensures ReadSlot(chain[m], i) == Direct(v)
    {
      SharedSlot(chain, counts, m, j, i);
    }
  }

  lemma RowUpdated<V>(row: seq<Slot<V>>, chain: seq<ClassEntry<V>>, counts: seq<nat>, j: nat, i: nat, value: V)
    requires j < |chain| == |counts| && i < |row| && Shrinking(counts) && Declares(counts, j, i)
    requires RowLinked(row, chain, counts, j)
    ensures RowLinked(row[i := Direct(value)], chain, counts, j)
  {
    forall d: nat | j <= d < |chain| && Declares(counts, d, i)
      ensures d == j
    {
      DeclaresOnce(counts, j, d, i);
    }
  }

  ghost function Rows<V>(chain: seq<ClassEntry<V>>, n: nat): (r: seq<seq<Slot<V>>>)
    requires n <= |chain|
    reads chain, Tables(chain)
    ensures |r| == n && forall m :: 0 <= m < n ==> r[m] == Row(chain[m])
  {
    if n == 0 then [] else Rows(chain, n - 1) + [Row(chain[n - 1])]
  }

  /** The rows of a chain are `rows` with one slot overwritten. */
  ghost predicate Overwritten<V>(chain: seq<ClassEntry<V>>, rows: seq<seq<Slot<V>>>, j: nat, i: nat, value: V)
    requires j < |chain| == |rows|
    reads chain, Tables(chain)
  {
    && i < |rows[j]|
    && forall m: nat :: m < |chain| ==>
      Row(chain[m]) == if m == j then rows[m][i := Direct(value)] else rows[m]
  }

  lemma StillLinked<V>(chain: seq<ClassEntry<V>>, counts: seq<nat>, rows: seq<seq<Slot<V>>>, j: nat, i: nat, value: V)
    requires IsChain(chain) && Sized(chain, counts) && Separate(chain)
    requires j < |chain| == |rows| && Declares(counts, j, i)
    requires forall m: nat :: m < |rows| ==> RowLinked(rows[m], chain, counts, m)
    requires Overwritten(chain, rows, j, i, value)
    ensures ChainLinked(chain, counts)
  {
    RowUpdated(rows[j], chain, counts, j, i, value);
  }

  /** The assignment itself: follow the pointer, if there is one, and store. */
  method Assign<V>(ghost chain: seq<ClassEntry<V>>, ghost counts: seq<nat>, ghost k: nat, ghost j: nat,
                   c: ClassEntry<V>, i: nat, value: V)
    requires IsChain(chain) && Sized(chain, counts) && Separate(chain)
    requires k <= j < |chain| && chain[k] == c
    requires c.table != null && i < c.table.Length && Home(c, i) == (chain[j], i)
    requires chain[j].table != null && i < chain[j].table.Length
    modifies chain[j].table
    ensures Overwritten(chain, old(Rows(chain, |chain|)), j, i, value)
  {
    var home, index := c, i;
    if c.table[i].Indirect? {
      home, index := c.table[i].home, c.table[i].index;
    }
    home.table[index] := Direct(value);
    forall m: nat | m < |chain| && m != j
      ensures Row(chain[m]) == old(Row(chain[m]))
    {
    }
  }

  /** The same with the links kept. */
  method AssignLinked<V>(ghost chain: seq<ClassEntry<V>>, ghost counts: seq<nat>, ghost k: nat, ghost j: nat,
                         c: ClassEntry<V>, i: nat, value: V)
    requires ChainLinked(chain, counts)
    requires k <= j < |chain| && chain[k] == c && Declares(counts, j, i)
    modifies Tables(chain)
    ensures ChainLinked(chain, counts)
    ensures Overwritten(chain, old(Rows(chain, |chain|)), j, i, value)
  {
    SharedSlot(chain, counts, k, j, i);
    SharedSlot(chain, counts, j, j, i);
    ghost var rows := Rows(chain, |chain|);
    Assign(chain, counts, k, j, c, i, value);
    StillLinked(chain, counts, rows, j, i, value);
  }

  /** Every read of a slot gives what the row of the declaring class holds. */
  ghost predicate ReadsAre<V>(chain: seq<ClassEntry<V>>, counts: seq<nat>, rows: seq<seq<Slot<V>>>)
    requires |rows| == |chain|
    reads *
  {
    forall m: nat, d: nat, n: nat :: m <= d < |chain| && Declares(counts, d, n) ==>
      n < |rows[d]| && ReadSlot(chain[m], n) == rows[d][n]
  }

  lemma ReadsDeclared<V>(chain: seq<ClassEntry<V>>, counts: seq<nat>)
    requires ChainLinked(chain, counts)
    ensures ReadsAre(chain, counts, Rows(chain, |chain|))
  {
    var rows := Rows(chain, |chain|);
    forall m: nat, d: nat, n: nat | m <= d < |chain| && Declares(counts, d, n)
      ensures n < |rows[d]| && ReadSlot(chain[m], n) == rows[d][n]
    {
      SharedSlot(chain, counts, m, d, n);
      SharedSlot(chain, counts, d, d, n);
    }
  }

  lemma OverwrittenRows<V>(chain: seq<ClassEntry<V>>, rows: seq<seq<Slot<V>>>, j: nat, i: nat, value: V)
    requires j < |chain| == |rows| && Overwritten(chain, rows, j, i, value)
    ensures Rows(chain, |chain|) == rows[j := rows[j][i := Direct(value)]]
  {
  }

  lemma ReadsUpdated<V>(chain: seq<ClassEntry<V>>, counts: seq<nat>, rows: seq<seq<Slot<V>>>, j: nat, i: nat, value: V)
    requires j < |chain| == |rows| && i < |rows[j]| && Declares(counts, j, i)
    requires ReadsAre(chain, counts, rows[j := rows[j][i := Direct(value)]])
    ensures forall m: nat :: m <= j ==> ReadSlot(chain[m], i) == Direct(value)
  {
  }

  /**
   A write through any class of the chain is read back through every class that has the slot,
   and no other slot's value changes: before, every read gave what the rows held; after, every
   read gives what they hold with that one member replaced.
   */
  method WriteStatic<V>(ghost chain: seq<ClassEntry<V>>, ghost counts: seq<nat>, ghost k: nat, ghost j: nat,
                        c: ClassEntry<V>, i: nat, value: V)
    requires ChainLinked(chain, counts)
    requires k <= j < |chain| && chain[k] == c && Declares(counts, j, i)
    modifies Tables(chain)
    ensures ChainLinked(chain, counts)
    ensures forall m: nat :: m <= j ==> ReadSlot(chain[m], i) == Direct(value)
    ensures var rows := old(Rows(chain, |chain|));
      && old(ReadsAre(chain, counts, Rows(chain, |chain|)))
      && i < |rows[j]|
      && ReadsAre(chain, counts, rows[j := rows[j][i := Direct(value)]])
  {
    ghost var rows := Rows(chain, |chain|);
    ReadsDeclared(chain, counts);
    AssignLinked(chain, counts, k, j, c, i, value);
    OverwrittenRows(chain, rows, j, i, value);
    ReadsDeclared(chain, counts);
    ReadsUpdated(chain, counts, rows, j, i, value);
  }
}
