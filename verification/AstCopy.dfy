/**
 Copying a constant-expression tree into one block of memory that was sized in advance.
 Memory is counted in 8-byte words: a value node takes three, a tree node one plus one per
 child, a list node two plus one per child.
 */
module AstCopy {
  import opened Wrappers

  const ZVAL := 64        // ZEND_AST_ZVAL
  const CONSTANT := 65    // ZEND_AST_CONSTANT

  datatype Ast<V> =
    | Leaf(kind: nat, attr: nat, v: V)
    | Tree(kind: nat, attr: nat, children: seq<Option<Ast<V>>>)

  predicate IsValueKind(kind: nat) { kind == ZVAL || kind == CONSTANT }

  /** zend_ast_is_list */
  predicate IsList(kind: nat) { (kind / 128) % 2 == 1 }

  /** zend_ast_get_num_children */
  function NumChildren(kind: nat): nat { kind / 256 }

  predicate WellFormed<V>(t: Ast<V>) {
    match t
    case Leaf(kind, _, _) => IsValueKind(kind)
    case Tree(kind, _, cs) =>
      && !IsValueKind(kind)
      && (IsList(kind) || |cs| == NumChildren(kind))
      && forall i :: 0 <= i < |cs| && cs[i].Some? ==> WellFormed(cs[i].value)
  }

  // zend_ast_ref is one word: the reference count and the type of a constant expression.
  const REF_SIZE: nat := 1

  datatype Word<V> =
    | Ref(refcount: nat) | Head(kind: nat, attr: nat) | Count(n: nat)
    | Val(v: V) | Pad | Ptr(at: nat) | NullPtr | Junk

  // ---- Sizes -----------------------------------------------------------------------

  /** Words of a tree node before its child pointers. */
  function HeadSize(kind: nat): nat { if IsList(kind) then 2 else 1 }

  function NodeSize<V>(t: Ast<V>): nat {
    if t.Leaf? then 3 else HeadSize(t.kind) + |t.children|
  }

  /** zend_ast_tree_size */
  function Size<V>(t: Ast<V>): nat
    decreases t, 0
  {
    if t.Leaf? then 3 else NodeSize(t) + SizeBelow(t, |t.children|)
  }

  /** The size of the first n subtrees. */
  function SizeBelow<V>(t: Ast<V>, n: nat): nat
    requires t.Tree? && n <= |t.children|
    decreases t, 0, n
  {
    if n == 0 then 0
    else if t.children[n - 1].Some? then SizeBelow(t, n - 1) + Size(t.children[n - 1].value)
    else SizeBelow(t, n - 1)
  }

  // ---- The layout ------------------------------------------------------------------

  function HeadWords<V>(t: Ast<V>): seq<Word<V>>
    requires t.Tree?
  {
    [Head(t.kind, t.attr)] + if IsList(t.kind) then [Count(|t.children|)] else []
  }

  /** The pointer to child i of a node whose subtrees start at `base`. */
  function Pointer<V>(t: Ast<V>, base: nat, i: nat): Word<V>
    requires t.Tree? && i < |t.children|
  {
    if t.children[i].Some? then Ptr(base + SizeBelow(t, i)) else NullPtr
  }

  /** The words of a tree placed at address `at`; values go through `copy`. */
  function Pack<V>(copy: (nat, V) -> V, t: Ast<V>, at: nat): (w: seq<Word<V>>)
    ensures |w| == Size(t)
    decreases t, 0
  {
    match t
    case Leaf(kind, attr, v) => [Head(kind, attr), Val(copy(kind, v)), Pad]
    case Tree(kind, attr, cs) =>
      var base := at + NodeSize(t);
      HeadWords(t) + seq(|cs|, i requires 0 <= i < |cs| => Pointer(t, base, i)) + PackBelow(copy, t, base, |cs|)
  }

  /** The words of the first n subtrees. */
  function PackBelow<V>(copy: (nat, V) -> V, t: Ast<V>, base: nat, n: nat): (w: seq<Word<V>>)
    requires t.Tree? && n <= |t.children|
    ensures |w| == SizeBelow(t, n)
    decreases t, 0, n
  {
    if n == 0 then []
    else if t.children[n - 1].Some? then
      PackBelow(copy, t, base, n - 1) + Pack(copy, t.children[n - 1].value, base + SizeBelow(t, n - 1))
    else PackBelow(copy, t, base, n - 1)
  }

  // ---- The copier, as it writes through a moving pointer ------------------------------

  method TreeSize<V>(t: Ast<V>) returns (size: nat)
    ensures size == Size(t)
    decreases t
  {
    if t.Leaf? {
      return 3;
    }
    size := NodeSize(t);
    var i := 0;
    while i < |t.children|
      invariant i <= |t.children| && size == NodeSize(t) + SizeBelow(t, i)
    {
      if t.children[i].Some? {
        var s := TreeSize(t.children[i].value);
        size := size + s;
      }
      i := i + 1;
    }
  }

  /** mem agrees with before outside [lo, hi). */
  ghost predicate SameOutside<V>(mem: seq<Word<V>>, before: seq<Word<V>>, lo: nat, hi: nat) {
    |mem| == |before| && forall j :: 0 <= j < |mem| && !(lo <= j < hi) ==> mem[j] == before[j]
  }

  /** Node t at buf is written, with its first i children. */
  ghost predicate Writing<V>(copy: (nat, V) -> V, t: Ast<V>, mem: seq<Word<V>>, before: seq<Word<V>>, buf: nat, i: nat)
    requires t.Tree? && i <= |t.children|
  {
    var first, base := buf + HeadSize(t.kind), buf + NodeSize(t);
    var cur := base + SizeBelow(t, i);
    && cur <= |mem|
    && SameOutside(mem, before, buf, cur)
    && mem[buf..first] == HeadWords(t)
    && (forall j :: 0 <= j < i ==> HasPointer(t, mem, buf, j))
    && mem[base..cur] == PackBelow(copy, t, base, i)
  }

  /** The node at buf has the right pointer to child i. */
  ghost predicate HasPointer<V>(t: Ast<V>, mem: seq<Word<V>>, buf: nat, i: nat)
    requires t.Tree? && i < |t.children|
  {
    && buf + HeadSize(t.kind) + i < |mem|
    && mem[buf + HeadSize(t.kind) + i] == Pointer(t, buf + NodeSize(t), i)
  }

  lemma {:induction false} SizeBelowMonotone<V>(t: Ast<V>, i: nat, n: nat)
    requires t.Tree? && i <= n <= |t.children|
    ensures SizeBelow(t, i) <= SizeBelow(t, n)
    decreases n
  {
    if i < n {
      SizeBelowMonotone(t, i, n - 1);
    }
  }

  lemma WritingEnds<V>(copy: (nat, V) -> V, t: Ast<V>, mem: seq<Word<V>>, before: seq<Word<V>>, buf: nat)
    requires t.Tree? && Writing(copy, t, mem, before, buf, |t.children|)
    ensures buf + Size(t) <= |mem| && mem[buf..buf + Size(t)] == Pack(copy, t, buf)
    ensures SameOutside(mem, before, buf, buf + Size(t))
  {
    var first, base, n := buf + HeadSize(t.kind), buf + NodeSize(t), |t.children|;
    var ptrs := seq(n, i requires 0 <= i < n => Pointer(t, base, i));
    forall i | 0 <= i < n
      ensures mem[first..base][i] == ptrs[i]
    {
      assert HasPointer(t, mem, buf, i);
    }
    assert mem[first..base] == ptrs;
    assert mem[buf..buf + Size(t)] == mem[buf..first] + mem[first..base] + mem[base..buf + Size(t)];
  }

  /** mem' is mem with child i written: its pointer and, unless it is null, its subtree. */
  ghost predicate ChildWritten<V>(copy: (nat, V) -> V, t: Ast<V>, mem: seq<Word<V>>, mem': seq<Word<V>>, buf: nat,
                                  i: nat)
    requires t.Tree? && i < |t.children|
  {
    var slot := buf + HeadSize(t.kind) + i;
    var cur, next := buf + NodeSize(t) + SizeBelow(t, i), buf + NodeSize(t) + SizeBelow(t, i + 1);
    && cur <= next <= |mem'| == |mem|
    && HasPointer(t, mem', buf, i)
    && ChangedAt(mem, mem', slot, cur, next)
    && (t.children[i].Some? ==> mem'[cur..next] == Pack(copy, t.children[i].value, cur))
  }

  ghost predicate ChangedAt<V>(mem: seq<Word<V>>, mem': seq<Word<V>>, slot: nat, cur: nat, next: nat) {
    |mem'| == |mem| && forall j :: 0 <= j < |mem| && j != slot && !(cur <= j < next) ==> mem'[j] == mem[j]
  }

  /** One more child. */
  lemma WritingAdvances<V>(copy: (nat, V) -> V, t: Ast<V>, mem: seq<Word<V>>, mem': seq<Word<V>>,
                           before: seq<Word<V>>, buf: nat, i: nat)
    requires t.Tree? && i < |t.children| && Writing(copy, t, mem, before, buf, i)
    requires ChildWritten(copy, t, mem, mem', buf, i)
    ensures Writing(copy, t, mem', before, buf, i + 1)
  {
    HeadStays(copy, t, mem, mem', before, buf, i);
    PointersStay(t, mem, mem', buf, i);
    BelowAdvances(copy, t, mem, mem', buf, i);
  }

  lemma HeadStays<V>(copy: (nat, V) -> V, t: Ast<V>, mem: seq<Word<V>>, mem': seq<Word<V>>, before: seq<Word<V>>,
                     buf: nat, i: nat)
    requires t.Tree? && i < |t.children| && ChildWritten(copy, t, mem, mem', buf, i)
    requires SameOutside(mem, before, buf, buf + NodeSize(t) + SizeBelow(t, i))
    ensures var first := buf + HeadSize(t.kind);
            && SameOutside(mem', before, buf, buf + NodeSize(t) + SizeBelow(t, i + 1))
            && first <= |mem| && mem'[buf..first] == mem[buf..first]
  {
  }

  lemma NextSize<V>(t: Ast<V>, i: nat)
    requires t.Tree? && i < |t.children|
    ensures SizeBelow(t, i) <= SizeBelow(t, i + 1)
  {
  }

  lemma PointersStay<V>(t: Ast<V>, mem: seq<Word<V>>, mem': seq<Word<V>>, buf: nat, i: nat)
    requires t.Tree? && i < |t.children| && |mem'| == |mem| && HasPointer(t, mem', buf, i)
    requires forall j :: 0 <= j < i ==> HasPointer(t, mem, buf, j)
    requires ChangedAt(mem, mem', buf + HeadSize(t.kind) + i, buf + NodeSize(t) + SizeBelow(t, i),
                       buf + NodeSize(t) + SizeBelow(t, i + 1))
    ensures forall j :: 0 <= j < i + 1 ==> HasPointer(t, mem', buf, j)
  {
    forall j | 0 <= j < i
      ensures HasPointer(t, mem', buf, j)
    {
      assert HasPointer(t, mem, buf, j);
    }
  }

  lemma BelowAdvances<V>(copy: (nat, V) -> V, t: Ast<V>, mem: seq<Word<V>>, mem': seq<Word<V>>, buf: nat, i: nat)
    requires t.Tree? && i < |t.children| && ChildWritten(copy, t, mem, mem', buf, i)
    requires var base := buf + NodeSize(t); mem[base..base + SizeBelow(t, i)] == PackBelow(copy, t, base, i)
    ensures var base := buf + NodeSize(t); mem'[base..base + SizeBelow(t, i + 1)] == PackBelow(copy, t, base, i + 1)
  {
    var base := buf + NodeSize(t);
    NextBelow(copy, t, base, i);
    JoinedSlices(mem, mem', buf + HeadSize(t.kind) + i, base, base + SizeBelow(t, i), base + SizeBelow(t, i + 1));
  }

  lemma NextBelow<V>(copy: (nat, V) -> V, t: Ast<V>, base: nat, i: nat)
    requires t.Tree? && i < |t.children|
    ensures SizeBelow(t, i) <= SizeBelow(t, i + 1)
    ensures t.children[i].None? ==> SizeBelow(t, i + 1) == SizeBelow(t, i)
    ensures t.children[i].None? ==> PackBelow(copy, t, base, i + 1) == PackBelow(copy, t, base, i)
    ensures t.children[i].Some? ==>
              var child := Pack(copy, t.children[i].value, base + SizeBelow(t, i));
              PackBelow(copy, t, base, i + 1) == PackBelow(copy, t, base, i) + child
  {
  }

  /** Changing a word before base and the words from cur on leaves the slice between them alone. */
  lemma JoinedSlices<V>(mem: seq<Word<V>>, mem': seq<Word<V>>, slot: nat, base: nat, cur: nat, next: nat)
    requires slot < base <= cur <= next <= |mem| == |mem'| && ChangedAt(mem, mem', slot, cur, next)
    ensures mem'[base..next] == mem[base..cur] + mem'[cur..next]
  {
  }

  /** pthreads_copy_ast_tree: writes the tree at buf and returns the address after it. */
  method CopyTree<V>(copy: (nat, V) -> V, t: Ast<V>, mem: array<Word<V>>, buf: nat) returns (end: nat)
    requires buf + Size(t) <= mem.Length
    modifies mem
    ensures end == buf + Size(t)
    ensures mem[..][buf..end] == Pack(copy, t, buf)
    ensures SameOutside(mem[..], old(mem[..]), buf, end)
    decreases t, 2
  {
    if t.Leaf? {
      mem[buf] := Head(t.kind, t.attr);
      mem[buf + 1] := Val(copy(t.kind, t.v));
      mem[buf + 2] := Pad;
      end := buf + 3;
      assert mem[..][buf..end] == [mem[buf], mem[buf + 1], mem[buf + 2]];
    } else {
      WriteHead(copy, t, mem, buf);
      end := CopyChildren(copy, t, mem, old(mem[..]), buf);
      WritingEnds(copy, t, mem[..], old(mem[..]), buf);
    }
  }

  /** The fields of a list or tree node before its children. */
  method WriteHead<V>(ghost copy: (nat, V) -> V, t: Ast<V>, mem: array<Word<V>>, buf: nat)
    requires t.Tree? && buf + NodeSize(t) <= mem.Length
    modifies mem
    ensures Writing(copy, t, mem[..], old(mem[..]), buf, 0)
  {
    mem[buf] := Head(t.kind, t.attr);
    if IsList(t.kind) {
      mem[buf + 1] := Count(|t.children|);
    }
    assert mem[..][buf..buf + HeadSize(t.kind)] == HeadWords(t);
  }

  method CopyChildren<V>(copy: (nat, V) -> V, t: Ast<V>, mem: array<Word<V>>, ghost before: seq<Word<V>>, buf: nat)
    returns (end: nat)
    requires t.Tree? && buf + Size(t) <= mem.Length && Writing(copy, t, mem[..], before, buf, 0)
    modifies mem
    ensures end == buf + Size(t) && Writing(copy, t, mem[..], before, buf, |t.children|)
    decreases t, 1
  {
    end := buf + NodeSize(t);
    var i := 0;
    while i < |t.children|
      invariant i <= |t.children| && end == buf + NodeSize(t) + SizeBelow(t, i)
      invariant Writing(copy, t, mem[..], before, buf, i)
    {
      end := CopyChild(copy, t, mem, before, buf, i, end);
      i := i + 1;
    }
  }

  /** One round of the loop over the children. */
  method CopyChild<V>(copy: (nat, V) -> V, t: Ast<V>, mem: array<Word<V>>, ghost before: seq<Word<V>>, buf: nat,
                      i: nat, cur: nat)
    returns (end: nat)
    requires t.Tree? && i < |t.children| && buf + Size(t) <= mem.Length
    requires cur == buf + NodeSize(t) + SizeBelow(t, i) && Writing(copy, t, mem[..], before, buf, i)
    modifies mem
    ensures end == buf + NodeSize(t) + SizeBelow(t, i + 1)
    ensures Writing(copy, t, mem[..], before, buf, i + 1)
    decreases t, 0
  {
    SizeBelowMonotone(t, i + 1, |t.children|);
    var slot := buf + HeadSize(t.kind) + i;
    end := cur;
    if t.children[i].Some? {
      mem[slot] := Ptr(cur);
      end := CopyTree(copy, t.children[i].value, mem, cur);
    } else {
      mem[slot] := NullPtr;
    }
    NextSize(t, i);
    WritingAdvances(copy, t, old(mem[..]), mem[..], before, buf, i);
  }

  /**
   pthreads_copy_ast: allocates exactly a reference header and the computed size, and fills all of it
   with the header, counting one reference, and the tree behind it.
   */
  method CopyAst<V>(copy: (nat, V) -> V, t: Ast<V>) returns (block: array<Word<V>>)
    requires WellFormed(t)
    ensures fresh(block) && block.Length == REF_SIZE + Size(t)
    ensures block[0] == Ref(1) && block[..][REF_SIZE..] == Pack(copy, t, REF_SIZE)
    ensures Decode(block[..], REF_SIZE) == Some(Copied(copy, t))
  {
    var size := TreeSize(t);
    block := new Word<V>[REF_SIZE + size](_ => Junk);
    var end := CopyTree(copy, t, block, REF_SIZE);
    assert block[..][REF_SIZE..] == block[..][REF_SIZE..end];
    block[0] := Ref(1);
    assert block[..][REF_SIZE..REF_SIZE + Size(t)] == Pack(copy, t, REF_SIZE);
    DecodesBack(copy, t, block[..], REF_SIZE);
  }

  // ---- Reading the block ----------------------------------------------------------------

  /** The tree that the block holds at an address, following its pointers. */
  function Decode<V>(mem: seq<Word<V>>, at: nat): Option<Ast<V>>
    decreases |mem| - at, 0
  {
    if at >= |mem| || !mem[at].Head? then None
    else
      var kind, attr := mem[at].kind, mem[at].attr;
      if IsValueKind(kind) then
        if at + 1 < |mem| && mem[at + 1].Val? then Some(Leaf(kind, attr, mem[at + 1].v)) else None
      else if IsList(kind) then
        if at + 1 < |mem| && mem[at + 1].Count? then DecodeTree(mem, at, kind, attr, at + 2, mem[at + 1].n) else None
      else DecodeTree(mem, at, kind, attr, at + 1, NumChildren(kind))
  }

  function DecodeTree<V>(mem: seq<Word<V>>, at: nat, kind: nat, attr: nat, first: nat, n: nat): Option<Ast<V>>
    requires at < |mem|
    decreases |mem| - at, 0, n + 1
  {
    var cs := DecodeChildren(mem, at, first, n);
    if cs.Some? then Some(Tree(kind, attr, cs.value)) else None
  }

  function DecodeChildren<V>(mem: seq<Word<V>>, at: nat, first: nat, n: nat): (r: Option<seq<Option<Ast<V>>>>)
    requires at < |mem|
    decreases |mem| - at, 0, n
  {
    if n == 0 then Some([])
    else
      var cs := DecodeChildren(mem, at, first, n - 1);
      var slot := first + n - 1;
      if cs.None? || slot >= |mem| then None
      else if mem[slot].NullPtr? then Some(cs.value + [None])
      else if mem[slot].Ptr? && at < mem[slot].at then
        var c := Decode(mem, mem[slot].at);
        if c.Some? then Some(cs.value + [c]) else None
      else None
  }

  /** The tree with every value copied. */
  function Copied<V>(copy: (nat, V) -> V, t: Ast<V>): Ast<V>
    decreases t, 0
  {
    match t
    case Leaf(kind, attr, v) => Leaf(kind, attr, copy(kind, v))
    case Tree(kind, attr, cs) => Tree(kind, attr, CopiedBelow(copy, t, |cs|))
  }

  function CopiedBelow<V>(copy: (nat, V) -> V, t: Ast<V>, n: nat): (r: seq<Option<Ast<V>>>)
    requires t.Tree? && n <= |t.children|
    ensures |r| == n
    decreases t, 0, n
  {
    if n == 0 then []
    else
      CopiedBelow(copy, t, n - 1) +
      [if t.children[n - 1].Some? then Some(Copied(copy, t.children[n - 1].value)) else None]
  }

  /** Decoding a packed tree, wherever it lies, yields the source tree up to the copying of values. */
  lemma {:induction false} DecodesBack<V>(copy: (nat, V) -> V, t: Ast<V>, mem: seq<Word<V>>, at: nat)
    requires WellFormed(t) && at + Size(t) <= |mem|
    requires mem[at..at + Size(t)] == Pack(copy, t, at)
    ensures Decode(mem, at) == Some(Copied(copy, t))
    decreases t, 1
  {
    if t.Leaf? {
      LeafDecodes(copy, t, mem, at);
    } else {
      PackedHead(copy, t, mem, at);
      forall i | 0 <= i < |t.children| && t.children[i].Some?
        ensures Decode(mem, at + NodeSize(t) + SizeBelow(t, i)) == Some(Copied(copy, t.children[i].value))
      {
        ChildDecodesBack(copy, t, mem, at, i);
      }
      TreeDecodes(copy, t, mem, at);
    }
  }

  lemma LeafDecodes<V>(copy: (nat, V) -> V, t: Ast<V>, mem: seq<Word<V>>, at: nat)
    requires t.Leaf? && WellFormed(t) && at + 3 <= |mem| && mem[at..at + 3] == Pack(copy, t, at)
    ensures Decode(mem, at) == Some(Copied(copy, t))
  {
    var w := mem[at..at + 3];
    assert mem[at] == w[0] && mem[at + 1] == w[1];
  }

  lemma {:induction false} ChildDecodesBack<V>(copy: (nat, V) -> V, t: Ast<V>, mem: seq<Word<V>>, at: nat, i: nat)
    requires t.Tree? && WellFormed(t) && i < |t.children| && t.children[i].Some?
    requires at + Size(t) <= |mem| && mem[at..at + Size(t)] == Pack(copy, t, at)
    ensures Decode(mem, at + NodeSize(t) + SizeBelow(t, i)) == Some(Copied(copy, t.children[i].value))
    decreases t, 0
  {
    ChildPacked(copy, t, mem, at, i);
    DecodesBack(copy, t.children[i].value, mem, at + NodeSize(t) + SizeBelow(t, i));
  }

  /** A packed node decodes when its children do. */
  lemma TreeDecodes<V>(copy: (nat, V) -> V, t: Ast<V>, mem: seq<Word<V>>, at: nat)
    requires t.Tree? && WellFormed(t) && at + NodeSize(t) <= |mem|
    requires mem[at] == Head(t.kind, t.attr) && (IsList(t.kind) ==> mem[at + 1] == Count(|t.children|))
    requires forall i :: 0 <= i < |t.children| ==> HasPointer(t, mem, at, i)
    requires forall i :: 0 <= i < |t.children| && t.children[i].Some? ==>
               Decode(mem, at + NodeSize(t) + SizeBelow(t, i)) == Some(Copied(copy, t.children[i].value))
    ensures Decode(mem, at) == Some(Copied(copy, t))
  {
    ChildrenDecode(copy, t, mem, at, |t.children|);
  }

  /** The subtrees of a packed node, read off the block. */
  lemma PackedBelow<V>(copy: (nat, V) -> V, t: Ast<V>, mem: seq<Word<V>>, at: nat)
    requires t.Tree? && at + Size(t) <= |mem| && mem[at..at + Size(t)] == Pack(copy, t, at)
    ensures var base := at + NodeSize(t);
            && base + SizeBelow(t, |t.children|) == at + Size(t)
            && mem[base..at + Size(t)] == PackBelow(copy, t, base, |t.children|)
  {
    var base, n := at + NodeSize(t), |t.children|;
    var w := mem[at..at + Size(t)];
    assert w == HeadWords(t) + seq(n, i requires 0 <= i < n => Pointer(t, base, i)) + PackBelow(copy, t, base, n);
    assert w[NodeSize(t)..] == PackBelow(copy, t, base, n);
    assert mem[base..at + Size(t)] == w[NodeSize(t)..];
  }

  /** The head and the pointers of a packed node, read off the block. */
  lemma PackedHead<V>(copy: (nat, V) -> V, t: Ast<V>, mem: seq<Word<V>>, at: nat)
    requires t.Tree? && at + Size(t) <= |mem| && mem[at..at + Size(t)] == Pack(copy, t, at)
    ensures mem[at] == Head(t.kind, t.attr)
    ensures IsList(t.kind) ==> mem[at + 1] == Count(|t.children|)
    ensures forall i :: 0 <= i < |t.children| ==> HasPointer(t, mem, at, i)
  {
    var base, n := at + NodeSize(t), |t.children|;
    var w := mem[at..at + Size(t)];
    var ptrs := seq(n, i requires 0 <= i < n => Pointer(t, base, i));
    assert w == HeadWords(t) + ptrs + PackBelow(copy, t, base, n);
    assert forall j :: 0 <= j < |w| ==> mem[at + j] == w[j];
    forall i | 0 <= i < n
      ensures HasPointer(t, mem, at, i)
    {
      assert mem[at + (HeadSize(t.kind) + i)] == w[HeadSize(t.kind) + i] == ptrs[i];
    }
  }

  lemma {:induction false} PackBelowPrefix<V>(copy: (nat, V) -> V, t: Ast<V>, base: nat, i: nat, n: nat)
    requires t.Tree? && i <= n <= |t.children|
    ensures SizeBelow(t, i) <= SizeBelow(t, n)
    ensures PackBelow(copy, t, base, n)[..SizeBelow(t, i)] == PackBelow(copy, t, base, i)
    decreases n
  {
    if i < n {
      PackBelowPrefix(copy, t, base, i, n - 1);
    } else {
      assert PackBelow(copy, t, base, n)[..SizeBelow(t, n)] == PackBelow(copy, t, base, n);
    }
  }

  /** If the pointers are in place and every child decodes, so do all children together. */
  lemma {:induction false} ChildrenDecode<V>(copy: (nat, V) -> V, t: Ast<V>, mem: seq<Word<V>>, at: nat, n: nat)
    requires t.Tree? && n <= |t.children| && at < |mem| && at + NodeSize(t) <= |mem|
    requires forall i :: 0 <= i < |t.children| ==> HasPointer(t, mem, at, i)
    requires forall i :: 0 <= i < |t.children| && t.children[i].Some? ==>
               Decode(mem, at + NodeSize(t) + SizeBelow(t, i)) == Some(Copied(copy, t.children[i].value))
    ensures DecodeChildren(mem, at, at + HeadSize(t.kind), n) == Some(CopiedBelow(copy, t, n))
    decreases n
  {
    if n > 0 {
      ChildrenDecode(copy, t, mem, at, n - 1);
      assert HasPointer(t, mem, at, n - 1);
    }
  }

  /** A subtree lies packed where its parent's pointer says. */
  lemma ChildPacked<V>(copy: (nat, V) -> V, t: Ast<V>, mem: seq<Word<V>>, at: nat, i: nat)
    requires t.Tree? && i < |t.children| && t.children[i].Some?
    requires at + Size(t) <= |mem| && mem[at..at + Size(t)] == Pack(copy, t, at)
    ensures var p, c := at + NodeSize(t) + SizeBelow(t, i), t.children[i].value;
            at < p && p + Size(c) <= at + Size(t) && mem[p..p + Size(c)] == Pack(copy, c, p)
  {
    PackedBelow(copy, t, mem, at);
    var base := at + NodeSize(t);
    ChildInBelow(copy, t, base, i);
    SliceOfSlice(mem, base, at + Size(t), SizeBelow(t, i), SizeBelow(t, i + 1));
  }

  lemma ChildInBelow<V>(copy: (nat, V) -> V, t: Ast<V>, base: nat, i: nat)
    requires t.Tree? && i < |t.children| && t.children[i].Some?
    ensures SizeBelow(t, i + 1) == SizeBelow(t, i) + Size(t.children[i].value) <= SizeBelow(t, |t.children|)
    ensures PackBelow(copy, t, base, |t.children|)[SizeBelow(t, i)..SizeBelow(t, i + 1)]
         == Pack(copy, t.children[i].value, base + SizeBelow(t, i))
  {
    NextBelow(copy, t, base, i);
    PackBelowPrefix(copy, t, base, i + 1, |t.children|);
    TailOfPrefix(PackBelow(copy, t, base, |t.children|), PackBelow(copy, t, base, i),
                 Pack(copy, t.children[i].value, base + SizeBelow(t, i)));
  }

  lemma TailOfPrefix<T>(all: seq<T>, a: seq<T>, b: seq<T>)
    requires |a| + |b| <= |all| && all[..|a| + |b|] == a + b
    ensures all[|a|..|a| + |b|] == b
  {
    assert all[|a|..|a| + |b|] == all[..|a| + |b|][|a|..];
  }

  lemma SliceOfSlice<T>(s: seq<T>, a: nat, b: nat, lo: nat, hi: nat)
    requires a <= b <= |s| && lo <= hi <= b - a
    ensures s[a..b][lo..hi] == s[a + lo..a + hi]
  {
    var m := s[a..b];
    forall k | 0 <= k < hi - lo
      ensures m[lo..hi][k] == s[a + lo..a + hi][k]
    {
      assert m[lo..hi][k] == m[lo + k] == s[a + (lo + k)];
    }
  }

  // ---- Disjointness ------------------------------------------------------------------------

  /** Address and size of every node, in the order in which they are written. */
  function Nodes<V>(t: Ast<V>, at: nat): seq<(nat, nat)>
    decreases t, 0
  {
    [(at, NodeSize(t))] + if t.Leaf? then [] else NodesBelow(t, at + NodeSize(t), |t.children|)
  }

  function NodesBelow<V>(t: Ast<V>, base: nat, n: nat): seq<(nat, nat)>
    requires t.Tree? && n <= |t.children|
    decreases t, 0, n
  {
    if n == 0 then []
    else if t.children[n - 1].Some? then
      NodesBelow(t, base, n - 1) + Nodes(t.children[n - 1].value, base + SizeBelow(t, n - 1))
    else NodesBelow(t, base, n - 1)
  }

  /** The ranges follow each other without gap or overlap from lo to hi. */
  predicate Tiles(rs: seq<(nat, nat)>, lo: nat, hi: nat) {
    if rs == [] then lo == hi
    else rs[0].0 == lo && rs[0].1 > 0 && Tiles(rs[1..], lo + rs[0].1, hi)
  }

  lemma {:induction false} TilesAppend(a: seq<(nat, nat)>, b: seq<(nat, nat)>, lo: nat, mid: nat, hi: nat)
    requires Tiles(a, lo, mid) && Tiles(b, mid, hi)
    ensures Tiles(a + b, lo, hi)
    decreases |a|
  {
    if a == [] {
      assert a + b == b;
    } else {
      TilesAppend(a[1..], b, lo + a[0].1, mid, hi);
      assert (a + b)[1..] == a[1..] + b;
    }
  }

  /** The nodes of a copied tree tile its block: disjoint, inside, and leaving nothing out. */
  lemma {:induction false} NodesTile<V>(t: Ast<V>, at: nat)
    ensures Tiles(Nodes(t, at), at, at + Size(t))
    decreases t, 1
  {
    if t.Leaf? {
      assert Nodes(t, at)[1..] == [];
    } else {
      NodesBelowTile(t, at + NodeSize(t), |t.children|);
      assert Nodes(t, at)[1..] == NodesBelow(t, at + NodeSize(t), |t.children|);
    }
  }

  lemma {:induction false} NodesBelowTile<V>(t: Ast<V>, base: nat, n: nat)
    requires t.Tree? && n <= |t.children|
    ensures Tiles(NodesBelow(t, base, n), base, base + SizeBelow(t, n))
    decreases t, 0, n
  {
    if n > 0 {
      NodesBelowTile(t, base, n - 1);
      if t.children[n - 1].Some? {
        NodesTile(t.children[n - 1].value, base + SizeBelow(t, n - 1));
        TilesAppend(NodesBelow(t, base, n - 1), Nodes(t.children[n - 1].value, base + SizeBelow(t, n - 1)),
                    base, base + SizeBelow(t, n - 1), base + SizeBelow(t, n));
      }
    }
  }

  lemma {:induction false} TilesDisjoint(rs: seq<(nat, nat)>, lo: nat, hi: nat, i: nat, j: nat)
    requires Tiles(rs, lo, hi) && i < j < |rs|
    ensures lo <= rs[i].0 && rs[i].0 + rs[i].1 <= rs[j].0 && rs[j].0 + rs[j].1 <= hi
    decreases |rs|
  {
    if i > 0 {
      TilesDisjoint(rs[1..], lo + rs[0].1, hi, i - 1, j - 1);
    } else {
      TileInside(rs[1..], lo + rs[0].1, hi, j - 1);
    }
  }

  lemma {:induction false} TileInside(rs: seq<(nat, nat)>, lo: nat, hi: nat, j: nat)
    requires Tiles(rs, lo, hi) && j < |rs|
    ensures lo <= rs[j].0 && rs[j].0 + rs[j].1 <= hi
    decreases |rs|
  {
    if j > 0 {
      TileInside(rs[1..], lo + rs[0].1, hi, j - 1);
    } else {
      TilesOrdered(rs[1..], lo + rs[0].1, hi);
    }
  }

  lemma {:induction false} TilesOrdered(rs: seq<(nat, nat)>, lo: nat, hi: nat)
    requires Tiles(rs, lo, hi)
    ensures lo <= hi
    decreases |rs|
  {
    if rs != [] {
      TilesOrdered(rs[1..], lo + rs[0].1, hi);
    }
  }

  // ---- What copying values means -------------------------------------------------------------

  /** The values of a tree, with the kinds of their nodes, from left to right. */
  function Leaves<V>(t: Ast<V>): seq<(nat, V)>
    decreases t, 0
  {
    if t.Leaf? then [(t.kind, t.v)] else LeavesBelow(t, |t.children|)
  }

  function LeavesBelow<V>(t: Ast<V>, n: nat): seq<(nat, V)>
    requires t.Tree? && n <= |t.children|
    decreases t, 0, n
  {
    if n == 0 then []
    else if t.children[n - 1].Some? then LeavesBelow(t, n - 1) + Leaves(t.children[n - 1].value)
    else LeavesBelow(t, n - 1)
  }

  /** The copy has the copied values, in their places, each copied with its kind. */
  lemma {:induction false} LeavesCopied<V>(copy: (nat, V) -> V, t: Ast<V>)
    ensures var (a, b) := (Leaves(t), Leaves(Copied(copy, t)));
            |a| == |b| && forall i :: 0 <= i < |a| ==> b[i] == (a[i].0, copy(a[i].0, a[i].1))
    decreases t, 1
  {
    if t.Tree? {
      LeavesCopiedBelow(copy, t, |t.children|);
    }
  }

  lemma {:induction false} LeavesCopiedBelow<V>(copy: (nat, V) -> V, t: Ast<V>, n: nat)
    requires t.Tree? && n <= |t.children|
    ensures var (a, b) := (LeavesBelow(t, n), LeavesBelow(Copied(copy, t), n));
            |a| == |b| && forall i :: 0 <= i < |a| ==> b[i] == (a[i].0, copy(a[i].0, a[i].1))
    decreases t, 0, n
  {
    if n > 0 {
      LeavesCopiedBelow(copy, t, n - 1);
      CopiedChild(copy, t, n - 1);
      if t.children[n - 1].Some? {
        LeavesCopied(copy, t.children[n - 1].value);
      }
    }
  }

  lemma {:induction false} CopiedChild<V>(copy: (nat, V) -> V, t: Ast<V>, i: nat)
    requires t.Tree? && i < |t.children|
    ensures Copied(copy, t).Tree? && |Copied(copy, t).children| == |t.children|
    ensures Copied(copy, t).children[i] ==
            if t.children[i].Some? then Some(Copied(copy, t.children[i].value)) else None
  {
    CopiedBelowAt(copy, t, |t.children|, i);
  }

  lemma {:induction false} CopiedBelowAt<V>(copy: (nat, V) -> V, t: Ast<V>, n: nat, i: nat)
    requires t.Tree? && i < n <= |t.children|
    ensures CopiedBelow(copy, t, n)[i] ==
            if t.children[i].Some? then Some(Copied(copy, t.children[i].value)) else None
    decreases n
  {
    if i < n - 1 {
      CopiedBelowAt(copy, t, n - 1, i);
    }
  }

  /** Copying that leaves the values alone leaves the tree alone: kinds, attributes and shape are kept. */
  lemma {:induction false} CopiedIdentity<V>(copy: (nat, V) -> V, t: Ast<V>)
    requires forall kind, v :: copy(kind, v) == v
    ensures Copied(copy, t) == t
    decreases t
  {
    if t.Tree? {
      var c := Copied(copy, t);
      forall i | 0 <= i < |t.children|
        ensures |c.children| == |t.children| && c.children[i] == t.children[i]
      {
        CopiedChild(copy, t, i);
        if t.children[i].Some? {
          CopiedIdentity(copy, t.children[i].value);
        }
      }
      assert c.children == t.children;
    }
  }
}
