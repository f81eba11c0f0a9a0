/**
 The insertion-ordered hash table that backs every shared property table.
 Updating an existing key keeps its position, a new key goes to the end.
 */
module OrderedTable {

  datatype Key = Index(i: int) | Name(s: string)

  datatype Table<V> = Table(order: seq<Key>, slots: map<Key, V>)

  predicate Distinct(ks: seq<Key>) {
    forall i, j :: 0 <= i < j < |ks| ==> ks[i] != ks[j]
  }

  function KeySet(ks: seq<Key>): set<Key> {
    set k | k in ks
  }

  ghost predicate Valid<V>(t: Table<V>) {
    Distinct(t.order) && KeySet(t.order) == t.slots.Keys
  }

  function Put<V>(t: Table<V>, k: Key, v: V): Table<V> {
    Table(if k in t.slots then t.order else t.order + [k], t.slots[k := v])
  }

  function Without(ks: seq<Key>, k: Key): (r: seq<Key>)
    ensures |r| <= |ks|
    ensures k !in ks ==> r == ks
  {
    if ks == [] then []
    else if ks[0] == k then Without(ks[1..], k)
    else [ks[0]] + Without(ks[1..], k)
  }

  function Del<V>(t: Table<V>, k: Key): Table<V> {
    Table(Without(t.order, k), t.slots - {k})
  }

  /** Removes the first n entries. */
  function DropFirst<V>(t: Table<V>, n: nat): Table<V>
    requires n <= |t.order|
  {
    Table(t.order[n..], t.slots - KeySet(t.order[..n]))
  }

  function DropLast<V>(t: Table<V>): Table<V>
    requires t.order != []
  {
    Table(t.order[..|t.order| - 1], t.slots - {t.order[|t.order| - 1]})
  }

  lemma {:induction false} WithoutKeeps(ks: seq<Key>, k: Key)
    requires Distinct(ks)
    ensures Distinct(Without(ks, k))
    ensures KeySet(Without(ks, k)) == KeySet(ks) - {k}
  {
    if ks != [] {
      WithoutKeeps(ks[1..], k);
      var r := Without(ks[1..], k);
      assert ks == [ks[0]] + ks[1..];
      assert forall x :: x in ks[1..] <==> x in KeySet(ks[1..]);
      if ks[0] != k {
        assert ks[0] !in ks[1..] && ks[0] !in KeySet(r);
        HeadDistinct(ks[0], r);
        assert Without(ks, k) == [ks[0]] + r;
      }
    }
  }

  lemma HeadDistinct(k: Key, ks: seq<Key>)
    requires Distinct(ks) && k !in KeySet(ks)
    ensures Distinct([k] + ks) && KeySet([k] + ks) == {k} + KeySet(ks)
  {
    assert forall x :: x in ks <==> x in KeySet(ks);
  }

  lemma PutValid<V>(t: Table<V>, k: Key, v: V)
    requires Valid(t)
    ensures Valid(Put(t, k, v))
  {
    if k !in t.slots {
      assert k !in KeySet(t.order);
      assert KeySet(t.order + [k]) == KeySet(t.order) + {k};
    }
  }

  lemma DelValid<V>(t: Table<V>, k: Key)
    requires Valid(t)
    ensures Valid(Del(t, k))
  {
    WithoutKeeps(t.order, k);
  }

  lemma DropFirstValid<V>(t: Table<V>, n: nat)
    requires Valid(t) && n <= |t.order|
    ensures Valid(DropFirst(t, n))
  {
    var a, b := t.order[..n], t.order[n..];
    assert t.order == a + b;
    assert forall x :: x in b ==> x !in a;
    assert KeySet(t.order) == KeySet(a) + KeySet(b);
    assert KeySet(b) == KeySet(t.order) - KeySet(a);
  }

  lemma DropLastValid<V>(t: Table<V>)
    requires Valid(t) && t.order != []
    ensures Valid(DropLast(t))
  {
    var n := |t.order| - 1;
    assert t.order == t.order[..n] + [t.order[n]];
    assert t.order[n] !in t.order[..n];
    assert KeySet(t.order) == KeySet(t.order[..n]) + {t.order[n]};
  }

  /** Deleting the key at the front, or at the back, is dropping that entry. */
  lemma {:induction false} DelEnds<V>(t: Table<V>)
    requires Valid(t) && t.order != []
    ensures Del(t, t.order[0]) == DropFirst(t, 1)
    ensures Del(t, t.order[|t.order| - 1]) == DropLast(t)
  {
    var n := |t.order| - 1;
    assert t.order[..1] == [t.order[0]];
    assert KeySet(t.order[..1]) == {t.order[0]};
    assert t.order[0] !in t.order[1..];
    WithoutLast(t.order);
  }

  lemma {:induction false} WithoutLast(ks: seq<Key>)
    requires Distinct(ks) && ks != []
    ensures Without(ks, ks[|ks| - 1]) == ks[..|ks| - 1]
  {
    if |ks| == 1 {
    } else {
      WithoutLast(ks[1..]);
      assert ks[1..][|ks| - 2] == ks[|ks| - 1];
      assert [ks[0]] + ks[1..][..|ks| - 2] == ks[..|ks| - 1];
    }
  }
}
