/** Sequence helpers shared by several components: a stable sort by an integer
    key and the "last occurrence of each key" projection. */
module Sequences {

  ghost function Elements<T>(s: seq<T>): set<T> { set x | x in s }

  predicate StartsWith<T(==)>(s: seq<T>, prefix: seq<T>) { prefix <= s }

  ghost predicate Distinct<T(!new)>(s: seq<T>) {
    forall i, j :: 0 <= i < j < |s| ==> s[i] != s[j]
  }

  ghost predicate SortedBy<T(!new)>(s: seq<T>, key: T -> int) {
    forall i, j :: 0 <= i < j < |s| ==> key(s[i]) <= key(s[j])
  }

  ghost predicate StrictlySorted(s: seq<int>) {
    forall i, j :: 0 <= i < j < |s| ==> s[i] < s[j]
  }

  /** Insert `x` in front of the first element whose key is not smaller. */
  function Insert<T>(x: T, s: seq<T>, key: T -> int): (r: seq<T>)
    ensures multiset(r) == multiset(s) + multiset{x}
    ensures |r| == |s| + 1
  {
    if s == [] || key(x) <= key(s[0]) then
      assert s == [] || s == [s[0]] + s[1..];
      [x] + s
    else
      assert s == [s[0]] + s[1..];
      [s[0]] + Insert(x, s[1..], key)
  }

  /** Stable sort by an integer key. */
  function SortByKey<T>(s: seq<T>, key: T -> int): (r: seq<T>)
    ensures multiset(r) == multiset(s)
    ensures |r| == |s|
  {
    if s == [] then [] else
      assert s == [s[0]] + s[1..];
      Insert(s[0], SortByKey(s[1..], key), key)
  }

  lemma InSameMultiset<T>(a: seq<T>, b: seq<T>, x: T)
    requires multiset(a) == multiset(b)
    ensures x in a <==> x in b
  {
    assert x in a <==> x in multiset(a);
    assert x in b <==> x in multiset(b);
  }

  lemma {:induction false} InsertSorted<T(!new)>(x: T, s: seq<T>, key: T -> int)
    requires SortedBy(s, key)
    ensures SortedBy(Insert(x, s, key), key)
  {
    if s != [] && key(x) > key(s[0]) {
      var tail := Insert(x, s[1..], key);
      InsertSorted(x, s[1..], key);
      forall y | y in tail ensures key(s[0]) <= key(y) {
        assert y in multiset(tail);
        assert y == x || y in s[1..];
      }
    }
  }

  lemma {:induction false} SortByKeySorted<T(!new)>(s: seq<T>, key: T -> int)
    ensures SortedBy(SortByKey(s, key), key)
  {
    if s == [] {
    } else {
      SortByKeySorted(s[1..], key);
      InsertSorted(s[0], SortByKey(s[1..], key), key);
    }
  }

  /** Two strictly sorted sequences with the same elements are equal. */
  lemma {:induction false} StrictlySortedUnique(a: seq<int>, b: seq<int>)
    requires StrictlySorted(a) && StrictlySorted(b)
    requires forall x :: x in a <==> x in b
    ensures a == b
  {
    assert |a| > 0 ==> a[0] in a;
    assert |b| > 0 ==> b[0] in b;
    if a == [] {
    } else {
      forall x ensures x in a[1..] <==> x in b[1..] {
        assert x in a <==> x == a[0] || x in a[1..];
        assert x in b <==> x == b[0] || x in b[1..];
      }
      StrictlySortedUnique(a[1..], b[1..]);
    }
  }

  /** Distinctness seen through multiplicities. */
  lemma {:induction false} DistinctMultiplicity<T(!new)>(s: seq<T>)
    ensures Distinct(s) <==> forall x :: multiset(s)[x] <= 1
  {
    if s == [] {
    } else {
      var t := s[1..];
      assert s == [s[0]] + t;
      DistinctMultiplicity(t);
      if Distinct(s) {
        assert s[0] !in t;
        assert multiset(t)[s[0]] == 0;
        assert forall x :: x != s[0] ==> multiset(s)[x] == multiset(t)[x];
      }
      if forall x :: multiset(s)[x] <= 1 {
        assert forall x :: multiset(t)[x] <= multiset(s)[x];
        assert multiset(s)[s[0]] == 1 + multiset(t)[s[0]];
        assert s[0] !in t;
      }
    }
  }

  lemma HasElement<T>(s: seq<T>)
    requires s != []
    ensures exists x :: x in s
  {
    assert s[0] in s;
  }

  lemma NoElements<T(!new)>(s: seq<T>)
    requires forall x :: x !in s
    ensures s == []
  {
    if s != [] { HasElement(s); }
  }

  lemma Associative<T>(a: seq<T>, b: seq<T>, c: seq<T>)
    ensures a + (b + c) == (a + b) + c
  {
  }

  /** The elements satisfying `p`, in order. */
  function Keep<T(!new)>(s: seq<T>, p: T -> bool): (r: seq<T>)
    ensures forall x :: x in r <==> x in s && p(x)
    ensures |r| <= |s|
  {
    if s == [] then [] else
      assert s == [s[0]] + s[1..];
      (if p(s[0]) then [s[0]] else []) + Keep(s[1..], p)
  }

  lemma {:induction false} KeepSnoc<T(!new)>(s: seq<T>, x: T, p: T -> bool)
    ensures Keep(s + [x], p) == Keep(s, p) + if p(x) then [x] else []
  {
    var last := if p(x) then [x] else [];
    if s == [] {
      assert s + [x] == [x];
    } else {
      var first := if p(s[0]) then [s[0]] else [];
      assert (s + [x])[0] == s[0] && (s + [x])[1..] == s[1..] + [x];
      KeepSnoc(s[1..], x, p);
      Associative(first, Keep(s[1..], p), last);
    }
  }

  lemma {:induction false} KeepConcat<T(!new)>(a: seq<T>, b: seq<T>, p: T -> bool)
    ensures Keep(a + b, p) == Keep(a, p) + Keep(b, p)
  {
    if a == [] {
      assert a + b == b;
    } else {
      assert (a + b)[1..] == a[1..] + b;
      KeepConcat(a[1..], b, p);
    }
  }

  /** `i` is the last position of its key. */
  ghost predicate IsLast<K(!new)>(keys: seq<K>, i: int) {
    0 <= i < |keys| && forall j :: i < j < |keys| ==> keys[j] != keys[i]
  }

  /** The last position of every key that `wanted` accepts, from position `from`
      on, in increasing order. */
  ghost function LastPositions<K(!new)>(keys: seq<K>, wanted: K -> bool, from: nat): (r: seq<int>)
    requires from <= |keys|
    ensures StrictlySorted(r)
    ensures forall i :: i in r <==> from <= i && IsLast(keys, i) && wanted(keys[i])
    decreases |keys| - from
  {
    if from == |keys| then [] else
      var rest := LastPositions(keys, wanted, from + 1);
      assert forall j :: 0 <= j < |rest| ==> rest[j] in rest;
      assert forall x :: x in rest ==> from < x;
      if IsLast(keys, from) && wanted(keys[from]) then [from] + rest else rest
  }

  function Tag<V>(x: (int, V)): int { x.0 }

  /** The tags of a tag-sorted sequence without duplicates are exactly `positions`. */
  lemma TagsOfSorted<V(!new)>(r: seq<(int, V)>, positions: seq<int>, at: int -> V, tags: seq<int>)
    requires Distinct(r) && SortedBy(r, Tag)
    requires StrictlySorted(positions)
    requires forall x :: x in r <==> x.0 in positions && x.1 == at(x.0)
    requires |tags| == |r| && forall i :: 0 <= i < |r| ==> tags[i] == r[i].0
    ensures tags == positions
  {
    assert forall i :: 0 <= i < |r| ==> r[i] in r && r[i].1 == at(tags[i]);
    assert forall i, j :: 0 <= i < j < |r| ==> Tag(r[i]) <= Tag(r[j]) && r[i] != r[j];
    assert StrictlySorted(tags);
    forall t ensures t in tags <==> t in positions {
      if t in positions {
        assert (t, at(t)) in r;
        var i :| 0 <= i < |r| && r[i] == (t, at(t));
        assert tags[i] == t;
      }
    }
    StrictlySortedUnique(tags, positions);
  }

  /** Sorting tagged values by their tag puts them in the order of the tags. */
  lemma SortedByTag<V(!new)>(tagged: seq<(int, V)>, positions: seq<int>, at: int -> V)
    requires Distinct(tagged)
    requires StrictlySorted(positions)
    requires forall x :: x in tagged <==> x.0 in positions && x.1 == at(x.0)
    ensures var r := SortByKey(tagged, Tag);
            |r| == |positions| && forall i :: 0 <= i < |r| ==> r[i] == (positions[i], at(positions[i]))
  {
    var r := SortByKey(tagged, Tag);
    SortByKeySorted(tagged, Tag);
    DistinctMultiplicity(tagged);
    DistinctMultiplicity(r);
    forall x ensures x in r <==> x in tagged { InSameMultiset(r, tagged, x); }
    var tags := seq(|r|, i requires 0 <= i < |r| => r[i].0);
    TagsOfSorted(r, positions, at, tags);
    forall i | 0 <= i < |r| ensures r[i] == (positions[i], at(positions[i])) {
      assert r[i] in r && tags[i] == r[i].0;
    }
  }
}
