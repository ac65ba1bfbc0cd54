/** A result sorted on distinct keys is determined by its elements. */
module Sorting {
  ghost predicate Sorted<T(!new)>(s: seq<T>, key: T -> int) {
    forall i, j :: 0 <= i < j < |s| ==> key(s[i]) <= key(s[j])
  }

  ghost predicate StrictlySorted<T(!new)>(s: seq<T>, key: T -> int) {
    forall i, j :: 0 <= i < j < |s| ==> key(s[i]) < key(s[j])
  }

  lemma {:induction false} SortedOnDistinctKeys<T(!new)>(a: seq<T>, b: seq<T>, key: T -> int)
    requires multiset(a) == multiset(b) && Sorted(a, key) && StrictlySorted(b, key)
    ensures a == b
  {
    SameLength(a, b);
    if a != [] {
      SameFirst(a, b, key);
      SameRest(a, b);
      RestSorted(a, b, key);
      SortedOnDistinctKeys(a[1..], b[1..], key);
      SameWhole(a, b);
    }
  }

  lemma SameRest<T>(a: seq<T>, b: seq<T>)
    requires a != [] && b != [] && a[0] == b[0] && multiset(a) == multiset(b)
    ensures multiset(a[1..]) == multiset(b[1..])
  {
    ElementsOfRest(a);
    ElementsOfRest(b);
  }

  lemma SameWhole<T>(a: seq<T>, b: seq<T>)
    requires a != [] && b != [] && a[0] == b[0] && a[1..] == b[1..]
    ensures a == b
  {
    assert a == [a[0]] + a[1..] && b == [b[0]] + b[1..];
  }

  lemma SameLength<T>(a: seq<T>, b: seq<T>)
    requires multiset(a) == multiset(b)
    ensures |a| == |b|
  {
    assert |multiset(a)| == |a| && |multiset(b)| == |b|;
  }

  lemma RestSorted<T(!new)>(a: seq<T>, b: seq<T>, key: T -> int)
    requires a != [] && b != [] && Sorted(a, key) && StrictlySorted(b, key)
    ensures Sorted(a[1..], key) && StrictlySorted(b[1..], key)
  {
  }

  lemma ElementsOfRest<T>(s: seq<T>)
    requires s != []
    ensures multiset(s[1..]) == multiset(s) - multiset{s[0]}
  {
    assert s == [s[0]] + s[1..];
  }

  /** Taking out one occurrence, wherever it is. */
  lemma ElementsWithout<T>(s: seq<T>, i: nat)
    requires i < |s|
    ensures multiset(s[..i] + s[i + 1..]) == multiset(s) - multiset{s[i]}
  {
    assert s == s[..i] + [s[i]] + s[i + 1..];
  }

  lemma SameFirst<T(!new)>(a: seq<T>, b: seq<T>, key: T -> int)
    requires a != [] && b != [] && multiset(a) == multiset(b) && Sorted(a, key) && StrictlySorted(b, key)
    ensures a[0] == b[0]
  {
    assert b[0] in multiset(a) && a[0] in multiset(b);
    var i :| 0 <= i < |a| && a[i] == b[0];
    var j :| 0 <= j < |b| && b[j] == a[0];
  }
}
