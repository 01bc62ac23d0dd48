/** Stable sorting by a numeric key, as the standard library's sort_by_key. */
module SortedLists {

  predicate SortedBy<T>(s: seq<T>, key: T -> nat) {
    forall i, j | 0 <= i < j < |s| :: key(s[i]) <= key(s[j])
  }

  predicate StrictlySortedBy<T>(s: seq<T>, key: T -> nat) {
    forall i, j | 0 <= i < j < |s| :: key(s[i]) < key(s[j])
  }

  /** No two positions share a key. */
  predicate DistinctBy<T>(s: seq<T>, key: T -> nat) {
    forall i, j | 0 <= i < j < |s| :: key(s[i]) != key(s[j])
  }

  /** x placed behind every element of s whose key is not larger. */
  function Insert<T>(x: T, s: seq<T>, key: T -> nat): seq<T> {
    if s == [] || key(s[|s| - 1]) <= key(x) then s + [x]
    else Insert(x, s[..|s| - 1], key) + [s[|s| - 1]]
  }

  /** Stable sort: equal keys keep their order. */
  function SortBy<T>(s: seq<T>, key: T -> nat): seq<T> {
    if s == [] then [] else Insert(s[|s| - 1], SortBy(s[..|s| - 1], key), key)
  }

  /** The elements of a list. */
  ghost function Elements<T>(s: seq<T>): set<T> {
    set i | 0 <= i < |s| :: s[i]
  }

  lemma {:induction false} InsertKeeps<T>(x: T, s: seq<T>, key: T -> nat)
    ensures multiset(Insert(x, s, key)) == multiset(s) + multiset{x}
  {
    if s == [] || key(s[|s| - 1]) <= key(x) {
    } else {
      assert s == s[..|s| - 1] + [s[|s| - 1]];
      InsertKeeps(x, s[..|s| - 1], key);
    }
  }

  lemma {:induction false} InsertSorted<T>(x: T, s: seq<T>, key: T -> nat)
    requires SortedBy(s, key)
    ensures SortedBy(Insert(x, s, key), key)
  {
    if s == [] || key(s[|s| - 1]) <= key(x) {
    } else {
      var last, front := s[|s| - 1], s[..|s| - 1];
      var inner := Insert(x, front, key);
      InsertSorted(x, front, key);
      InsertKeeps(x, front, key);
      forall i | 0 <= i < |inner| ensures key(inner[i]) <= key(last) {
        assert inner[i] in multiset(inner);
        assert inner[i] == x || inner[i] in front;
      }
    }
  }

  /** The result is sorted and a permutation of the input. */
  lemma {:induction false} SortByCorrect<T>(s: seq<T>, key: T -> nat)
    ensures SortedBy(SortBy(s, key), key)
    ensures multiset(SortBy(s, key)) == multiset(s) && |SortBy(s, key)| == |s|
  {
    if s != [] {
      var front := s[..|s| - 1];
      assert s == front + [s[|s| - 1]];
      SortByCorrect(front, key);
      InsertSorted(s[|s| - 1], SortBy(front, key), key);
      InsertKeeps(s[|s| - 1], SortBy(front, key), key);
      assert |multiset(SortBy(s, key))| == |multiset(s)|;
    }
  }

  lemma {:induction false} DistinctCount<T>(s: seq<T>, key: T -> nat, x: T)
    requires DistinctBy(s, key)
    ensures multiset(s)[x] <= 1
  {
    if s != [] {
      var front := s[..|s| - 1];
      assert s == front + [s[|s| - 1]];
      DistinctCount(front, key, x);
      forall i | 0 <= i < |front| ensures front[i] != s[|s| - 1] {
        assert key(s[i]) != key(s[|s| - 1]);
      }
      assert s[|s| - 1] !in front;
    }
  }

  /** Distinctness of keys is a property of the multiset of elements. */
  lemma DistinctPermuted<T>(a: seq<T>, b: seq<T>, key: T -> nat)
    requires DistinctBy(a, key) && multiset(a) == multiset(b)
    ensures DistinctBy(b, key)
  {
    forall i, j | 0 <= i < j < |b| ensures key(b[i]) != key(b[j]) {
      assert b[i] in multiset(b) && b[j] in multiset(b);
      assert b[i] in a && b[j] in a;
      if b[i] == b[j] {
        TwoOccurrences(b, i, j);
        DistinctCount(a, key, b[i]);
      }
    }
  }

  lemma TwoOccurrences<T>(s: seq<T>, i: nat, j: nat)
    requires i < j < |s| && s[i] == s[j]
    ensures multiset(s)[s[i]] >= 2
  {
    assert s == s[..j] + [s[j]] + s[j + 1..];
    assert s[..j][i] == s[i];
    assert s[i] in multiset(s[..j]);
  }

  /** Distinct keys come out in strictly ascending order. */
  lemma SortDistinct<T>(s: seq<T>, key: T -> nat)
    requires DistinctBy(s, key)
    ensures StrictlySortedBy(SortBy(s, key), key)
  {
    SortByCorrect(s, key);
    DistinctPermuted(s, SortBy(s, key), key);
  }

  /** A strictly ascending list is determined by its elements. */
  lemma {:induction false} StrictlySortedUnique<T>(a: seq<T>, b: seq<T>, key: T -> nat)
    requires StrictlySortedBy(a, key) && StrictlySortedBy(b, key)
    requires Elements(a) == Elements(b)
    ensures a == b
  {
    if b != [] {
      assert b[0] in Elements(b);
    }
    if a != [] {
      var x := a[|a| - 1];
      assert x in Elements(b);
      var y := b[|b| - 1];
      assert y in Elements(a);
      assert key(x) == key(y);
      LastRemoved(a, key);
      LastRemoved(b, key);
      StrictlySortedUnique(a[..|a| - 1], b[..|b| - 1], key);
      assert a == a[..|a| - 1] + [x] && b == b[..|b| - 1] + [y];
    }
  }

  lemma LastRemoved<T>(a: seq<T>, key: T -> nat)
    requires a != [] && StrictlySortedBy(a, key)
    ensures Elements(a[..|a| - 1]) == Elements(a) - {a[|a| - 1]}
  {
    var front, last := a[..|a| - 1], a[|a| - 1];
    forall i | 0 <= i < |front| ensures front[i] != last {
      assert key(a[i]) < key(last);
    }
    forall x | x in Elements(a) - {last} ensures x in Elements(front) {
      var i :| 0 <= i < |a| && a[i] == x;
      assert front[i] == x;
    }
  }

  /** With distinct keys, sorting depends on the elements only, not on their order. */
  lemma SortCanonical<T>(a: seq<T>, b: seq<T>, key: T -> nat)
    requires DistinctBy(a, key) && multiset(a) == multiset(b)
    ensures SortBy(a, key) == SortBy(b, key)
  {
    var sa, sb := SortBy(a, key), SortBy(b, key);
    SortDistinct(a, key);
    DistinctPermuted(a, b, key);
    SortDistinct(b, key);
    SortByCorrect(a, key);
    SortByCorrect(b, key);
    SameElements(sa, sb);
    StrictlySortedUnique(sa, sb, key);
  }

  lemma SameElements<T>(a: seq<T>, b: seq<T>)
    requires multiset(a) == multiset(b)
    ensures Elements(a) == Elements(b)
  {
    forall x ensures x in Elements(a) <==> x in Elements(b) {
      assert x in Elements(a) <==> x in multiset(a);
      assert x in Elements(b) <==> x in multiset(b);
    }
  }
}
