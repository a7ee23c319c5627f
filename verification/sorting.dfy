/** Sorting in non-increasing order of an integer key, the way the program sorts with
    `sort_by(|a, b| b.cmp(a))`. When the key is injective (it is for every key used here)
    a sorted permutation is unique, so the particular sorting algorithm does not matter. */
module Sorting {

  /** `s` is in non-increasing order of `key`. */
  ghost predicate SortedBy<T>(s: seq<T>, key: T -> int) {
    forall i, j :: 0 <= i < j < |s| ==> key(s[j]) <= key(s[i])
  }

  ghost predicate Injective<T(!new)>(key: T -> int) {
    forall a, b :: key(a) == key(b) ==> a == b
  }

  /** Each element's key is at most its predecessor's, hence at most every earlier one's. */
  lemma StepwiseSorted<T>(s: seq<T>, key: T -> int)
    requires forall i :: 0 <= i < |s| - 1 ==> key(s[i + 1]) <= key(s[i])
    ensures SortedBy(s, key)
  {
    forall i, j | 0 <= i < j < |s| ensures key(s[j]) <= key(s[i]) {
      var k := i;
      while k < j
        invariant i <= k <= j && key(s[k]) <= key(s[i])
      {
        k := k + 1;
      }
    }
  }

  /** Inserts `x` into `s` in front of the first element whose key is not above `x`'s. */
  function Insert<T>(x: T, s: seq<T>, key: T -> int): (r: seq<T>)
    ensures multiset(r) == multiset(s) + multiset{x}
  {
    if |s| == 0 then [x]
    else if key(s[0]) <= key(x) then [x] + s
    else
      assert s == [s[0]] + s[1..];
      [s[0]] + Insert(x, s[1..], key)
  }

  /** Putting an element in front of a sorted sequence none of whose keys is above its own
      keeps it sorted. */
  lemma ConsSorted<T>(h: T, t: seq<T>, key: T -> int)
    requires SortedBy(t, key)
    requires forall i :: 0 <= i < |t| ==> key(t[i]) <= key(h)
    ensures SortedBy([h] + t, key)
  {
    var r := [h] + t;
    forall i, j | 0 <= i < j < |r| ensures key(r[j]) <= key(r[i]) {
      assert r[j] == t[j - 1];
      if i > 0 {
        assert r[i] == t[i - 1];
      }
    }
  }

  /** Inserting keeps every key under a common bound. */
  lemma {:induction false} InsertBounded<T>(x: T, s: seq<T>, key: T -> int, b: int)
    requires key(x) <= b
    requires forall i :: 0 <= i < |s| ==> key(s[i]) <= b
    ensures forall i :: 0 <= i < |Insert(x, s, key)| ==> key(Insert(x, s, key)[i]) <= b
  {
    if |s| > 0 && key(x) < key(s[0]) {
      InsertBounded(x, s[1..], key, b);
      var rest := Insert(x, s[1..], key);
      assert Insert(x, s, key) == [s[0]] + rest;
      assert forall i :: 1 <= i < |rest| + 1 ==> Insert(x, s, key)[i] == rest[i - 1];
    }
  }

  lemma {:induction false} InsertSorted<T>(x: T, s: seq<T>, key: T -> int)
    requires SortedBy(s, key)
    ensures SortedBy(Insert(x, s, key), key)
  {
    if |s| == 0 {
    } else if key(s[0]) <= key(x) {
      ConsSorted(x, s, key);
    } else {
      var t := s[1..];
      TailSorted(s, key);
      InsertSorted(x, t, key);
      assert forall i :: 0 <= i < |t| ==> t[i] == s[i + 1];
      InsertBounded(x, t, key, key(s[0]));
      ConsSorted(s[0], Insert(x, t, key), key);
    }
  }

  /** Insertion sort, non-increasing in `key`. */
  function SortDesc<T>(s: seq<T>, key: T -> int): (r: seq<T>)
    ensures multiset(r) == multiset(s)
    ensures SortedBy(r, key)
  {
    if |s| == 0 then []
    else
      assert s == [s[0]] + s[1..];
      InsertSorted(s[0], SortDesc(s[1..], key), key);
      Insert(s[0], SortDesc(s[1..], key), key)
  }

  /** The head of a sorted sequence has the largest key. */
  lemma HeadIsMax<T>(s: seq<T>, key: T -> int, e: T)
    requires SortedBy(s, key)
    requires e in s
    ensures key(e) <= key(s[0])
  {
    var i :| 0 <= i < |s| && s[i] == e;
    if i > 0 {
      assert key(s[i]) <= key(s[0]);
    }
  }

  lemma TailSorted<T>(s: seq<T>, key: T -> int)
    requires SortedBy(s, key) && |s| > 0
    ensures SortedBy(s[1..], key)
  {
    forall i, j | 0 <= i < j < |s| - 1 ensures key(s[1..][j]) <= key(s[1..][i]) {
      assert s[1..][j] == s[j + 1] && s[1..][i] == s[i + 1];
    }
  }

  /** Sorted arrangements of the same elements start with the same element. */
  lemma SameHead<T(!new)>(a: seq<T>, b: seq<T>, key: T -> int)
    requires Injective(key)
    requires SortedBy(a, key) && SortedBy(b, key)
    requires multiset(a) == multiset(b) && |a| > 0
    ensures |b| > 0 && a[0] == b[0]
  {
    assert a[0] in multiset(b);
    assert b[0] in multiset(a);
    HeadIsMax(b, key, a[0]);
    HeadIsMax(a, key, b[0]);
  }

  /** Two sorted arrangements of the same elements coincide when the key is injective. */
  lemma {:induction false} SortedUnique<T(!new)>(a: seq<T>, b: seq<T>, key: T -> int)
    requires Injective(key)
    requires SortedBy(a, key) && SortedBy(b, key)
    requires multiset(a) == multiset(b)
    ensures a == b
  {
    assert |a| == |multiset(a)| == |b|;
    if |a| > 0 {
      SameHead(a, b, key);
      assert a == [a[0]] + a[1..] && b == [b[0]] + b[1..];
      assert multiset(a[1..]) == multiset(a) - multiset{a[0]};
      assert multiset(b[1..]) == multiset(b) - multiset{b[0]};
      TailSorted(a, key);
      TailSorted(b, key);
      SortedUnique(a[1..], b[1..], key);
    }
  }

  /** Without repeated elements, every element occurs at most once. */
  lemma {:induction false} DistinctMultiplicity<T>(s: seq<T>)
    requires forall i, j :: 0 <= i < j < |s| ==> s[i] != s[j]
    ensures forall e :: multiset(s)[e] <= 1
  {
    if |s| > 0 {
      assert s == [s[0]] + s[1..];
      DistinctMultiplicity(s[1..]);
      assert s[0] !in s[1..];
    }
  }

  /** An element found at two indices occurs at least twice. */
  lemma RepeatMultiplicity<T>(s: seq<T>, i: nat, j: nat)
    requires i < j < |s| && s[i] == s[j]
    ensures multiset(s)[s[i]] >= 2
  {
    assert s == s[..j] + s[j..];
    assert s[i] in s[..j] && s[j] in s[j..];
    assert multiset(s) == multiset(s[..j]) + multiset(s[j..]);
  }

  /** A sorted sequence without repeated elements is strictly sorted (for an injective key). */
  lemma SortedDistinctIsStrict<T(!new)>(s: seq<T>, key: T -> int)
    requires Injective(key) && SortedBy(s, key)
    requires forall e :: multiset(s)[e] <= 1
    ensures forall i, j :: 0 <= i < j < |s| ==> key(s[j]) < key(s[i])
  {
    forall i, j | 0 <= i < j < |s| ensures key(s[j]) < key(s[i]) {
      if key(s[j]) == key(s[i]) {
        RepeatMultiplicity(s, i, j);
      }
    }
  }
}
