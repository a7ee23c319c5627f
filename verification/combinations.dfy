/** k-element selections of a sequence, as `itertools::combinations` produces them. */
module Combinatorics {

  /** `c` is made of elements of `s` taken at increasing indices. */
  ghost predicate IsSubseq<T>(c: seq<T>, s: seq<T>)
    decreases |s|
  {
    if |c| == 0 then true
    else if |s| == 0 then false
    else (c[0] == s[0] && IsSubseq(c[1..], s[1..])) || IsSubseq(c, s[1..])
  }

  function PrependAll<T>(x: T, cs: seq<seq<T>>): seq<seq<T>> {
    seq(|cs|, i requires 0 <= i < |cs| => [x] + cs[i])
  }

  /** `combinations(k)`: the k-element selections of `s` at increasing indices, those with
      the first element of `s` first, so the index tuples come in lexicographic order. */
  function Combinations<T>(s: seq<T>, k: nat): (cs: seq<seq<T>>)
    decreases |s|
    ensures forall i :: 0 <= i < |cs| ==> |cs[i]| == k
  {
    if k == 0 then [[]]
    else if |s| == 0 then []
    else PrependAll(s[0], Combinations(s[1..], k - 1)) + Combinations(s[1..], k)
  }

  /** The enumeration holds exactly the k-element selections. */
  lemma {:induction false} CombinationsAreSelections<T>(s: seq<T>, k: nat, c: seq<T>)
    ensures c in Combinations(s, k) <==> |c| == k && IsSubseq(c, s)
    decreases |s|
  {
    if k == 0 {
      assert c in Combinations(s, k) <==> c == [];
    } else if |s| > 0 {
      var first := PrependAll(s[0], Combinations(s[1..], k - 1));
      var rest := Combinations(s[1..], k);
      assert Combinations(s, k) == first + rest;
      CombinationsAreSelections(s[1..], k, c);
      if |c| > 0 {
        CombinationsAreSelections(s[1..], k - 1, c[1..]);
        if c in first {
          var i :| 0 <= i < |first| && first[i] == c;
          assert c[1..] == Combinations(s[1..], k - 1)[i];
        }
        if c[0] == s[0] && c[1..] in Combinations(s[1..], k - 1) {
          var i :| 0 <= i < |Combinations(s[1..], k - 1)| && Combinations(s[1..], k - 1)[i] == c[1..];
          assert first[i] == [s[0]] + c[1..] == c;
        }
      }
    }
  }

  lemma {:induction false} SubseqLength<T>(c: seq<T>, s: seq<T>)
    requires IsSubseq(c, s)
    ensures |c| <= |s|
    decreases |s|
  {
    if |c| > 0 {
      if c[0] == s[0] && IsSubseq(c[1..], s[1..]) {
        SubseqLength(c[1..], s[1..]);
      } else {
        SubseqLength(c, s[1..]);
      }
    }
  }

  /** A selection uses each element of `s` at most as often as `s` holds it. */
  lemma {:induction false} SubseqMultiset<T>(c: seq<T>, s: seq<T>)
    requires IsSubseq(c, s)
    ensures multiset(c) <= multiset(s)
    decreases |s|
  {
    if |c| > 0 {
      assert s == [s[0]] + s[1..];
      if c[0] == s[0] && IsSubseq(c[1..], s[1..]) {
        SubseqMultiset(c[1..], s[1..]);
        assert c == [c[0]] + c[1..];
      } else {
        SubseqMultiset(c, s[1..]);
      }
    }
  }

  lemma {:induction false} PrefixIsSubseq<T>(s: seq<T>, k: nat)
    requires k <= |s|
    ensures IsSubseq(s[..k], s)
    decreases |s|
  {
    if k > 0 {
      assert s[..k][1..] == s[1..][..k - 1];
      PrefixIsSubseq(s[1..], k - 1);
    }
  }

  /** There is a k-element selection exactly when `s` has at least k elements. */
  lemma CombinationsNonEmpty<T>(s: seq<T>, k: nat)
    ensures |Combinations(s, k)| > 0 <==> k <= |s|
  {
    if k <= |s| {
      PrefixIsSubseq(s, k);
      CombinationsAreSelections(s, k, s[..k]);
    }
    if |Combinations(s, k)| > 0 {
      var c := Combinations(s, k)[0];
      CombinationsAreSelections(s, k, c);
      SubseqLength(c, s);
    }
  }
}
