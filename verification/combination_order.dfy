/** The order in which `itertools::combinations` yields its selections: lexicographic in
    the index tuples. */
module CombinationOrder {
  import opened Ordering
  import opened Combinatorics

  /** The first element of a non-empty selection is an element of `s`. */
  lemma {:induction false} SubseqHead<T>(c: seq<T>, s: seq<T>)
    requires |c| > 0 && IsSubseq(c, s)
    ensures c[0] in s
    decreases |s|
  {
    if c[0] != s[0] || !IsSubseq(c[1..], s[1..]) {
      SubseqHead(c, s[1..]);
    }
  }

  /** The indices `lo`, `lo + 1`, ..., `hi - 1`. */
  function Range(lo: int, hi: int): seq<int>
    requires lo <= hi
  {
    seq(hi - lo, i requires 0 <= i < hi - lo => lo + i)
  }

  predicate Ascending(s: seq<int>) {
    forall i, j :: 0 <= i < j < |s| ==> s[i] < s[j]
  }

  /** Every index of `idx` is an index of a sequence of length `n`. */
  predicate InBounds(idx: seq<int>, n: int) {
    forall j :: 0 <= j < |idx| ==> 0 <= idx[j] < n
  }

  /** The elements of `s` at the indices `idx`, in order. */
  function Pick<T>(s: seq<T>, idx: seq<int>): seq<T>
    requires InBounds(idx, |s|)
  {
    seq(|idx|, j requires 0 <= j < |idx| => s[idx[j]])
  }

  /** Over an ascending sequence of integers the combinations come out in strictly
      increasing lexicographic order. */
  lemma {:induction false} CombinationsAscending(s: seq<int>, k: nat)
    requires Ascending(s)
    ensures forall i, j :: 0 <= i < j < |Combinations(s, k)| ==>
              LexCmp(Combinations(s, k)[i], Combinations(s, k)[j]) == Less
    decreases |s|
  {
    if k > 0 && |s| > 0 {
      var t := s[1..];
      var a := Combinations(t, k - 1);
      var b := Combinations(t, k);
      var first := PrependAll(s[0], a);
      var cs := Combinations(s, k);
      assert cs == first + b;
      CombinationsAscending(t, k - 1);
      CombinationsAscending(t, k);
      forall i, j | 0 <= i < j < |cs| ensures LexCmp(cs[i], cs[j]) == Less {
        if j < |first| {
          assert cs[i][1..] == a[i] && cs[j][1..] == a[j];
        } else if i >= |first| {
          assert cs[i] == b[i - |first|] && cs[j] == b[j - |first|];
        } else {
          var c := b[j - |first|];
          CombinationsAreSelections(t, k, c);
          SubseqHead(c, t);
          assert cs[i][0] == s[0] < c[0];
        }
      }
    }
  }

  /** Picking at the combinations of the indices commutes with the split of `Combinations`
      into those with the first element and those without it. */
  lemma PickSplit<T>(s: seq<T>, lo: nat, a: seq<seq<T>>, ia: seq<seq<int>>, b: seq<seq<T>>, ib: seq<seq<int>>)
    requires lo < |s| && |a| == |ia| && |b| == |ib|
    requires forall i :: 0 <= i < |a| ==> InBounds(ia[i], |s|) && a[i] == Pick(s, ia[i])
    requires forall i :: 0 <= i < |b| ==> InBounds(ib[i], |s|) && b[i] == Pick(s, ib[i])
    ensures |PrependAll(s[lo], a) + b| == |PrependAll(lo, ia) + ib|
    ensures forall i :: 0 <= i < |PrependAll(s[lo], a) + b| ==>
              && InBounds((PrependAll(lo, ia) + ib)[i], |s|)
              && (PrependAll(s[lo], a) + b)[i] == Pick(s, (PrependAll(lo, ia) + ib)[i])
  {
    var cs, ix := PrependAll(s[lo], a) + b, PrependAll(lo, ia) + ib;
    forall i | 0 <= i < |cs|
      ensures InBounds(ix[i], |s|) && cs[i] == Pick(s, ix[i])
    {
      if i < |a| {
        assert ix[i] == [lo] + ia[i];
        assert cs[i] == [s[lo]] + Pick(s, ia[i]);
      } else {
        assert ix[i] == ib[i - |a|];
      }
    }
  }

  /** The combinations of `s[lo..]` are `s` picked at the combinations of its indices. */
  lemma {:induction false} CombinationsPick<T>(s: seq<T>, lo: nat, k: nat)
    requires lo <= |s|
    ensures |Combinations(s[lo..], k)| == |Combinations(Range(lo, |s|), k)|
    ensures forall i :: 0 <= i < |Combinations(s[lo..], k)| ==>
              && InBounds(Combinations(Range(lo, |s|), k)[i], |s|)
              && Combinations(s[lo..], k)[i] == Pick(s, Combinations(Range(lo, |s|), k)[i])
    decreases |s| - lo
  {
    if k == 0 {
      assert Pick(s, Combinations(Range(lo, |s|), k)[0]) == [];
    } else if lo < |s| {
      CombinationsPick(s, lo + 1, k - 1);
      CombinationsPick(s, lo + 1, k);
      assert s[lo..][1..] == s[lo + 1..];
      assert Range(lo, |s|)[1..] == Range(lo + 1, |s|);
      PickSplit(s, lo, Combinations(s[lo + 1..], k - 1), Combinations(Range(lo + 1, |s|), k - 1),
                Combinations(s[lo + 1..], k), Combinations(Range(lo + 1, |s|), k));
    }
  }

  /** `combinations(k)` yields the selections in the lexicographic order of their index
      tuples: the i-th combination is `s` picked at the i-th k-tuple of increasing indices,
      and those index tuples strictly increase from each combination to the next. */
  lemma CombinationsInIndexOrder<T>(s: seq<T>, k: nat)
    ensures |Combinations(s, k)| == |Combinations(Range(0, |s|), k)|
    ensures forall i :: 0 <= i < |Combinations(s, k)| ==>
              && InBounds(Combinations(Range(0, |s|), k)[i], |s|)
              && Combinations(s, k)[i] == Pick(s, Combinations(Range(0, |s|), k)[i])
    ensures forall i, j :: 0 <= i < j < |Combinations(Range(0, |s|), k)| ==>
              LexCmp(Combinations(Range(0, |s|), k)[i], Combinations(Range(0, |s|), k)[j]) == Less
  {
    CombinationsPick(s, 0, k);
    assert s[0..] == s;
    CombinationsAscending(Range(0, |s|), k);
  }
}
