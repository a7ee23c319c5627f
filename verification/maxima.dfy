/** `Iterator::max` over elements ordered through an integer-sequence key. */
module Maxima {
  import opened Ordering

  /** `xs.into_iter().max()` for a non-empty sequence: a left fold that keeps the running
      maximum only while it is strictly above the next element, so among equal maxima the
      last one wins. The result is an element at least as large as every element, and every
      element after it is strictly smaller. */
  function LastMax<T>(xs: seq<T>, key: T -> seq<int>): (m: T)
    requires |xs| > 0
    ensures m in xs
    ensures forall i :: 0 <= i < |xs| ==> LexLe(key(xs[i]), key(m))
    ensures exists k :: 0 <= k < |xs| && xs[k] == m
                     && forall j :: k < j < |xs| ==> LexCmp(key(xs[j]), key(m)) == Less
    decreases |xs|
  {
    if |xs| == 1 then
      LexEqualIff(key(xs[0]), key(xs[0]));
      xs[0]
    else
      var init := xs[..|xs| - 1];
      var acc := LastMax(init, key);
      var x := xs[|xs| - 1];
      assert forall i :: 0 <= i < |xs| - 1 ==> xs[i] == init[i];
      if LexCmp(key(acc), key(x)) == Greater then
        LexReverse(key(acc), key(x));
        acc
      else
        assert forall i :: 0 <= i < |xs| - 1 ==> LexLe(key(xs[i]), key(x)) by {
          forall i | 0 <= i < |xs| - 1 ensures LexLe(key(xs[i]), key(x)) {
            LexTransitive(key(xs[i]), key(acc), key(x));
          }
        }
        LexEqualIff(key(x), key(x));
        x
  }

  /** The position the last maximum comes from: every element after it is strictly smaller. */
  lemma LastMaxIndex<T>(xs: seq<T>, key: T -> seq<int>) returns (k: nat)
    requires |xs| > 0
    ensures k < |xs| && xs[k] == LastMax(xs, key)
    ensures forall j :: k < j < |xs| ==> LexCmp(key(xs[j]), key(LastMax(xs, key))) == Less
  {
    k :| 0 <= k < |xs| && xs[k] == LastMax(xs, key)
         && forall j :: k < j < |xs| ==> LexCmp(key(xs[j]), key(LastMax(xs, key))) == Less;
  }
}
