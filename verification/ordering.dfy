/** Three-way comparison, as Rust's `std::cmp::Ordering`, and the lexicographic order on
    integer sequences that every derived `Ord` of the program reduces to. */
module Ordering {

  datatype Ordering = Less | Equal | Greater {
    function Reverse(): Ordering {
      match this
      case Less => Greater
      case Equal => Equal
      case Greater => Less
    }
  }

  function IntCmp(a: int, b: int): Ordering {
    if a < b then Less else if a == b then Equal else Greater
  }

  /** Lexicographic comparison, as Rust's `Ord` on slices and arrays: the first differing
      position decides, and a proper prefix is smaller. */
  function LexCmp(a: seq<int>, b: seq<int>): Ordering {
    if |a| == 0 && |b| == 0 then Equal
    else if |a| == 0 then Less
    else if |b| == 0 then Greater
    else if a[0] != b[0] then IntCmp(a[0], b[0])
    else LexCmp(a[1..], b[1..])
  }

  /** `a` is at most `b`. */
  predicate LexLe(a: seq<int>, b: seq<int>) {
    LexCmp(a, b) != Greater
  }

  lemma {:induction false} LexEqualIff(a: seq<int>, b: seq<int>)
    ensures LexCmp(a, b) == Equal <==> a == b
  {
    if |a| > 0 && |b| > 0 && a[0] == b[0] {
      LexEqualIff(a[1..], b[1..]);
      if a[1..] == b[1..] {
        assert a == [a[0]] + a[1..] && b == [b[0]] + b[1..];
      }
    }
  }

  lemma {:induction false} LexReverse(a: seq<int>, b: seq<int>)
    ensures LexCmp(b, a) == LexCmp(a, b).Reverse()
  {
    if |a| > 0 && |b| > 0 && a[0] == b[0] {
      LexReverse(a[1..], b[1..]);
    }
  }

  lemma {:induction false} LexTransitive(a: seq<int>, b: seq<int>, c: seq<int>)
    requires LexLe(a, b) && LexLe(b, c)
    ensures LexLe(a, c)
    ensures LexCmp(a, b) == Less || LexCmp(b, c) == Less ==> LexCmp(a, c) == Less
  {
    if |a| > 0 && |b| > 0 && |c| > 0 && a[0] == b[0] && b[0] == c[0] {
      LexTransitive(a[1..], b[1..], c[1..]);
    }
  }

  /** Comparing concatenations of equally long heads: the heads decide unless they tie,
      and then the tails do. This is how Rust's derived `Ord` on tuples behaves. */
  lemma {:induction false} LexAppend(a1: seq<int>, a2: seq<int>, b1: seq<int>, b2: seq<int>)
    requires |a1| == |b1|
    ensures LexCmp(a1 + a2, b1 + b2)
         == if LexCmp(a1, b1) == Equal then LexCmp(a2, b2) else LexCmp(a1, b1)
  {
    if |a1| == 0 {
      assert a1 + a2 == a2 && b1 + b2 == b2;
    } else {
      assert (a1 + a2)[1..] == a1[1..] + a2;
      assert (b1 + b2)[1..] == b1[1..] + b2;
      LexAppend(a1[1..], a2, b1[1..], b2);
    }
  }
}
