/** The five-card hand evaluator: `Hand::from`, `hand_type`, the order on hands and
    `best_hand`. */
module Hands {
  import opened Results
  import opened Ordering
  import opened Sorting
  import opened Cards
  import opened Grouping
  import opened Combinatorics
  import opened Maxima

  /** The `[Card; 5]` array of a hand. */
  type Five = s: seq<Card> | |s| == 5
    witness [Card(Two, Hearts), Card(Two, Hearts), Card(Two, Hearts), Card(Two, Hearts), Card(Two, Hearts)]

  /** The nine categories, weakest first. */
  datatype HandType =
    | HighCard
    | Pair(pair: Rank)
    | TwoPair(high: Rank, low: Rank)
    | ThreeOfAKind(trips: Rank)
    | Straight(top: Rank)
    | Flush
    | FullHouse(trips: Rank, pair: Rank)
    | FourOfAKind(quads: Rank)
    | StraightFlush(top: Rank)
  {
    /** The category's discriminant: its position in declaration order. */
    function Variant(): nat {
      match this
      case HighCard => 0
      case Pair(_) => 1
      case TwoPair(_, _) => 2
      case ThreeOfAKind(_) => 3
      case Straight(_) => 4
      case Flush => 5
      case FullHouse(_, _) => 6
      case FourOfAKind(_) => 7
      case StraightFlush(_) => 8
    }

    /** The embedded ranks, in field order. */
    function Fields(): seq<int> {
      match this
      case HighCard => []
      case Pair(a) => [a.Index()]
      case TwoPair(a, b) => [a.Index(), b.Index()]
      case ThreeOfAKind(a) => [a.Index()]
      case Straight(a) => [a.Index()]
      case Flush => []
      case FullHouse(a, b) => [a.Index(), b.Index()]
      case FourOfAKind(a) => [a.Index()]
      case StraightFlush(a) => [a.Index()]
    }
  }

  /** A fixed-width key for the derived order on `HandType`: the discriminant followed by
      the embedded ranks, padded to two. */
  function TypeKey(t: HandType): (k: seq<int>)
    ensures |k| == 3
  {
    [t.Variant()] + t.Fields() + seq(2 - |t.Fields()|, _ => 0)
  }

  /** The derived `Ord` for `HandType`. */
  function HandTypeCmp(a: HandType, b: HandType): Ordering {
    LexCmp(TypeKey(a), TypeKey(b))
  }

  /** The derived order on `HandType`: the category decides, and within one category the
      embedded ranks compare lexicographically. */
  lemma HandTypeOrderIsDerived(a: HandType, b: HandType)
    ensures HandTypeCmp(a, b)
         == if a.Variant() != b.Variant() then IntCmp(a.Variant(), b.Variant())
            else LexCmp(a.Fields(), b.Fields())
  {
    var ka, kb := TypeKey(a), TypeKey(b);
    if a.Variant() == b.Variant() {
      assert |a.Fields()| == |b.Fields()|;
      var pad := seq(2 - |a.Fields()|, _ => 0);
      assert ka[1..] == a.Fields() + pad;
      assert kb[1..] == b.Fields() + pad;
      LexAppend(a.Fields(), pad, b.Fields(), pad);
      LexEqualIff(pad, pad);
    }
  }

  /** Two hand types compare equal exactly when they are the same. */
  lemma HandTypeEqualIff(a: HandType, b: HandType)
    ensures HandTypeCmp(a, b) == Equal <==> a == b
  {
    LexEqualIff(TypeKey(a), TypeKey(b));
    if TypeKey(a) == TypeKey(b) {
      assert a.Variant() == b.Variant();
      assert a.Fields() == TypeKey(a)[1..1 + |a.Fields()|];
      assert b.Fields() == TypeKey(b)[1..1 + |b.Fields()|];
      FieldsDetermine(a, b);
    }
  }

  lemma FieldsDetermine(a: HandType, b: HandType)
    requires a.Variant() == b.Variant() && a.Fields() == b.Fields()
    ensures a == b
  {
    IndexInjective();
    match a
    case HighCard =>
    case Pair(x) => assert IndexOf(x) == IndexOf(b.pair);
    case TwoPair(x, y) => assert IndexOf(x) == IndexOf(b.high) && IndexOf(y) == IndexOf(b.low);
    case ThreeOfAKind(x) => assert IndexOf(x) == IndexOf(b.trips);
    case Straight(x) => assert IndexOf(x) == IndexOf(b.top);
    case Flush =>
    case FullHouse(x, y) => assert IndexOf(x) == IndexOf(b.trips) && IndexOf(y) == IndexOf(b.pair);
    case FourOfAKind(x) => assert IndexOf(x) == IndexOf(b.quads);
    case StraightFlush(x) => assert IndexOf(x) == IndexOf(b.top);
  }

  /** A hand: five cards, kept in non-increasing card order. Every hand the program
      builds goes through `FromCards`. */
  datatype Hand = Hand(cards: Five)

  /** The cards of a hand are in non-increasing card order. */
  ghost predicate Sorted(h: Hand) {
    SortedBy(h.cards, PositionOf)
  }

  /** `Hand::from`: the five cards sorted largest first. The result is a rearrangement of
      the input in non-increasing card order. */
  function FromCards(cs: Five): (h: Hand)
    ensures multiset(h.cards) == multiset(cs)
    ensures Sorted(h)
    ensures forall i, j :: 0 <= i < j < 5 ==> CardCmp(h.cards[i], h.cards[j]) != Less
  {
    var sorted := SortDesc(cs, PositionOf);
    assert |sorted| == |multiset(sorted)| == 5;
    PositionSortedIsCardSorted(sorted);
    Hand(sorted)
  }

  lemma PositionSortedIsCardSorted(s: seq<Card>)
    requires SortedBy(s, PositionOf)
    ensures forall i, j :: 0 <= i < j < |s| ==> CardCmp(s[i], s[j]) != Less
    ensures SortedBy(RanksOf(s), IndexOf)
  {
    forall i, j | 0 <= i < j < |s| ensures CardCmp(s[i], s[j]) != Less {
      CardOrderIsPositionOrder(s[i], s[j]);
    }
    forall i, j | 0 <= i < j < |s| ensures IndexOf(RanksOf(s)[j]) <= IndexOf(RanksOf(s)[i]) {
      SuitIndexRoundTrip(s[i].suit);
      SuitIndexRoundTrip(s[j].suit);
    }
  }

  /** Building a hand does not depend on the order the cards are given in. */
  lemma FromCardsOrderIndependent(a: Five, b: Five)
    requires multiset(a) == multiset(b)
    ensures FromCards(a) == FromCards(b)
  {
    PositionInjective();
    SortedUnique(FromCards(a).cards, FromCards(b).cards, PositionOf);
  }

  /** The ranks of a card sequence, position by position. */
  function RanksOf(cs: seq<Card>): (rs: seq<Rank>)
    ensures |rs| == |cs|
  {
    seq(|cs|, i requires 0 <= i < |cs| => cs[i].rank)
  }

  /** `ranks`: the hand's five ranks. */
  function Ranks(h: Hand): (rs: seq<Rank>)
    ensures |rs| == 5
  {
    RanksOf(h.cards)
  }

  /** `is_flush`: every card has the first card's suit. */
  predicate IsFlush(h: Hand) {
    forall i :: 0 <= i < 5 ==> h.cards[i].suit == h.cards[0].suit
  }

  /** The ace-low straight, as the sorted ranks spell it. */
  function Wheel(): seq<Rank> {
    [Ace, Five, Four, Three, Two]
  }

  /** `extract_straight` on the sorted ranks: the wheel has top rank Five; otherwise each
      rank must be the successor of the next one, which must not be an Ace. */
  function ExtractStraight(rs: seq<Rank>): Option<Rank>
    requires |rs| == 5
  {
    if rs == Wheel() then Some(Five)
    else if forall i :: 1 <= i < 5 ==> rs[i] != Ace && rs[i].Successor() == rs[i - 1] then Some(rs[0])
    else None
  }

  /** The rank-group match of `hand_type` on the runs sorted by (count, rank), largest
      first. The counts add up to five, so a run of two or three is never the only one. */
  function GroupType(s: seq<Group>): HandType
    requires |s| > 0 && Total(s) == 5
  {
    if s[0].count == 2 then
      SmallRunNotAlone(s);
      if s[1].count == 2 then TwoPair(s[0].rank, s[1].rank) else Pair(s[0].rank)
    else if s[0].count == 3 then
      SmallRunNotAlone(s);
      if s[1].count == 2 then FullHouse(s[0].rank, s[1].rank) else ThreeOfAKind(s[0].rank)
    else if s[0].count == 4 then FourOfAKind(s[0].rank)
    else HighCard
  }

  lemma SmallRunNotAlone(s: seq<Group>)
    requires |s| > 0 && Total(s) == 5 && s[0].count < 5
    ensures |s| > 1
  {
  }

  /** `hand_type`: straight (straight flush if also a flush), else flush, else the rank
      groups. A flush category is reported exactly for suited hands. */
  function HandTypeOf(h: Hand): (t: HandType)
  {
    var rs := Ranks(h);
    var straight := ExtractStraight(rs);
    if straight.Some? then
      if IsFlush(h) then StraightFlush(straight.value) else Straight(straight.value)
    else if IsFlush(h) then Flush
    else GroupCategory(rs)
  }

  /** The rank-group step of `hand_type`: run-length encode the ranks, sort the runs by
      (count, rank) largest first, and match on the leading runs. */
  function GroupCategory(rs: seq<Rank>): HandType
    requires |rs| == 5
  {
    SortedRunsTotal(rs);
    GroupType(SortGroups(RunLengths(rs)))
  }

  /** The sorted runs of a non-empty rank sequence are non-empty and count every rank. */
  lemma SortedRunsTotal(rs: seq<Rank>)
    requires |rs| > 0
    ensures |SortGroups(RunLengths(rs))| > 0
    ensures Total(SortGroups(RunLengths(rs))) == |rs|
  {
    var gs := RunLengths(rs);
    RunLengthsShape(rs);
    ExpandLength(gs);
    TotalOfSort(gs);
    assert |SortGroups(gs)| == |multiset(SortGroups(gs))| == |gs|;
  }

  lemma {:induction false} ExpandLength(gs: seq<Group>)
    ensures |Expand(gs)| == Total(gs)
  {
    if |gs| > 0 {
      ExpandLength(gs[1..]);
    }
  }

  /** The ranks as integers, the array `Ord for Hand` falls back to. */
  function RankKey(h: Hand): (k: seq<int>)
    ensures |k| == 5
  {
    seq(5, i requires 0 <= i < 5 => h.cards[i].rank.Index())
  }

  /** `Ord for Hand`: the hand types decide, and equal types fall back to the rank arrays. */
  function HandCmp(a: Hand, b: Hand): Ordering {
    match HandTypeCmp(HandTypeOf(a), HandTypeOf(b))
    case Equal => LexCmp(RankKey(a), RankKey(b))
    case other => other
  }

  /** `a <= b` in the hand order. */
  predicate HandLe(a: Hand, b: Hand) {
    HandCmp(a, b) != Greater
  }

  /** One key for the whole hand order: the type key followed by the rank key. */
  function HandKey(h: Hand): seq<int> {
    TypeKey(HandTypeOf(h)) + RankKey(h)
  }

  /** Comparing hands is comparing their keys lexicographically. */
  lemma HandCmpIsKeyCmp(a: Hand, b: Hand)
    ensures HandCmp(a, b) == LexCmp(HandKey(a), HandKey(b))
  {
    LexAppend(TypeKey(HandTypeOf(a)), RankKey(a), TypeKey(HandTypeOf(b)), RankKey(b));
  }

  /** The hand order is a total preorder: swapping the operands reverses it, and it is
      transitive, strictly so when either step is strict. */
  lemma HandOrderIsTotalPreorder(a: Hand, b: Hand, c: Hand)
    ensures HandCmp(b, a) == HandCmp(a, b).Reverse()
    ensures HandLe(a, b) && HandLe(b, c) ==> HandLe(a, c)
    ensures HandCmp(a, b) == Less && HandLe(b, c) ==> HandCmp(a, c) == Less
  {
    HandCmpIsKeyCmp(a, b);
    HandCmpIsKeyCmp(b, a);
    HandCmpIsKeyCmp(b, c);
    HandCmpIsKeyCmp(a, c);
    LexReverse(HandKey(a), HandKey(b));
    if HandLe(a, b) && HandLe(b, c) {
      LexTransitive(HandKey(a), HandKey(b), HandKey(c));
    }
  }

  /** `==` on hands is `cmp == Equal`: equal hand types and equal rank arrays, whatever
      the suits. */
  lemma HandEqualIff(a: Hand, b: Hand)
    ensures HandCmp(a, b) == Equal <==> HandTypeOf(a) == HandTypeOf(b) && Ranks(a) == Ranks(b)
  {
    HandTypeEqualIff(HandTypeOf(a), HandTypeOf(b));
    LexEqualIff(RankKey(a), RankKey(b));
    RankKeyDeterminesRanks(a, b);
  }

  lemma RankKeyDeterminesRanks(a: Hand, b: Hand)
    ensures RankKey(a) == RankKey(b) <==> Ranks(a) == Ranks(b)
  {
    if RankKey(a) == RankKey(b) {
      forall i | 0 <= i < 5 ensures Ranks(a)[i] == Ranks(b)[i] {
        assert a.cards[i].rank.Index() == RankKey(a)[i] == RankKey(b)[i] == b.cards[i].rank.Index();
        RankIndexRoundTrip(a.cards[i].rank);
        RankIndexRoundTrip(b.cards[i].rank);
      }
    }
    if Ranks(a) == Ranks(b) {
      forall i | 0 <= i < 5 ensures RankKey(a)[i] == RankKey(b)[i] {
        assert a.cards[i].rank == Ranks(a)[i] == Ranks(b)[i] == b.cards[i].rank;
      }
    }
  }

  /** A stronger category beats any hand of a weaker one, whatever the ranks. */
  lemma CategoryDominates(a: Hand, b: Hand)
    requires HandTypeOf(a).Variant() < HandTypeOf(b).Variant()
    ensures HandCmp(a, b) == Less
  {
    HandTypeOrderIsDerived(HandTypeOf(a), HandTypeOf(b));
  }

  /** The hands `best_hand` compares: one per combination, each sorted. */
  function HandsOf(combos: seq<seq<Card>>): (hs: seq<Hand>)
    requires forall i :: 0 <= i < |combos| ==> |combos[i]| == 5
    ensures |hs| == |combos|
  {
    seq(|combos|, i requires 0 <= i < |combos| => FromCards(combos[i]))
  }

  /** `best_hand`: the largest of the hands built from the 5-card combinations of the
      pool, in combination order, the last one on ties; fewer than five cards is a panic.
      The result is built from five cards of the pool and beats or ties every hand that
      five cards of the pool make. */
  function BestHand(pool: seq<Card>): (r: Option<Hand>)
    ensures r.None? <==> |pool| < 5
    ensures r.Some? ==> exists c: Five :: IsSubseq(c, pool) && r.value == FromCards(c)
    ensures r.Some? ==> multiset(r.value.cards) <= multiset(pool)
    ensures r.Some? ==> forall c: Five :: IsSubseq(c, pool) ==> HandLe(FromCards(c), r.value)
  {
    if |pool| < 5 then None
    else
      BestOfCombinations(pool);
      Some(LastMax(HandsOf(Combinations(pool, 5)), HandKey))
  }

  /** Among hands that compare equal, `best_hand` keeps the last: its hand is that of one
      combination, and every combination that itertools yields after it makes a strictly
      smaller hand. */
  lemma BestHandIsLastMaximum(pool: seq<Card>) returns (k: nat)
    requires |pool| >= 5
    ensures k < |Combinations(pool, 5)|
    ensures BestHand(pool) == Some(FromCards(Combinations(pool, 5)[k]))
    ensures forall j :: k < j < |Combinations(pool, 5)| ==>
              HandCmp(FromCards(Combinations(pool, 5)[j]), BestHand(pool).value) == Less
  {
    CombinationsNonEmpty(pool, 5);
    BestHandIsLastMax(pool);
    k := LastOfEqualMaxima(Combinations(pool, 5));
  }

  /** `best_hand` on five or more cards is the last maximum of the combinations' hands. */
  lemma BestHandIsLastMax(pool: seq<Card>)
    requires |pool| >= 5
    ensures |Combinations(pool, 5)| > 0
    ensures BestHand(pool) == Some(LastMax(HandsOf(Combinations(pool, 5)), HandKey))
  {
    CombinationsNonEmpty(pool, 5);
  }

  /** The last maximum of the combinations' hands is the hand of a combination after which
      every hand is strictly smaller. */
  lemma LastOfEqualMaxima(combos: seq<seq<Card>>) returns (k: nat)
    requires |combos| > 0 && forall i :: 0 <= i < |combos| ==> |combos[i]| == 5
    ensures k < |combos|
    ensures LastMax(HandsOf(combos), HandKey) == FromCards(combos[k])
    ensures forall j :: k < j < |combos| ==>
              HandCmp(FromCards(combos[j]), LastMax(HandsOf(combos), HandKey)) == Less
  {
    var hands := HandsOf(combos);
    var best := LastMax(hands, HandKey);
    k := LastMaxIndex(hands, HandKey);
    forall j | k < j < |combos|
      ensures HandCmp(FromCards(combos[j]), best) == Less
    {
      HandCmpIsKeyCmp(hands[j], best);
    }
  }

  lemma BestOfCombinations(pool: seq<Card>)
    requires |pool| >= 5
    ensures |HandsOf(Combinations(pool, 5))| > 0
    ensures var best := LastMax(HandsOf(Combinations(pool, 5)), HandKey);
            && (exists c: Five :: IsSubseq(c, pool) && best == FromCards(c))
            && multiset(best.cards) <= multiset(pool)
            && forall c: Five :: IsSubseq(c, pool) ==> HandLe(FromCards(c), best)
  {
    CombinationsNonEmpty(pool, 5);
    BestIsFromPool(pool);
    forall c: Five | IsSubseq(c, pool)
      ensures HandLe(FromCards(c), LastMax(HandsOf(Combinations(pool, 5)), HandKey))
    {
      BestBeats(pool, c);
    }
  }

  lemma BestIsFromPool(pool: seq<Card>)
    requires |Combinations(pool, 5)| > 0
    ensures var best := LastMax(HandsOf(Combinations(pool, 5)), HandKey);
            && (exists c: Five :: IsSubseq(c, pool) && best == FromCards(c))
            && multiset(best.cards) <= multiset(pool)
  {
    var combos := Combinations(pool, 5);
    var k := MaxIsSomeHand(combos);
    var ck: Five := combos[k];
    CombinationsAreSelections(pool, 5, ck);
    HandFromPool(pool, ck);
  }

  /** The largest hand is the hand of one of the combinations. */
  lemma MaxIsSomeHand(combos: seq<seq<Card>>) returns (k: nat)
    requires |combos| > 0 && forall i :: 0 <= i < |combos| ==> |combos[i]| == 5
    ensures k < |combos| && LastMax(HandsOf(combos), HandKey) == FromCards(combos[k])
  {
    var hands := HandsOf(combos);
    k :| 0 <= k < |hands| && hands[k] == LastMax(hands, HandKey);
  }

  /** A hand built from a selection of the pool holds only cards of the pool. */
  lemma HandFromPool(pool: seq<Card>, c: Five)
    requires IsSubseq(c, pool)
    ensures multiset(FromCards(c).cards) <= multiset(pool)
  {
    SubseqMultiset(c, pool);
  }

  lemma BestBeats(pool: seq<Card>, c: Five)
    requires |Combinations(pool, 5)| > 0
    requires IsSubseq(c, pool)
    ensures HandLe(FromCards(c), LastMax(HandsOf(Combinations(pool, 5)), HandKey))
  {
    var combos := Combinations(pool, 5);
    CombinationsAreSelections(pool, 5, c);
    var i :| 0 <= i < |combos| && combos[i] == c;
    MaxBeatsHand(combos, i);
  }

  /** The largest hand is at least the hand of each combination. */
  lemma MaxBeatsHand(combos: seq<seq<Card>>, i: nat)
    requires i < |combos| && forall j :: 0 <= j < |combos| ==> |combos[j]| == 5
    ensures HandLe(FromCards(combos[i]), LastMax(HandsOf(combos), HandKey))
  {
    var hands := HandsOf(combos);
    var best := LastMax(hands, HandKey);
    assert hands[i] == FromCards(combos[i]);
    assert LexLe(HandKey(hands[i]), HandKey(best));
    HandCmpIsKeyCmp(hands[i], best);
  }
}
