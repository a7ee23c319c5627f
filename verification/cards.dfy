/** The card model: ranks, suits, cards, the 52-card enumeration and dealing from a deck. */
module Cards {
  import opened Results
  import opened Ordering
  import opened Sorting

  /** The thirteen ranks. The derived order is declaration order, Two lowest. */
  datatype Rank = Two | Three | Four | Five | Six | Seven | Eight | Nine | Ten | Jack | Queen | King | Ace {

    /** The discriminant: position in declaration order. */
    function Index(): nat {
      match this
      case Two => 0
      case Three => 1
      case Four => 2
      case Five => 3
      case Six => 4
      case Seven => 5
      case Eight => 6
      case Nine => 7
      case Ten => 8
      case Jack => 9
      case Queen => 10
      case King => 11
      case Ace => 12
    }

    /** The next rank in declaration order; Ace wraps around to Two. */
    function Successor(): (r: Rank)
      ensures r.Index() == (Index() + 1) % 13
    {
      RankFromIndex(Index() + 1).GetOr(Two)
    }
  }

  /** Converts a discriminant back to a rank (`FromPrimitive::from_u8`). */
  function RankFromIndex(i: nat): (r: Option<Rank>)
    ensures r.Some? <==> i < 13
    ensures r.Some? ==> r.value.Index() == i
  {
    match i
    case 0 => Some(Two)
    case 1 => Some(Three)
    case 2 => Some(Four)
    case 3 => Some(Five)
    case 4 => Some(Six)
    case 5 => Some(Seven)
    case 6 => Some(Eight)
    case 7 => Some(Nine)
    case 8 => Some(Ten)
    case 9 => Some(Jack)
    case 10 => Some(Queen)
    case 11 => Some(King)
    case 12 => Some(Ace)
    case _ => None
  }

  lemma RankIndexRoundTrip(r: Rank)
    ensures r.Index() < 13
    ensures RankFromIndex(r.Index()) == Some(r)
  {
    match r
    case Two => case Three => case Four => case Five => case Six => case Seven =>
    case Eight => case Nine => case Ten => case Jack => case Queen => case King => case Ace =>
  }

  /** Rank comparison by discriminant. */
  function IndexOf(r: Rank): int {
    r.Index()
  }

  lemma IndexInjective()
    ensures Injective(IndexOf)
  {
    forall a: Rank, b: Rank | IndexOf(a) == IndexOf(b) ensures a == b {
      RankIndexRoundTrip(a);
      RankIndexRoundTrip(b);
    }
  }

  /** The four suits; their order only breaks ties between cards, never between hands. */
  datatype Suit = Hearts | Clubs | Spades | Diamonds {
    function Index(): nat {
      match this
      case Hearts => 0
      case Clubs => 1
      case Spades => 2
      case Diamonds => 3
    }
  }

  function SuitFromIndex(i: nat): (r: Option<Suit>)
    ensures r.Some? <==> i < 4
    ensures r.Some? ==> r.value.Index() == i
  {
    match i
    case 0 => Some(Hearts)
    case 1 => Some(Clubs)
    case 2 => Some(Spades)
    case 3 => Some(Diamonds)
    case _ => None
  }

  lemma SuitIndexRoundTrip(s: Suit)
    ensures s.Index() < 4
    ensures SuitFromIndex(s.Index()) == Some(s)
  {
    match s
    case Hearts => case Clubs => case Spades => case Diamonds =>
  }

  /** `Rank::iter()`: every rank, in declaration order. */
  function AllRanks(): (rs: seq<Rank>)
    ensures |rs| == 13
    ensures forall i :: 0 <= i < 13 ==> rs[i].Index() == i
  {
    seq(13, i requires 0 <= i < 13 => RankFromIndex(i).value)
  }

  /** `Suit::iter()`: every suit, in declaration order. */
  function AllSuits(): (ss: seq<Suit>)
    ensures |ss| == 4
    ensures forall i :: 0 <= i < 4 ==> ss[i].Index() == i
  {
    seq(4, i requires 0 <= i < 4 => SuitFromIndex(i).value)
  }

  datatype Card = Card(rank: Rank, suit: Suit) {

    /** Where the card sits in `Card::iter()`; comparing positions is comparing cards. */
    function Position(): nat {
      rank.Index() * 4 + suit.Index()
    }
  }

  function PositionOf(c: Card): int {
    c.Position()
  }

  /** The derived `Ord` for `Card`: rank first, then suit. */
  function CardCmp(a: Card, b: Card): Ordering {
    LexCmp([a.rank.Index(), a.suit.Index()], [b.rank.Index(), b.suit.Index()])
  }

  /** The lexicographic card order is the order of positions in the enumeration. */
  lemma CardOrderIsPositionOrder(a: Card, b: Card)
    ensures CardCmp(a, b) == IntCmp(a.Position(), b.Position())
  {
    SuitIndexRoundTrip(a.suit);
    SuitIndexRoundTrip(b.suit);
    if a.rank.Index() == b.rank.Index() {
      assert [a.rank.Index(), a.suit.Index()][1..] == [a.suit.Index()];
      assert [b.rank.Index(), b.suit.Index()][1..] == [b.suit.Index()];
    }
  }

  lemma PositionInjective()
    ensures Injective(PositionOf)
  {
    forall a: Card, b: Card | PositionOf(a) == PositionOf(b) ensures a == b {
      SuitIndexRoundTrip(a.suit);
      SuitIndexRoundTrip(b.suit);
      RankIndexRoundTrip(a.rank);
      RankIndexRoundTrip(b.rank);
      assert a.rank.Index() == b.rank.Index();
    }
  }

  /** The cards of one rank, one per suit in suit order. */
  function SuitRow(r: Rank): seq<Card> {
    seq(4, i requires 0 <= i < 4 => Card(r, AllSuits()[i]))
  }

  /** `ranks.cartesian_product(Suit::iter())`: rank-major, suits innermost. */
  function Product(rs: seq<Rank>): (cs: seq<Card>)
    ensures |cs| == 4 * |rs|
    ensures forall i :: 0 <= i < |cs| ==> cs[i] == Card(rs[i / 4], AllSuits()[i % 4])
  {
    if |rs| == 0 then []
    else
      var rest := Product(rs[1..]);
      var cs := SuitRow(rs[0]) + rest;
      assert forall i :: 4 <= i < |cs| ==> cs[i] == rest[i - 4] && (i - 4) / 4 == i / 4 - 1 && (i - 4) % 4 == i % 4;
      cs
  }

  /** `Card::iter()`: all 52 cards, each exactly once, in ascending card order
      (the card at index i has position i). */
  function AllCards(): (cs: seq<Card>)
    ensures |cs| == 52
    ensures forall i :: 0 <= i < 52 ==> cs[i].Position() == i
    ensures forall c: Card :: cs[c.Position()] == c
  {
    var cs := Product(AllRanks());
    forall i | 0 <= i < 52 ensures cs[i].Position() == i {
      ProductPosition(AllRanks(), i);
    }
    forall c: Card ensures cs[c.Position()] == c {
      SamePosition(cs[c.Position()], c);
    }
    cs
  }

  /** In the product of the ranks in order, the card at each index sits at that position. */
  lemma ProductPosition(rs: seq<Rank>, i: nat)
    requires forall j :: 0 <= j < |rs| ==> rs[j].Index() == j
    requires i < 4 * |rs|
    ensures Product(rs)[i].Position() == i
  {
    var q, m := i / 4, i % 4;
    assert i == q * 4 + m;
    assert Product(rs)[i] == Card(rs[q], AllSuits()[m]);
  }

  /** Cards at the same position are the same card. */
  lemma SamePosition(a: Card, b: Card)
    requires a.Position() == b.Position()
    ensures a == b
  {
    PositionInjective();
    assert PositionOf(a) == PositionOf(b);
  }

  /** Every card occurs exactly once in the enumeration. */
  lemma AllCardsOnce(c: Card)
    ensures multiset(AllCards())[c] == 1
  {
    var cs := AllCards();
    DistinctCount(cs, c.Position());
  }

  /** In a sequence without repeated positions, the element at index k occurs once. */
  lemma {:induction false} DistinctCount(s: seq<Card>, k: nat)
    requires k < |s|
    requires forall i, j :: 0 <= i < j < |s| ==> s[i] != s[j]
    ensures multiset(s)[s[k]] == 1
  {
    assert s == [s[0]] + s[1..];
    if k == 0 {
      assert s[0] !in s[1..];
    } else {
      DistinctCount(s[1..], k - 1);
      assert s[k] != s[0];
    }
  }

  /** A deck: the cards not yet dealt, dealt from the end. */
  datatype Deck = Deck(cards: seq<Card>)

  /** `Deck::new` shuffles `Card::iter()`; a shuffled deck is any arrangement of it. */
  ghost predicate IsShuffledDeck(d: Deck) {
    multiset(d.cards) == multiset(AllCards())
  }

  /** `deal_n`: splits the last `n` cards off the deck. When fewer than `n` remain,
      nothing is dealt and the deck is unchanged. */
  function DealN(d: Deck, n: nat): (r: (Deck, Option<seq<Card>>))
    ensures n > |d.cards| <==> r.1.None?
    ensures r.1.None? ==> r.0 == d
    ensures r.1.Some? ==> |r.1.value| == n && r.0.cards + r.1.value == d.cards
  {
    if n > |d.cards| then (d, None)
    else
      var k := |d.cards| - n;
      assert d.cards[..k] + d.cards[k..] == d.cards;
      (Deck(d.cards[..k]), Some(d.cards[k..]))
  }

  /** Dealing n cards and then all the rest empties the deck and hands out exactly its
      cards. */
  lemma DealTwice(d: Deck, n: nat)
    requires n <= |d.cards|
    ensures var (d1, first) := DealN(d, n);
            var (d2, second) := DealN(d1, |d.cards| - n);
            first.Some? && second.Some? && d2.cards == []
            && multiset(first.value) + multiset(second.value) == multiset(d.cards)
  {
    var (d1, first) := DealN(d, n);
    var (d2, second) := DealN(d1, |d.cards| - n);
    assert d2.cards + second.value == d1.cards;
    assert second.value + first.value == d.cards;
  }

  /** A shuffled deck holds 52 cards, each card of the enumeration once. */
  lemma ShuffledDeckShape(d: Deck)
    requires IsShuffledDeck(d)
    ensures |d.cards| == 52
    ensures forall c: Card :: multiset(d.cards)[c] == 1
  {
    assert |d.cards| == |multiset(d.cards)| == |AllCards()|;
    forall c: Card ensures multiset(d.cards)[c] == 1 {
      AllCardsOnce(c);
    }
  }

  /** Dealing n cards and then the remaining 52 - n from a shuffled deck hands out every
      card of the enumeration exactly once and empties the deck. */
  lemma DealPartitionsDeck(d: Deck, n: nat)
    requires IsShuffledDeck(d)
    requires n <= 52
    ensures var (d1, first) := DealN(d, n);
            var (d2, second) := DealN(d1, 52 - n);
            first.Some? && second.Some? && d2.cards == []
            && forall c: Card :: multiset(first.value)[c] + multiset(second.value)[c] == 1
  {
    ShuffledDeckShape(d);
    DealTwice(d, n);
    var (d1, first) := DealN(d, n);
    var (d2, second) := DealN(d1, 52 - n);
    var dealt := multiset(first.value) + multiset(second.value);
    forall c: Card ensures multiset(first.value)[c] + multiset(second.value)[c] == 1 {
      assert dealt[c] == multiset(d.cards)[c];
    }
  }
}
