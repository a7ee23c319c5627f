/** `find_nuts` on a full board: the search does not stop at the board's own hand, it
    still adds the two hole cards that improve it most. */
module NutsExamples {
  import opened Results
  import opened Ordering
  import opened Cards
  import opened Combinatorics
  import opened Hands
  import opened HandExamples
  import opened HoldEm

  /** A hand type at or above a straight flush is a straight flush at least as high. */
  lemma AboveStraightFlush(r: Rank, t: HandType)
    requires HandTypeCmp(StraightFlush(r), t) != Greater
    ensures t.StraightFlush? && r.Index() <= t.top.Index()
  {
    HandTypeOrderIsDerived(StraightFlush(r), t);
    assert t.Variant() == 8;
    assert LexCmp([r.Index()], [t.top.Index()]) != Greater;
  }

  /** Whatever beats or ties a straight flush is a straight flush at least as high. */
  lemma AtLeastStraightFlush(x: Hand, y: Hand, r: Rank)
    requires HandLe(x, y) && HandTypeOf(x) == StraightFlush(r)
    ensures HandTypeOf(y).StraightFlush? && r.Index() <= HandTypeOf(y).top.Index()
  {
    AboveStraightFlush(r, HandTypeOf(y));
  }

  lemma EightHighStraightFlushTop(rs: seq<Rank>)
    requires rs == [Eight, Seven, Six, Five, Four]
    ensures ExtractStraight(rs) == Some(Eight)
  {
    assert rs[0] != Wheel()[0];
  }

  lemma EightHighStraightFlushSorted(h: Hand)
    requires h == Hand([Card(Eight, Diamonds), Card(Seven, Diamonds), Card(Six, Diamonds),
                        Card(Five, Diamonds), Card(Four, Diamonds)])
    ensures HandTypeOf(h) == StraightFlush(Eight)
  {
    var rs := [Eight, Seven, Six, Five, Four];
    assert Ranks(h) == rs;
    EightHighStraightFlushTop(rs);
    Classified(h, rs, Some(Eight), true, StraightFlush(Eight));
  }

  lemma EightHighStraightFlushCards(cs: Five, sorted: Five)
    requires cs == [Card(Four, Diamonds), Card(Five, Diamonds), Card(Six, Diamonds),
                    Card(Seven, Diamonds), Card(Eight, Diamonds)]
    requires sorted == [Card(Eight, Diamonds), Card(Seven, Diamonds), Card(Six, Diamonds),
                        Card(Five, Diamonds), Card(Four, Diamonds)]
    ensures multiset(cs) == multiset(sorted)
  {
  }

  lemma EightHighStraightFlushOrder(sorted: Five)
    requires sorted == [Card(Eight, Diamonds), Card(Seven, Diamonds), Card(Six, Diamonds),
                        Card(Five, Diamonds), Card(Four, Diamonds)]
    ensures sorted[0].Position() > sorted[1].Position() > sorted[2].Position()
            > sorted[3].Position() > sorted[4].Position()
  {
  }

  /** Four to eight of diamonds is a straight flush to the eight. */
  lemma EightHighStraightFlush(cs: Five)
    requires cs == [Card(Four, Diamonds), Card(Five, Diamonds), Card(Six, Diamonds),
                    Card(Seven, Diamonds), Card(Eight, Diamonds)]
    ensures HandTypeOf(FromCards(cs)) == StraightFlush(Eight)
  {
    var sorted := [Card(Eight, Diamonds), Card(Seven, Diamonds), Card(Six, Diamonds),
                   Card(Five, Diamonds), Card(Four, Diamonds)];
    EightHighStraightFlushCards(cs, sorted);
    EightHighStraightFlushOrder(sorted);
    HandFrom(cs, sorted);
    EightHighStraightFlushSorted(FromCards(cs));
  }

  /** The second, fourth and fifth cards of a five-card board, then the two hole cards,
      are five of board and hole cards taken in order. */
  lemma PickedFromBoard(community: seq<Card>, a: Card, b: Card)
    requires |community| == 5
    ensures IsSubseq([community[1], community[3], community[4], a, b], community + [a, b])
  {
    var c := [community[1], community[3], community[4], a, b];
    var pool := community + [a, b];
    assert IsSubseq(c[5..], pool[7..]);
    assert IsSubseq(c[4..], pool[6..]);
    assert IsSubseq(c[3..], pool[5..]);
    assert IsSubseq(c[2..], pool[4..]);
    assert IsSubseq(c[1..], pool[3..]);
    assert IsSubseq(c[1..], pool[2..]);
    assert IsSubseq(c, pool[1..]);
  }

  /** Two distinct elements make a sequence of at least two. */
  lemma TwoMembers<T>(u: seq<T>, a: T, b: T)
    requires a in u && b in u && a != b
    ensures |u| >= 2
  {
  }

  /** Two cards off a board of three or more leave `find_nuts` something to try, so it
      answers. */
  lemma NutsExistBesides(community: seq<Card>, a: Card, b: Card)
    requires |community| >= 3 && a != b && a !in community && b !in community
    ensures FindNuts(community).Some?
  {
    var u := Undealt(community);
    assert a in u && b in u;
    TwoMembers(u, a, b);
  }

  /** When two cards off the board complete a straight flush with five cards of board and
      hole cards, the nuts are a straight flush at least as high. */
  lemma NutsAtLeastStraightFlush(community: seq<Card>, a: Card, b: Card, c: Five, r: Rank)
    requires |community| >= 3 && a !in community && b !in community && a.Position() < b.Position()
    requires IsSubseq(c, community + [a, b])
    requires HandTypeOf(FromCards(c)) == StraightFlush(r)
    ensures FindNuts(community).Some?
    ensures HandTypeOf(FindNuts(community).value.hand).StraightFlush?
    ensures r.Index() <= HandTypeOf(FindNuts(community).value.hand).top.Index()
  {
    NutsExistBesides(community, a, b);
    NutsAreBest(community, a, b);
    var withPair := HandWith(community, [a, b]);
    AtLeastStraightFlush(FromCards(c), withPair, r);
    AtLeastStraightFlush(withPair, FindNuts(community).value.hand, HandTypeOf(withPair).top);
  }

  /** On the board two to six of diamonds, which is itself a straight flush to the six,
      `find_nuts` answers, and its hand is a straight flush to the eight or higher: the
      seven and eight of diamonds improve the board, so the board's own hand is not the
      nuts. */
  lemma DiamondBoardNuts(community: seq<Card>)
    requires community == [Card(Two, Diamonds), Card(Four, Diamonds), Card(Three, Diamonds),
                           Card(Five, Diamonds), Card(Six, Diamonds)]
    ensures FindNuts(community).Some?
    ensures var t := HandTypeOf(FindNuts(community).value.hand);
            t.StraightFlush? && Eight.Index() <= t.top.Index()
  {
    var a, b := Card(Seven, Diamonds), Card(Eight, Diamonds);
    assert a !in community && b !in community && a.Position() < b.Position();
    var c: Five := [community[1], community[3], community[4], a, b];
    PickedFromBoard(community, a, b);
    EightHighStraightFlush(c);
    NutsAtLeastStraightFlush(community, a, b, c, Eight);
  }
}
