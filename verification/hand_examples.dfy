/** The hand-classification test vectors of `src/hands.rs`, and the hand-type order on
    examples. Each vector is proved in two steps: the category of the hand in sorted
    order, then that `Hand::from` puts the unsorted cards in exactly that order. */
module HandExamples {
  import opened Results
  import opened Ordering
  import opened Sorting
  import opened Cards
  import opened Grouping
  import opened Hands

  /** A rearrangement of the input in strictly decreasing card order is what `Hand::from`
      returns. */
  lemma HandFrom(cs: Five, sorted: Five)
    requires multiset(cs) == multiset(sorted)
    requires sorted[0].Position() > sorted[1].Position() > sorted[2].Position()
             > sorted[3].Position() > sorted[4].Position()
    ensures FromCards(cs) == Hand(sorted)
  {
    StepwiseSorted(sorted, PositionOf);
    PositionInjective();
    SortedUnique(FromCards(cs).cards, sorted, PositionOf);
  }

  /** A rearrangement of the runs with non-increasing (count, rank) is what the group sort
      returns. */
  lemma GroupsSortTo(gs: seq<Group>, sorted: seq<Group>)
    requires multiset(gs) == multiset(sorted)
    requires forall i :: 0 <= i < |sorted| - 1 ==> GroupKey(sorted[i + 1]) <= GroupKey(sorted[i])
    ensures SortGroups(gs) == sorted
  {
    StepwiseSorted(sorted, GroupKey);
    GroupKeyInjective();
    SortedUnique(SortGroups(gs), sorted, GroupKey);
  }

  /** Ranks other than the wheel with one broken step are no straight. */
  lemma BrokenStep(rs: seq<Rank>, i: nat)
    requires |rs| == 5 && rs != Wheel()
    requires 1 <= i < 5 && (rs[i] == Ace || rs[i].Successor() != rs[i - 1])
    ensures ExtractStraight(rs) == None
  {
  }

  /** A card off the first card's suit breaks the flush. */
  lemma OffSuit(h: Hand, i: nat)
    requires i < 5 && h.cards[i].suit != h.cards[0].suit
    ensures !IsFlush(h)
  {
  }

  /** `hand_type` read off its three inputs: the sorted ranks, the straight found in them
      and the flush test. */
  lemma Classified(h: Hand, rs: seq<Rank>, straight: Option<Rank>, flush: bool, t: HandType)
    requires Ranks(h) == rs && ExtractStraight(rs) == straight && IsFlush(h) == flush
    requires straight.Some? && flush ==> t == StraightFlush(straight.value)
    requires straight.Some? && !flush ==> t == Straight(straight.value)
    requires straight.None? && flush ==> t == Flush
    requires straight.None? && !flush ==> GroupCategory(rs) == t
    ensures HandTypeOf(h) == t
  {
  }

  // ---------------------------------------------------------------------------
  // The test vectors

  lemma PairOfFoursRuns(rs: seq<Rank>)
    requires |rs| == 5 && rs[0] == Six && rs[1] == Five && rs[2] == Four && rs[3] == Four && rs[4] == Two
    ensures RunLengths(rs) == [Group(1, Six), Group(1, Five), Group(2, Four), Group(1, Two)]
  {
    assert RunLengths(rs[4..]) == [Group(1, Two)];
    assert RunLengths(rs[3..]) == [Group(1, Four), Group(1, Two)];
    assert RunLengths(rs[2..]) == [Group(2, Four), Group(1, Two)];
    assert RunLengths(rs[1..]) == [Group(1, Five), Group(2, Four), Group(1, Two)];
  }

  lemma PairOfFoursGroups(runs: seq<Group>)
    requires multiset(runs) == multiset([Group(1, Six), Group(1, Five), Group(2, Four), Group(1, Two)])
    ensures var s := SortGroups(runs); |s| > 0 && Total(s) == 5 && GroupType(s) == Pair(Four)
  {
    GroupsSortTo(runs, [Group(2, Four), Group(1, Six), Group(1, Five), Group(1, Two)]);
    assert Total([Group(2, Four), Group(1, Six), Group(1, Five), Group(1, Two)]) == 5;
  }

  lemma PairOfFoursSorted(h: Hand)
    requires h == Hand([Card(Six, Diamonds), Card(Five, Diamonds), Card(Four, Diamonds),
                        Card(Four, Clubs), Card(Two, Diamonds)])
    ensures HandTypeOf(h) == Pair(Four)
  {
    var rs := [Six, Five, Four, Four, Two];
    assert Ranks(h) == rs;
    assert rs[0] != Wheel()[0];
    BrokenStep(rs, 3);
    PairOfFoursRuns(rs);
    PairOfFoursGroups(RunLengths(rs));
    OffSuit(h, 3);
    Classified(h, rs, None, false, Pair(Four));
  }

  lemma PairOfFoursCards(cs: Five, sorted: Five)
    requires cs == [Card(Two, Diamonds), Card(Four, Diamonds), Card(Four, Clubs),
                    Card(Five, Diamonds), Card(Six, Diamonds)]
    requires sorted == [Card(Six, Diamonds), Card(Five, Diamonds), Card(Four, Diamonds),
                        Card(Four, Clubs), Card(Two, Diamonds)]
    ensures multiset(cs) == multiset(sorted)
  {
  }

  /** Five cards listed in strictly decreasing card order. */
  lemma DescendingFive(sorted: Five, c0: Card, c1: Card, c2: Card, c3: Card, c4: Card)
    requires sorted == [c0, c1, c2, c3, c4]
    requires c0.Position() > c1.Position() > c2.Position() > c3.Position() > c4.Position()
    ensures sorted[0].Position() > sorted[1].Position() > sorted[2].Position()
            > sorted[3].Position() > sorted[4].Position()
  {
  }

  lemma PairOfFoursOrder(sorted: Five)
    requires sorted == [Card(Six, Diamonds), Card(Five, Diamonds), Card(Four, Diamonds),
                        Card(Four, Clubs), Card(Two, Diamonds)]
    ensures sorted[0].Position() > sorted[1].Position() > sorted[2].Position()
            > sorted[3].Position() > sorted[4].Position()
  {
    DescendingFive(sorted, Card(Six, Diamonds), Card(Five, Diamonds), Card(Four, Diamonds),
                   Card(Four, Clubs), Card(Two, Diamonds));
  }

  /** "2d,4d,4c,5d,6d" is a pair of fours. */
  lemma PairOfFours(cs: Five)
    requires cs == [Card(Two, Diamonds), Card(Four, Diamonds), Card(Four, Clubs),
                    Card(Five, Diamonds), Card(Six, Diamonds)]
    ensures HandTypeOf(FromCards(cs)) == Pair(Four)
  {
    var sorted := [Card(Six, Diamonds), Card(Five, Diamonds), Card(Four, Diamonds),
                  Card(Four, Clubs), Card(Two, Diamonds)];
    PairOfFoursCards(cs, sorted);
    PairOfFoursOrder(sorted);
    HandFrom(cs, sorted);
    PairOfFoursSorted(FromCards(cs));
  }

  lemma FivesAndFoursRuns(rs: seq<Rank>)
    requires |rs| == 5 && rs[0] == Five && rs[1] == Five && rs[2] == Four && rs[3] == Four && rs[4] == Two
    ensures RunLengths(rs) == [Group(2, Five), Group(2, Four), Group(1, Two)]
  {
    assert RunLengths(rs[4..]) == [Group(1, Two)];
    assert RunLengths(rs[3..]) == [Group(1, Four), Group(1, Two)];
    assert RunLengths(rs[2..]) == [Group(2, Four), Group(1, Two)];
    assert RunLengths(rs[1..]) == [Group(1, Five), Group(2, Four), Group(1, Two)];
  }

  lemma FivesAndFoursGroups(runs: seq<Group>)
    requires multiset(runs) == multiset([Group(2, Five), Group(2, Four), Group(1, Two)])
    ensures var s := SortGroups(runs); |s| > 0 && Total(s) == 5 && GroupType(s) == TwoPair(Five, Four)
  {
    GroupsSortTo(runs, [Group(2, Five), Group(2, Four), Group(1, Two)]);
    assert Total([Group(2, Five), Group(2, Four), Group(1, Two)]) == 5;
  }

  lemma FivesAndFoursSorted(h: Hand)
    requires h == Hand([Card(Five, Diamonds), Card(Five, Spades), Card(Four, Diamonds),
                        Card(Four, Clubs), Card(Two, Diamonds)])
    ensures HandTypeOf(h) == TwoPair(Five, Four)
  {
    var rs := [Five, Five, Four, Four, Two];
    assert Ranks(h) == rs;
    assert rs[0] != Wheel()[0];
    BrokenStep(rs, 1);
    FivesAndFoursRuns(rs);
    FivesAndFoursGroups(RunLengths(rs));
    OffSuit(h, 1);
    Classified(h, rs, None, false, TwoPair(Five, Four));
  }

  lemma FivesAndFoursCards(cs: Five, sorted: Five)
    requires cs == [Card(Two, Diamonds), Card(Four, Diamonds), Card(Four, Clubs),
                    Card(Five, Diamonds), Card(Five, Spades)]
    requires sorted == [Card(Five, Diamonds), Card(Five, Spades), Card(Four, Diamonds),
                        Card(Four, Clubs), Card(Two, Diamonds)]
    ensures multiset(cs) == multiset(sorted)
  {
  }

  lemma FivesAndFoursOrder(sorted: Five)
    requires sorted == [Card(Five, Diamonds), Card(Five, Spades), Card(Four, Diamonds),
                        Card(Four, Clubs), Card(Two, Diamonds)]
    ensures sorted[0].Position() > sorted[1].Position() > sorted[2].Position()
            > sorted[3].Position() > sorted[4].Position()
  {
    DescendingFive(sorted, Card(Five, Diamonds), Card(Five, Spades), Card(Four, Diamonds),
                   Card(Four, Clubs), Card(Two, Diamonds));
  }

  /** "2d,4d,4c,5d,5s" is two pair, fives over fours. */
  lemma FivesAndFours(cs: Five)
    requires cs == [Card(Two, Diamonds), Card(Four, Diamonds), Card(Four, Clubs),
                    Card(Five, Diamonds), Card(Five, Spades)]
    ensures HandTypeOf(FromCards(cs)) == TwoPair(Five, Four)
  {
    var sorted := [Card(Five, Diamonds), Card(Five, Spades), Card(Four, Diamonds),
                  Card(Four, Clubs), Card(Two, Diamonds)];
    FivesAndFoursCards(cs, sorted);
    FivesAndFoursOrder(sorted);
    HandFrom(cs, sorted);
    FivesAndFoursSorted(FromCards(cs));
  }

  lemma FoursFullOfFivesRuns(rs: seq<Rank>)
    requires |rs| == 5 && rs[0] == Five && rs[1] == Five && rs[2] == Four && rs[3] == Four && rs[4] == Four
    ensures RunLengths(rs) == [Group(2, Five), Group(3, Four)]
  {
    assert RunLengths(rs[4..]) == [Group(1, Four)];
    assert RunLengths(rs[3..]) == [Group(2, Four)];
    assert RunLengths(rs[2..]) == [Group(3, Four)];
    assert RunLengths(rs[1..]) == [Group(1, Five), Group(3, Four)];
  }

  lemma FoursFullOfFivesGroups(runs: seq<Group>)
    requires multiset(runs) == multiset([Group(2, Five), Group(3, Four)])
    ensures var s := SortGroups(runs); |s| > 0 && Total(s) == 5 && GroupType(s) == FullHouse(Four, Five)
  {
    GroupsSortTo(runs, [Group(3, Four), Group(2, Five)]);
    assert Total([Group(3, Four), Group(2, Five)]) == 5;
  }

  lemma FoursFullOfFivesSorted(h: Hand)
    requires h == Hand([Card(Five, Diamonds), Card(Five, Spades), Card(Four, Diamonds),
                        Card(Four, Clubs), Card(Four, Hearts)])
    ensures HandTypeOf(h) == FullHouse(Four, Five)
  {
    var rs := [Five, Five, Four, Four, Four];
    assert Ranks(h) == rs;
    assert rs[0] != Wheel()[0];
    BrokenStep(rs, 1);
    FoursFullOfFivesRuns(rs);
    FoursFullOfFivesGroups(RunLengths(rs));
    OffSuit(h, 1);
    Classified(h, rs, None, false, FullHouse(Four, Five));
  }

  lemma FoursFullOfFivesCards(cs: Five, sorted: Five)
    requires cs == [Card(Four, Hearts), Card(Four, Diamonds), Card(Four, Clubs),
                    Card(Five, Diamonds), Card(Five, Spades)]
    requires sorted == [Card(Five, Diamonds), Card(Five, Spades), Card(Four, Diamonds),
                        Card(Four, Clubs), Card(Four, Hearts)]
    ensures multiset(cs) == multiset(sorted)
  {
  }

  lemma FoursFullOfFivesOrder(sorted: Five)
    requires sorted == [Card(Five, Diamonds), Card(Five, Spades), Card(Four, Diamonds),
                        Card(Four, Clubs), Card(Four, Hearts)]
    ensures sorted[0].Position() > sorted[1].Position() > sorted[2].Position()
            > sorted[3].Position() > sorted[4].Position()
  {
    DescendingFive(sorted, Card(Five, Diamonds), Card(Five, Spades), Card(Four, Diamonds),
                   Card(Four, Clubs), Card(Four, Hearts));
  }

  /** Three fours and two fives are a full house of fours over fives. */
  lemma FoursFullOfFives(cs: Five)
    requires cs == [Card(Four, Hearts), Card(Four, Diamonds), Card(Four, Clubs),
                    Card(Five, Diamonds), Card(Five, Spades)]
    ensures HandTypeOf(FromCards(cs)) == FullHouse(Four, Five)
  {
    var sorted := [Card(Five, Diamonds), Card(Five, Spades), Card(Four, Diamonds),
                  Card(Four, Clubs), Card(Four, Hearts)];
    FoursFullOfFivesCards(cs, sorted);
    FoursFullOfFivesOrder(sorted);
    HandFrom(cs, sorted);
    FoursFullOfFivesSorted(FromCards(cs));
  }

  lemma ThreeFoursRuns(rs: seq<Rank>)
    requires |rs| == 5 && rs[0] == Ace && rs[1] == Five && rs[2] == Four && rs[3] == Four && rs[4] == Four
    ensures RunLengths(rs) == [Group(1, Ace), Group(1, Five), Group(3, Four)]
  {
    assert RunLengths(rs[4..]) == [Group(1, Four)];
    assert RunLengths(rs[3..]) == [Group(2, Four)];
    assert RunLengths(rs[2..]) == [Group(3, Four)];
    assert RunLengths(rs[1..]) == [Group(1, Five), Group(3, Four)];
  }

  lemma ThreeFoursGroups(runs: seq<Group>)
    requires multiset(runs) == multiset([Group(1, Ace), Group(1, Five), Group(3, Four)])
    ensures var s := SortGroups(runs); |s| > 0 && Total(s) == 5 && GroupType(s) == ThreeOfAKind(Four)
  {
    GroupsSortTo(runs, [Group(3, Four), Group(1, Ace), Group(1, Five)]);
    assert Total([Group(3, Four), Group(1, Ace), Group(1, Five)]) == 5;
  }

  lemma ThreeFoursSorted(h: Hand)
    requires h == Hand([Card(Ace, Spades), Card(Five, Diamonds), Card(Four, Diamonds),
                        Card(Four, Clubs), Card(Four, Hearts)])
    ensures HandTypeOf(h) == ThreeOfAKind(Four)
  {
    var rs := [Ace, Five, Four, Four, Four];
    assert Ranks(h) == rs;
    assert rs[3] != Wheel()[3];
    BrokenStep(rs, 1);
    ThreeFoursRuns(rs);
    ThreeFoursGroups(RunLengths(rs));
    OffSuit(h, 1);
    Classified(h, rs, None, false, ThreeOfAKind(Four));
  }

  lemma ThreeFoursCards(cs: Five, sorted: Five)
    requires cs == [Card(Four, Hearts), Card(Four, Diamonds), Card(Four, Clubs),
                    Card(Five, Diamonds), Card(Ace, Spades)]
    requires sorted == [Card(Ace, Spades), Card(Five, Diamonds), Card(Four, Diamonds),
                        Card(Four, Clubs), Card(Four, Hearts)]
    ensures multiset(cs) == multiset(sorted)
  {
  }

  lemma ThreeFoursOrder(sorted: Five)
    requires sorted == [Card(Ace, Spades), Card(Five, Diamonds), Card(Four, Diamonds),
                        Card(Four, Clubs), Card(Four, Hearts)]
    ensures sorted[0].Position() > sorted[1].Position() > sorted[2].Position()
            > sorted[3].Position() > sorted[4].Position()
  {
    DescendingFive(sorted, Card(Ace, Spades), Card(Five, Diamonds), Card(Four, Diamonds),
                   Card(Four, Clubs), Card(Four, Hearts));
  }

  /** Three fours with a five and an ace are three of a kind. */
  lemma ThreeFours(cs: Five)
    requires cs == [Card(Four, Hearts), Card(Four, Diamonds), Card(Four, Clubs),
                    Card(Five, Diamonds), Card(Ace, Spades)]
    ensures HandTypeOf(FromCards(cs)) == ThreeOfAKind(Four)
  {
    var sorted := [Card(Ace, Spades), Card(Five, Diamonds), Card(Four, Diamonds),
                  Card(Four, Clubs), Card(Four, Hearts)];
    ThreeFoursCards(cs, sorted);
    ThreeFoursOrder(sorted);
    HandFrom(cs, sorted);
    ThreeFoursSorted(FromCards(cs));
  }

  lemma PairOfAcesRuns(rs: seq<Rank>)
    requires |rs| == 5 && rs[0] == Ace && rs[1] == Ace && rs[2] == Four && rs[3] == Three && rs[4] == Two
    ensures RunLengths(rs) == [Group(2, Ace), Group(1, Four), Group(1, Three), Group(1, Two)]
  {
    assert RunLengths(rs[4..]) == [Group(1, Two)];
    assert RunLengths(rs[3..]) == [Group(1, Three), Group(1, Two)];
    assert RunLengths(rs[2..]) == [Group(1, Four), Group(1, Three), Group(1, Two)];
    assert RunLengths(rs[1..]) == [Group(1, Ace), Group(1, Four), Group(1, Three), Group(1, Two)];
  }

  lemma PairOfAcesGroups(runs: seq<Group>)
    requires multiset(runs) == multiset([Group(2, Ace), Group(1, Four), Group(1, Three), Group(1, Two)])
    ensures var s := SortGroups(runs); |s| > 0 && Total(s) == 5 && GroupType(s) == Pair(Ace)
  {
    GroupsSortTo(runs, [Group(2, Ace), Group(1, Four), Group(1, Three), Group(1, Two)]);
    assert Total([Group(2, Ace), Group(1, Four), Group(1, Three), Group(1, Two)]) == 5;
  }

  lemma PairOfAcesSorted(h: Hand)
    requires h == Hand([Card(Ace, Diamonds), Card(Ace, Clubs), Card(Four, Diamonds),
                        Card(Three, Diamonds), Card(Two, Diamonds)])
    ensures HandTypeOf(h) == Pair(Ace)
  {
    var rs := [Ace, Ace, Four, Three, Two];
    assert Ranks(h) == rs;
    assert rs[1] != Wheel()[1];
    BrokenStep(rs, 1);
    PairOfAcesRuns(rs);
    PairOfAcesGroups(RunLengths(rs));
    OffSuit(h, 1);
    Classified(h, rs, None, false, Pair(Ace));
  }

  lemma PairOfAcesCards(cs: Five, sorted: Five)
    requires cs == [Card(Two, Diamonds), Card(Four, Diamonds), Card(Three, Diamonds),
                    Card(Ace, Diamonds), Card(Ace, Clubs)]
    requires sorted == [Card(Ace, Diamonds), Card(Ace, Clubs), Card(Four, Diamonds),
                        Card(Three, Diamonds), Card(Two, Diamonds)]
    ensures multiset(cs) == multiset(sorted)
  {
  }

  lemma PairOfAcesOrder(sorted: Five)
    requires sorted == [Card(Ace, Diamonds), Card(Ace, Clubs), Card(Four, Diamonds),
                        Card(Three, Diamonds), Card(Two, Diamonds)]
    ensures sorted[0].Position() > sorted[1].Position() > sorted[2].Position()
            > sorted[3].Position() > sorted[4].Position()
  {
    DescendingFive(sorted, Card(Ace, Diamonds), Card(Ace, Clubs), Card(Four, Diamonds),
                   Card(Three, Diamonds), Card(Two, Diamonds));
  }

  /** Two aces beside a suited 2, 3, 4 are a pair of aces: without the five there is no
      straight. */
  lemma PairOfAces(cs: Five)
    requires cs == [Card(Two, Diamonds), Card(Four, Diamonds), Card(Three, Diamonds),
                    Card(Ace, Diamonds), Card(Ace, Clubs)]
    ensures HandTypeOf(FromCards(cs)) == Pair(Ace)
  {
    var sorted := [Card(Ace, Diamonds), Card(Ace, Clubs), Card(Four, Diamonds),
                  Card(Three, Diamonds), Card(Two, Diamonds)];
    PairOfAcesCards(cs, sorted);
    PairOfAcesOrder(sorted);
    HandFrom(cs, sorted);
    PairOfAcesSorted(FromCards(cs));
  }

  lemma SixHighStraightFlushTop(rs: seq<Rank>)
    requires rs == [Six, Five, Four, Three, Two]
    ensures ExtractStraight(rs) == Some(Six)
  {
    assert rs[0] != Wheel()[0];
  }

  lemma SixHighStraightFlushSorted(h: Hand)
    requires h == Hand([Card(Six, Diamonds), Card(Five, Diamonds), Card(Four, Diamonds),
                        Card(Three, Diamonds), Card(Two, Diamonds)])
    ensures HandTypeOf(h) == StraightFlush(Six)
  {
    var rs := [Six, Five, Four, Three, Two];
    assert Ranks(h) == rs;
    SixHighStraightFlushTop(rs);
    Classified(h, rs, Some(Six), true, StraightFlush(Six));
  }

  lemma SixHighStraightFlushCards(cs: Five, sorted: Five)
    requires cs == [Card(Two, Diamonds), Card(Four, Diamonds), Card(Three, Diamonds),
                    Card(Five, Diamonds), Card(Six, Diamonds)]
    requires sorted == [Card(Six, Diamonds), Card(Five, Diamonds), Card(Four, Diamonds),
                        Card(Three, Diamonds), Card(Two, Diamonds)]
    ensures multiset(cs) == multiset(sorted)
  {
  }

  lemma SixHighStraightFlushOrder(sorted: Five)
    requires sorted == [Card(Six, Diamonds), Card(Five, Diamonds), Card(Four, Diamonds),
                        Card(Three, Diamonds), Card(Two, Diamonds)]
    ensures sorted[0].Position() > sorted[1].Position() > sorted[2].Position()
            > sorted[3].Position() > sorted[4].Position()
  {
    DescendingFive(sorted, Card(Six, Diamonds), Card(Five, Diamonds), Card(Four, Diamonds),
                   Card(Three, Diamonds), Card(Two, Diamonds));
  }

  /** Suited two to six is a straight flush to the six. */
  lemma SixHighStraightFlush(cs: Five)
    requires cs == [Card(Two, Diamonds), Card(Four, Diamonds), Card(Three, Diamonds),
                    Card(Five, Diamonds), Card(Six, Diamonds)]
    ensures HandTypeOf(FromCards(cs)) == StraightFlush(Six)
  {
    var sorted := [Card(Six, Diamonds), Card(Five, Diamonds), Card(Four, Diamonds),
                  Card(Three, Diamonds), Card(Two, Diamonds)];
    SixHighStraightFlushCards(cs, sorted);
    SixHighStraightFlushOrder(sorted);
    HandFrom(cs, sorted);
    SixHighStraightFlushSorted(FromCards(cs));
  }

  lemma SuitedWheelTop(rs: seq<Rank>)
    requires rs == [Ace, Five, Four, Three, Two]
    ensures ExtractStraight(rs) == Some(Five)
  {
  }

  lemma SuitedWheelSorted(h: Hand)
    requires h == Hand([Card(Ace, Diamonds), Card(Five, Diamonds), Card(Four, Diamonds),
                        Card(Three, Diamonds), Card(Two, Diamonds)])
    ensures HandTypeOf(h) == StraightFlush(Five)
  {
    var rs := [Ace, Five, Four, Three, Two];
    assert Ranks(h) == rs;
    SuitedWheelTop(rs);
    Classified(h, rs, Some(Five), true, StraightFlush(Five));
  }

  lemma SuitedWheelCards(cs: Five, sorted: Five)
    requires cs == [Card(Two, Diamonds), Card(Four, Diamonds), Card(Three, Diamonds),
                    Card(Five, Diamonds), Card(Ace, Diamonds)]
    requires sorted == [Card(Ace, Diamonds), Card(Five, Diamonds), Card(Four, Diamonds),
                        Card(Three, Diamonds), Card(Two, Diamonds)]
    ensures multiset(cs) == multiset(sorted)
  {
  }

  lemma SuitedWheelOrder(sorted: Five)
    requires sorted == [Card(Ace, Diamonds), Card(Five, Diamonds), Card(Four, Diamonds),
                        Card(Three, Diamonds), Card(Two, Diamonds)]
    ensures sorted[0].Position() > sorted[1].Position() > sorted[2].Position()
            > sorted[3].Position() > sorted[4].Position()
  {
    DescendingFive(sorted, Card(Ace, Diamonds), Card(Five, Diamonds), Card(Four, Diamonds),
                   Card(Three, Diamonds), Card(Two, Diamonds));
  }

  /** The suited wheel is a straight flush to the five, not to the ace. */
  lemma SuitedWheel(cs: Five)
    requires cs == [Card(Two, Diamonds), Card(Four, Diamonds), Card(Three, Diamonds),
                    Card(Five, Diamonds), Card(Ace, Diamonds)]
    ensures HandTypeOf(FromCards(cs)) == StraightFlush(Five)
  {
    var sorted := [Card(Ace, Diamonds), Card(Five, Diamonds), Card(Four, Diamonds),
                  Card(Three, Diamonds), Card(Two, Diamonds)];
    SuitedWheelCards(cs, sorted);
    SuitedWheelOrder(sorted);
    HandFrom(cs, sorted);
    SuitedWheelSorted(FromCards(cs));
  }

  lemma NoWrapAroundSorted(h: Hand)
    requires h == Hand([Card(Ace, Diamonds), Card(King, Diamonds), Card(Four, Diamonds),
                        Card(Three, Diamonds), Card(Two, Diamonds)])
    ensures HandTypeOf(h) == Flush
  {
    var rs := [Ace, King, Four, Three, Two];
    assert Ranks(h) == rs;
    assert rs[1] != Wheel()[1];
    BrokenStep(rs, 2);
    Classified(h, rs, None, true, Flush);
  }

  lemma NoWrapAroundCards(cs: Five, sorted: Five)
    requires cs == [Card(Two, Diamonds), Card(Four, Diamonds), Card(Three, Diamonds),
                    Card(King, Diamonds), Card(Ace, Diamonds)]
    requires sorted == [Card(Ace, Diamonds), Card(King, Diamonds), Card(Four, Diamonds),
                        Card(Three, Diamonds), Card(Two, Diamonds)]
    ensures multiset(cs) == multiset(sorted)
  {
  }

  lemma NoWrapAroundOrder(sorted: Five)
    requires sorted == [Card(Ace, Diamonds), Card(King, Diamonds), Card(Four, Diamonds),
                        Card(Three, Diamonds), Card(Two, Diamonds)]
    ensures sorted[0].Position() > sorted[1].Position() > sorted[2].Position()
            > sorted[3].Position() > sorted[4].Position()
  {
    DescendingFive(sorted, Card(Ace, Diamonds), Card(King, Diamonds), Card(Four, Diamonds),
                   Card(Three, Diamonds), Card(Two, Diamonds));
  }

  /** Suited A, K, 4, 3, 2 is a flush: the ace does not wrap around from the king to the two. */
  lemma NoWrapAround(cs: Five)
    requires cs == [Card(Two, Diamonds), Card(Four, Diamonds), Card(Three, Diamonds),
                    Card(King, Diamonds), Card(Ace, Diamonds)]
    ensures HandTypeOf(FromCards(cs)) == Flush
  {
    var sorted := [Card(Ace, Diamonds), Card(King, Diamonds), Card(Four, Diamonds),
                  Card(Three, Diamonds), Card(Two, Diamonds)];
    NoWrapAroundCards(cs, sorted);
    NoWrapAroundOrder(sorted);
    HandFrom(cs, sorted);
    NoWrapAroundSorted(FromCards(cs));
  }

  lemma AceKingFlushSorted(h: Hand)
    requires h == Hand([Card(Ace, Diamonds), Card(King, Diamonds), Card(Eight, Diamonds),
                        Card(Three, Diamonds), Card(Two, Diamonds)])
    ensures HandTypeOf(h) == Flush
  {
    var rs := [Ace, King, Eight, Three, Two];
    assert Ranks(h) == rs;
    assert rs[1] != Wheel()[1];
    BrokenStep(rs, 2);
    Classified(h, rs, None, true, Flush);
  }

  lemma AceKingFlushCards(cs: Five, sorted: Five)
    requires cs == [Card(Two, Diamonds), Card(Eight, Diamonds), Card(Three, Diamonds),
                    Card(King, Diamonds), Card(Ace, Diamonds)]
    requires sorted == [Card(Ace, Diamonds), Card(King, Diamonds), Card(Eight, Diamonds),
                        Card(Three, Diamonds), Card(Two, Diamonds)]
    ensures multiset(cs) == multiset(sorted)
  {
  }

  lemma AceKingFlushOrder(sorted: Five)
    requires sorted == [Card(Ace, Diamonds), Card(King, Diamonds), Card(Eight, Diamonds),
                        Card(Three, Diamonds), Card(Two, Diamonds)]
    ensures sorted[0].Position() > sorted[1].Position() > sorted[2].Position()
            > sorted[3].Position() > sorted[4].Position()
  {
    DescendingFive(sorted, Card(Ace, Diamonds), Card(King, Diamonds), Card(Eight, Diamonds),
                   Card(Three, Diamonds), Card(Two, Diamonds));
  }

  /** Suited A, K, 8, 3, 2 is a flush. */
  lemma AceKingFlush(cs: Five)
    requires cs == [Card(Two, Diamonds), Card(Eight, Diamonds), Card(Three, Diamonds),
                    Card(King, Diamonds), Card(Ace, Diamonds)]
    ensures HandTypeOf(FromCards(cs)) == Flush
  {
    var sorted := [Card(Ace, Diamonds), Card(King, Diamonds), Card(Eight, Diamonds),
                  Card(Three, Diamonds), Card(Two, Diamonds)];
    AceKingFlushCards(cs, sorted);
    AceKingFlushOrder(sorted);
    HandFrom(cs, sorted);
    AceKingFlushSorted(FromCards(cs));
  }

  lemma RoyalFlushTop(rs: seq<Rank>)
    requires rs == [Ace, King, Queen, Jack, Ten]
    ensures ExtractStraight(rs) == Some(Ace)
  {
    assert rs[1] != Wheel()[1];
  }

  lemma RoyalFlushSorted(h: Hand)
    requires h == Hand([Card(Ace, Diamonds), Card(King, Diamonds), Card(Queen, Diamonds),
                        Card(Jack, Diamonds), Card(Ten, Diamonds)])
    ensures HandTypeOf(h) == StraightFlush(Ace)
  {
    var rs := [Ace, King, Queen, Jack, Ten];
    assert Ranks(h) == rs;
    RoyalFlushTop(rs);
    Classified(h, rs, Some(Ace), true, StraightFlush(Ace));
  }

  lemma RoyalFlushCards(cs: Five, sorted: Five)
    requires cs == [Card(Ace, Diamonds), Card(Queen, Diamonds), Card(Jack, Diamonds),
                    Card(King, Diamonds), Card(Ten, Diamonds)]
    requires sorted == [Card(Ace, Diamonds), Card(King, Diamonds), Card(Queen, Diamonds),
                        Card(Jack, Diamonds), Card(Ten, Diamonds)]
    ensures multiset(cs) == multiset(sorted)
  {
  }

  lemma RoyalFlushOrder(sorted: Five)
    requires sorted == [Card(Ace, Diamonds), Card(King, Diamonds), Card(Queen, Diamonds),
                        Card(Jack, Diamonds), Card(Ten, Diamonds)]
    ensures sorted[0].Position() > sorted[1].Position() > sorted[2].Position()
            > sorted[3].Position() > sorted[4].Position()
  {
    DescendingFive(sorted, Card(Ace, Diamonds), Card(King, Diamonds), Card(Queen, Diamonds),
                   Card(Jack, Diamonds), Card(Ten, Diamonds));
  }

  /** "ad,qd,jd,kd,10d" is a straight flush to the ace. */
  lemma RoyalFlush(cs: Five)
    requires cs == [Card(Ace, Diamonds), Card(Queen, Diamonds), Card(Jack, Diamonds),
                    Card(King, Diamonds), Card(Ten, Diamonds)]
    ensures HandTypeOf(FromCards(cs)) == StraightFlush(Ace)
  {
    var sorted := [Card(Ace, Diamonds), Card(King, Diamonds), Card(Queen, Diamonds),
                  Card(Jack, Diamonds), Card(Ten, Diamonds)];
    RoyalFlushCards(cs, sorted);
    RoyalFlushOrder(sorted);
    HandFrom(cs, sorted);
    RoyalFlushSorted(FromCards(cs));
  }

  lemma SixHighStraightTop(rs: seq<Rank>)
    requires rs == [Six, Five, Four, Three, Two]
    ensures ExtractStraight(rs) == Some(Six)
  {
    assert rs[0] != Wheel()[0];
  }

  lemma SixHighStraightSorted(h: Hand)
    requires h == Hand([Card(Six, Clubs), Card(Five, Diamonds), Card(Four, Diamonds),
                        Card(Three, Diamonds), Card(Two, Diamonds)])
    ensures HandTypeOf(h) == Straight(Six)
  {
    var rs := [Six, Five, Four, Three, Two];
    assert Ranks(h) == rs;
    SixHighStraightTop(rs);
    OffSuit(h, 1);
    Classified(h, rs, Some(Six), false, Straight(Six));
  }

  lemma SixHighStraightCards(cs: Five, sorted: Five)
    requires cs == [Card(Two, Diamonds), Card(Four, Diamonds), Card(Three, Diamonds),
                    Card(Five, Diamonds), Card(Six, Clubs)]
    requires sorted == [Card(Six, Clubs), Card(Five, Diamonds), Card(Four, Diamonds),
                        Card(Three, Diamonds), Card(Two, Diamonds)]
    ensures multiset(cs) == multiset(sorted)
  {
  }

  lemma SixHighStraightOrder(sorted: Five)
    requires sorted == [Card(Six, Clubs), Card(Five, Diamonds), Card(Four, Diamonds),
                        Card(Three, Diamonds), Card(Two, Diamonds)]
    ensures sorted[0].Position() > sorted[1].Position() > sorted[2].Position()
            > sorted[3].Position() > sorted[4].Position()
  {
    DescendingFive(sorted, Card(Six, Clubs), Card(Five, Diamonds), Card(Four, Diamonds),
                   Card(Three, Diamonds), Card(Two, Diamonds));
  }

  /** "2d,4d,3d,5d,6c" is a plain straight to the six. */
  lemma SixHighStraight(cs: Five)
    requires cs == [Card(Two, Diamonds), Card(Four, Diamonds), Card(Three, Diamonds),
                    Card(Five, Diamonds), Card(Six, Clubs)]
    ensures HandTypeOf(FromCards(cs)) == Straight(Six)
  {
    var sorted := [Card(Six, Clubs), Card(Five, Diamonds), Card(Four, Diamonds),
                  Card(Three, Diamonds), Card(Two, Diamonds)];
    SixHighStraightCards(cs, sorted);
    SixHighStraightOrder(sorted);
    HandFrom(cs, sorted);
    SixHighStraightSorted(FromCards(cs));
  }

  /** Within one category the embedded rank decides: a pair of kings beats a pair of
      twos, and full houses with equal triples compare by the pair. Across categories the
      variant decides: any two pair `a`, `b` beats any pair `c`. */
  lemma HandTypeOrderExamples(a: Rank, b: Rank, c: Rank)
    ensures HandTypeCmp(Pair(King), Pair(Two)) == Greater
    ensures HandTypeCmp(TwoPair(a, b), Pair(c)) == Greater
    ensures HandTypeCmp(FullHouse(Four, Five), FullHouse(Four, Three)) == Greater
  {
    HandTypeOrderIsDerived(TwoPair(a, b), Pair(c));
  }
}
