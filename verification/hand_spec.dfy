/** What `hand_type` computes, stated from rank multiplicities and suits alone, and the
    proof that the run-length algorithm computes exactly that. */
module HandSpec {
  import opened Results
  import opened Sorting
  import opened Cards
  import opened Grouping
  import opened Hands

  /** The rank whose discriminant is `n`. */
  function RankAt(n: nat): (r: Rank)
    requires n < 13
    ensures r.Index() == n
  {
    RankFromIndex(n).value
  }

  lemma RankAtIndex(r: Rank)
    ensures r.Index() < 13 && RankAt(r.Index()) == r
  {
    RankIndexRoundTrip(r);
  }

  /** The five ranks of the straight whose top rank is `top`, highest first. The ace plays
      low only in the straight topped by Five, and no straight has a lower top. */
  function Run(top: Rank): (rs: seq<Rank>)
    requires top.Index() >= 3
    ensures |rs| == 5
    ensures top == Five ==> rs == Wheel()
    ensures top != Five ==> top.Index() >= 4 && forall i :: 0 <= i < 5 ==> rs[i].Index() == top.Index() - i
  {
    RankAtIndex(top);
    if top == Five then Wheel()
    else
      assert top.Index() != 3 by { RankAtIndex(Five); }
      seq(5, i requires 0 <= i < 5 => RankAt(top.Index() - i))
  }

  /** The rank multiset is that of a straight topped by `top`. */
  ghost predicate IsStraight(rm: multiset<Rank>, top: Rank) {
    top.Index() >= 3 && rm == multiset(Run(top))
  }

  ghost predicate NoStraight(rm: multiset<Rank>) {
    forall top :: !IsStraight(rm, top)
  }

  /** The rank-group categories, by multiplicities: four of a kind, a full house as
      (three, two), three of a kind with no pair beside it, two pairs higher first, one
      pair with nothing else repeated, and no rank repeated (or, for a degenerate array
      of five cards of one rank, all five the same). */
  ghost predicate GroupDescribes(t: HandType, rm: multiset<Rank>) {
    match t
    case FourOfAKind(q) => rm[q] == 4
    case FullHouse(a, b) => rm[a] == 3 && rm[b] == 2
    case ThreeOfAKind(a) => rm[a] == 3 && forall x :: rm[x] != 2
    case TwoPair(a, b) => rm[a] == 2 && rm[b] == 2 && b.Index() < a.Index()
    case Pair(a) => rm[a] == 2 && forall x :: x != a ==> rm[x] < 2
    case HighCard => (forall x :: rm[x] <= 1) || (exists x :: rm[x] == 5)
    case _ => false
  }

  /** The category of five cards with rank multiset `rm`, all of one suit when `flush`:
      a straight and a flush make a straight flush, a straight alone a straight, a flush
      alone a flush, and only when neither is present do the rank groups decide. */
  ghost predicate Describes(t: HandType, rm: multiset<Rank>, flush: bool) {
    match t
    case StraightFlush(top) => flush && IsStraight(rm, top)
    case Straight(top) => !flush && IsStraight(rm, top)
    case Flush => flush && NoStraight(rm)
    case _ => !flush && NoStraight(rm) && GroupDescribes(t, rm)
  }

  /** All cards share one suit. */
  ghost predicate SameSuit(cs: seq<Card>) {
    forall i, j :: 0 <= i < |cs| && 0 <= j < |cs| ==> cs[i].suit == cs[j].suit
  }

  // ---------------------------------------------------------------------------
  // Counting ranks

  lemma {:induction false} PairBound(rs: seq<Rank>, x: Rank, y: Rank)
    requires x != y
    ensures multiset(rs)[x] + multiset(rs)[y] <= |rs|
  {
    if |rs| > 0 {
      assert rs == [rs[0]] + rs[1..];
      PairBound(rs[1..], x, y);
    }
  }

  lemma {:induction false} TripleBound(rs: seq<Rank>, x: Rank, y: Rank, z: Rank)
    requires x != y && y != z && x != z
    ensures multiset(rs)[x] + multiset(rs)[y] + multiset(rs)[z] <= |rs|
  {
    if |rs| > 0 {
      assert rs == [rs[0]] + rs[1..];
      TripleBound(rs[1..], x, y, z);
    }
  }

  lemma SingleBound(rs: seq<Rank>, x: Rank)
    ensures multiset(rs)[x] <= |rs|
  {
    PairBound(rs, x, if x == Two then Three else Two);
  }

  /** A rank's multiplicity among the ranks of some cards is the number of cards of that
      rank, one suit at a time. */
  lemma {:induction false} RankMultiplicity(cs: seq<Card>, r: Rank)
    ensures multiset(RanksOf(cs))[r]
         == multiset(cs)[Card(r, Hearts)] + multiset(cs)[Card(r, Clubs)]
          + multiset(cs)[Card(r, Spades)] + multiset(cs)[Card(r, Diamonds)]
  {
    if |cs| > 0 {
      var c := cs[0];
      assert cs == [c] + cs[1..];
      assert RanksOf(cs) == [c.rank] + RanksOf(cs[1..]);
      assert multiset(RanksOf(cs)) == multiset{c.rank} + multiset(RanksOf(cs[1..]));
      assert multiset(cs) == multiset{c} + multiset(cs[1..]);
      RankMultiplicity(cs[1..], r);
      match c.suit
      case Hearts => case Clubs => case Spades => case Diamonds =>
    }
  }

  /** Rearranging cards rearranges their ranks. */
  lemma RanksOfPermutation(a: seq<Card>, b: seq<Card>)
    requires multiset(a) == multiset(b)
    ensures multiset(RanksOf(a)) == multiset(RanksOf(b))
  {
    forall r ensures multiset(RanksOf(a))[r] == multiset(RanksOf(b))[r] {
      RankMultiplicity(a, r);
      RankMultiplicity(b, r);
    }
  }

  lemma SameSuitPermutation(a: seq<Card>, b: seq<Card>)
    requires multiset(a) == multiset(b)
    requires SameSuit(a)
    ensures SameSuit(b)
  {
    forall i, j | 0 <= i < |b| && 0 <= j < |b| ensures b[i].suit == b[j].suit {
      assert b[i] in multiset(a) && b[j] in multiset(a);
      var k :| 0 <= k < |a| && a[k] == b[i];
      var l :| 0 <= l < |a| && a[l] == b[j];
    }
  }

  // ---------------------------------------------------------------------------
  // Straights

  lemma RunSorted(top: Rank)
    requires top.Index() >= 3
    ensures SortedBy(Run(top), IndexOf)
  {
    RankAtIndex(top);
    RankAtIndex(Five);
  }

  /** A rank below Ace whose successor is `a` sits one below `a`. */
  lemma SuccessorStep(a: Rank, b: Rank)
    requires b != Ace && b.Successor() == a
    ensures a.Index() == b.Index() + 1
  {
    RankAtIndex(b);
    RankAtIndex(Ace);
  }

  /** Ranks that each sit one below the previous are the straight topped by the first. */
  lemma AdjacentRanksAreRun(rs: seq<Rank>)
    requires |rs| == 5
    requires forall i :: 1 <= i < 5 ==> rs[i] != Ace && rs[i].Successor() == rs[i - 1]
    ensures rs[0].Index() >= 4 && rs == Run(rs[0])
  {
    SuccessorStep(rs[0], rs[1]);
    SuccessorStep(rs[1], rs[2]);
    SuccessorStep(rs[2], rs[3]);
    SuccessorStep(rs[3], rs[4]);
    RankAtIndex(Five);
    var run := Run(rs[0]);
    forall i | 0 <= i < 5 ensures rs[i] == run[i] {
      RankAtIndex(rs[i]);
      RankAtIndex(run[i]);
    }
  }

  lemma RunIsExtracted(top: Rank)
    requires top.Index() >= 3
    ensures ExtractStraight(Run(top)) == Some(top)
  {
    RankAtIndex(top);
    RankAtIndex(Five);
    RankAtIndex(Ace);
    if top != Five {
      var run := Run(top);
      assert run[0] == top;
      assert run[1].Index() == top.Index() - 1;
      assert run != Wheel();
      forall i | 1 <= i < 5 ensures run[i] != Ace && run[i].Successor() == run[i - 1] {
        assert run[i].Index() == top.Index() - i < 12;
        RankAtIndex(run[i].Successor());
      }
    }
  }

  /** For the sorted ranks of a hand, `extract_straight` finds the top rank of exactly
      the straights the ranks make. */
  lemma ExtractStraightCorrect(rs: seq<Rank>, top: Rank)
    requires |rs| == 5 && SortedBy(rs, IndexOf)
    ensures ExtractStraight(rs) == Some(top) <==> IsStraight(multiset(rs), top)
  {
    if ExtractStraight(rs) == Some(top) {
      if rs != Wheel() {
        AdjacentRanksAreRun(rs);
      }
    }
    if IsStraight(multiset(rs), top) {
      RunSorted(top);
      IndexInjective();
      SortedUnique(rs, Run(top), IndexOf);
      RunIsExtracted(top);
    }
  }

  // ---------------------------------------------------------------------------
  // Rank groups

  /** Facts about the sorted runs the group match reads: later runs never have more
      cards than earlier ones, runs of equal size come in decreasing rank, and distinct
      runs have distinct ranks. */
  lemma RunOrderFacts(s: seq<Group>, i: nat, j: nat)
    requires forall a, b :: 0 <= a < b < |s| ==> GroupKey(s[b]) < GroupKey(s[a])
    requires i < j < |s|
    ensures s[j].count <= s[i].count
    ensures s[j].count == s[i].count ==> s[j].rank.Index() < s[i].rank.Index()
    ensures s[j].rank != s[i].rank || s[j].count != s[i].count
  {
    GroupKeyIsLexicographic(s[j], s[i]);
  }

  /** `s` is the list of runs of `rs` sorted strictly decreasing by (count, rank). */
  ghost predicate SortedRunsOf(rs: seq<Rank>, s: seq<Group>) {
    && |s| > 0
    && RunsOf(rs, s)
    && forall a, b :: 0 <= a < b < |s| ==> GroupKey(s[b]) < GroupKey(s[a])
  }

  /** When the largest run is a pair and the next is not, no other rank repeats. */
  lemma PairCaseSound(rs: seq<Rank>, s: seq<Group>)
    requires |rs| == 5 && SortedRunsOf(rs, s)
    requires |s| > 1 && s[0].count == 2 && s[1].count != 2
    ensures forall x :: x != s[0].rank ==> multiset(rs)[x] < 2
  {
    RunOrderFacts(s, 0, 1);
    forall x | x != s[0].rank ensures multiset(rs)[x] < 2 {
      if multiset(rs)[x] > 0 {
        var i :| 0 <= i < |s| && s[i].rank == x;
        if i > 1 {
          RunOrderFacts(s, 1, i);
        }
      }
    }
  }

  /** When the largest run has three cards and the next is not a pair, no rank is paired. */
  lemma TripsCaseSound(rs: seq<Rank>, s: seq<Group>)
    requires |rs| == 5 && SortedRunsOf(rs, s)
    requires |s| > 1 && s[0].count == 3 && s[1].count != 2
    ensures forall x :: multiset(rs)[x] != 2
  {
    RunOrderFacts(s, 0, 1);
    forall x ensures multiset(rs)[x] != 2 {
      if multiset(rs)[x] > 0 {
        var i :| 0 <= i < |s| && s[i].rank == x;
        if i > 1 {
          RunOrderFacts(s, 1, i);
          if s[i].count == 2 {
            PairBound(rs, s[0].rank, s[1].rank);
          }
        }
      }
    }
  }

  /** When the largest run is not of two, three or four cards, either nothing repeats or
      all five ranks are the same. */
  lemma HighCaseSound(rs: seq<Rank>, s: seq<Group>)
    requires |rs| == 5 && SortedRunsOf(rs, s)
    requires s[0].count != 2 && s[0].count != 3 && s[0].count != 4
    ensures (forall x :: multiset(rs)[x] <= 1) || (exists x :: multiset(rs)[x] == 5)
  {
    SingleBound(rs, s[0].rank);
    if s[0].count != 5 {
      forall x ensures multiset(rs)[x] <= 1 {
        if multiset(rs)[x] > 0 {
          var i :| 0 <= i < |s| && s[i].rank == x;
          if i > 0 {
            RunOrderFacts(s, 0, i);
          }
        }
      }
    }
  }

  /** The group match of `hand_type` returns a category that the multiplicities of the
      sorted ranks satisfy. */
  lemma GroupTypeSound(rs: seq<Rank>)
    requires |rs| == 5 && SortedBy(rs, IndexOf)
    ensures GroupDescribes(GroupCategory(rs), multiset(rs))
  {
    SortedRunsTotal(rs);
    SortedRunsProfile(rs);
    GroupMatchSound(rs, SortGroups(RunLengths(rs)));
  }

  lemma GroupMatchSound(rs: seq<Rank>, s: seq<Group>)
    requires |rs| == 5 && SortedRunsOf(rs, s)
    ensures GroupDescribes(GroupType(s), multiset(rs))
  {
    if s[0].count == 2 || s[0].count == 3 {
      SmallRunNotAlone(s);
      RunOrderFacts(s, 0, 1);
      if s[1].count != 2 {
        if s[0].count == 2 {
          PairCaseSound(rs, s);
        } else {
          TripsCaseSound(rs, s);
        }
      }
    } else if s[0].count != 4 {
      HighCaseSound(rs, s);
    }
  }

  /** At most one group category fits five ranks. */
  lemma GroupDescribesUnique(rs: seq<Rank>, t1: HandType, t2: HandType)
    requires |rs| == 5
    requires GroupDescribes(t1, multiset(rs)) && GroupDescribes(t2, multiset(rs))
    ensures t1 == t2
    decreases if t1.HighCard? then 1 else 0
  {
    var rm := multiset(rs);
    match t1
    case FourOfAKind(q) => {
      match t2 {
      case FourOfAKind(q2) => if q != q2 { PairBound(rs, q, q2); }
      case FullHouse(a, _) => PairBound(rs, q, a);
      case ThreeOfAKind(a) => PairBound(rs, q, a);
      case TwoPair(a, _) => PairBound(rs, q, a);
      case Pair(a) => PairBound(rs, q, a);
      case HighCard =>
        if exists x :: rm[x] == 5 {
          var x :| rm[x] == 5;
          PairBound(rs, q, x);
        }
      case _ =>
      }
    }
    case FullHouse(a, b) => {
      match t2 {
      case FourOfAKind(q) => PairBound(rs, q, a);
      case FullHouse(a2, b2) =>
        if a != a2 { PairBound(rs, a, a2); }
        if b != b2 { TripleBound(rs, a, b, b2); }
      case ThreeOfAKind(_) =>
      case TwoPair(c, d) =>
        TripleBound(rs, a, c, d);
      case Pair(_) =>
      case HighCard =>
        if exists x :: rm[x] == 5 {
          var x :| rm[x] == 5;
          PairBound(rs, a, x);
        }
      case _ =>
      }
    }
    case ThreeOfAKind(a) => {
      match t2 {
      case FourOfAKind(q) => PairBound(rs, q, a);
      case FullHouse(_, _) =>
      case ThreeOfAKind(a2) => if a != a2 { PairBound(rs, a, a2); }
      case TwoPair(_, _) =>
      case Pair(_) =>
      case HighCard =>
        if exists x :: rm[x] == 5 {
          var x :| rm[x] == 5;
          PairBound(rs, a, x);
        }
      case _ =>
      }
    }
    case TwoPair(a, b) => {
      match t2 {
      case FourOfAKind(q) => PairBound(rs, q, a);
      case FullHouse(c, _) => TripleBound(rs, c, a, b);
      case ThreeOfAKind(_) =>
      case TwoPair(c, d) =>
        if a != c && a != d { TripleBound(rs, a, c, d); }
        if b != c && b != d { TripleBound(rs, b, c, d); }
        RankAtIndex(a); RankAtIndex(b); RankAtIndex(c); RankAtIndex(d);
      case Pair(_) =>
      case HighCard =>
        if exists x :: rm[x] == 5 {
          var x :| rm[x] == 5;
          PairBound(rs, a, x);
        }
      case _ =>
      }
    }
    case Pair(a) => {
      match t2 {
      case FourOfAKind(q) => PairBound(rs, q, a);
      case FullHouse(_, _) =>
      case ThreeOfAKind(_) =>
      case TwoPair(_, _) =>
      case Pair(_) =>
      case HighCard =>
      case _ =>
      }
    }
    case HighCard =>
      if !t2.HighCard? {
        GroupDescribesUnique(rs, t2, t1);
      }
    case _ =>
  }

  /** The group match returns a category exactly when the multiplicities satisfy it. */
  lemma GroupTypeCorrect(rs: seq<Rank>, t: HandType)
    requires |rs| == 5 && SortedBy(rs, IndexOf)
    ensures GroupCategory(rs) == t <==> GroupDescribes(t, multiset(rs))
  {
    SortedRunsTotal(rs);
    GroupTypeSound(rs);
    if GroupDescribes(t, multiset(rs)) {
      GroupDescribesUnique(rs, t, GroupCategory(rs));
    }
  }

  // ---------------------------------------------------------------------------
  // The classification theorem

  /** The sorted hand has the ranks and the suitedness of the cards it was built from. */
  lemma FromCardsKeepsRanksAndSuits(cs: Five)
    ensures multiset(Ranks(FromCards(cs))) == multiset(RanksOf(cs))
    ensures IsFlush(FromCards(cs)) <==> SameSuit(cs)
    ensures SortedBy(Ranks(FromCards(cs)), IndexOf)
  {
    var h := FromCards(cs);
    RanksOfPermutation(h.cards, cs);
    PositionSortedIsCardSorted(h.cards);
    if SameSuit(cs) {
      SameSuitPermutation(cs, h.cards);
    }
    if IsFlush(h) {
      assert SameSuit(h.cards);
      SameSuitPermutation(h.cards, cs);
    }
  }

  /** No straight is present when `extract_straight` finds none. */
  lemma NoStraightFound(rs: seq<Rank>)
    requires |rs| == 5 && SortedBy(rs, IndexOf)
    requires ExtractStraight(rs).None?
    ensures NoStraight(multiset(rs))
  {
    forall top ensures !IsStraight(multiset(rs), top) {
      ExtractStraightCorrect(rs, top);
    }
  }

  /** Once `extract_straight` finds a top rank, that is the only straight the ranks make. */
  lemma OnlyStraight(rs: seq<Rank>, top: Rank, other: Rank)
    requires |rs| == 5 && SortedBy(rs, IndexOf)
    requires ExtractStraight(rs) == Some(top)
    ensures IsStraight(multiset(rs), other) <==> other == top
  {
    ExtractStraightCorrect(rs, other);
  }

  /** Where a straight is present, no category other than a straight (flush) applies. */
  lemma OnlyStraightCategories(rm: multiset<Rank>, flush: bool, t: HandType)
    requires !NoStraight(rm)
    requires !t.StraightFlush? && !t.Straight?
    ensures !Describes(t, rm, flush)
  {
  }

  /** With a straight present, the reference asks for the straight (flush) of that top. */
  lemma StraightCategory(rs: seq<Rank>, flush: bool, top: Rank, t: HandType)
    requires |rs| == 5 && SortedBy(rs, IndexOf)
    requires ExtractStraight(rs) == Some(top)
    ensures (if flush then StraightFlush(top) else Straight(top)) == t
        <==> Describes(t, multiset(rs), flush)
  {
    if t.StraightFlush? || t.Straight? {
      OnlyStraight(rs, top, t.top);
    } else {
      OnlyStraight(rs, top, top);
      OnlyStraightCategories(multiset(rs), flush, t);
    }
  }

  /** Suited without a straight, the reference asks for a flush. */
  lemma FlushCategory(rs: seq<Rank>, t: HandType)
    requires |rs| == 5 && SortedBy(rs, IndexOf)
    requires ExtractStraight(rs).None?
    ensures Flush == t <==> Describes(t, multiset(rs), true)
  {
    NoStraightFound(rs);
  }

  /** Neither suited nor a straight, the reference asks for the rank-group category. */
  lemma GroupCategoryDescribes(rs: seq<Rank>, t: HandType)
    requires |rs| == 5 && SortedBy(rs, IndexOf)
    requires ExtractStraight(rs).None?
    ensures GroupCategory(rs) == t <==> Describes(t, multiset(rs), false)
  {
    NoStraightFound(rs);
    GroupTypeCorrect(rs, t);
  }

  /** On a hand whose ranks are in non-increasing order, `hand_type` reports exactly the
      category the reference assigns to its rank multiset and suitedness. */
  lemma HandTypeOfSorted(h: Hand, t: HandType)
    requires SortedBy(Ranks(h), IndexOf)
    ensures HandTypeOf(h) == t <==> Describes(t, multiset(Ranks(h)), IsFlush(h))
  {
    var rs := Ranks(h);
    var straight := ExtractStraight(rs);
    if straight.Some? {
      StraightCategory(rs, IsFlush(h), straight.value, t);
    } else if IsFlush(h) {
      FlushCategory(rs, t);
    } else {
      GroupCategoryDescribes(rs, t);
    }
  }

  /** `hand_type` of the hand built from any five cards is exactly the category the
      reference assigns to their ranks and suits, whatever order the cards come in. */
  lemma HandTypeMatchesReference(cs: Five, t: HandType)
    ensures HandTypeOf(FromCards(cs)) == t <==> Describes(t, multiset(RanksOf(cs)), SameSuit(cs))
  {
    var h := FromCards(cs);
    FromCardsKeepsRanksAndSuits(cs);
    HandTypeOfSorted(h, t);
  }

  /** `hand_type` does not depend on the order of the five cards. */
  lemma HandTypeOrderIndependent(a: Five, b: Five)
    requires multiset(a) == multiset(b)
    ensures HandTypeOf(FromCards(a)) == HandTypeOf(FromCards(b))
  {
    RanksOfPermutation(a, b);
    if SameSuit(a) {
      SameSuitPermutation(a, b);
    }
    if SameSuit(b) {
      SameSuitPermutation(b, a);
    }
    HandTypeMatchesReference(a, HandTypeOf(FromCards(a)));
    HandTypeMatchesReference(b, HandTypeOf(FromCards(a)));
  }
}
