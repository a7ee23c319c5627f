/** `find_nuts`: given the community cards, the two hole cards that make the best hand. */
module HoldEm {
  import opened Results
  import opened Ordering
  import opened Cards
  import opened Combinatorics
  import opened Maxima
  import opened Hands

  /** The two hole cards, as the `[Card; 2]` array. */
  type Hole = s: seq<Card> | |s| == 2
    witness [Card(Two, Hearts), Card(Two, Hearts)]

  /** Every card comes strictly before the next ones in card order. */
  ghost predicate Ascending(s: seq<Card>) {
    forall i, j :: 0 <= i < j < |s| ==> s[i].Position() < s[j].Position()
  }

  /** `filter(|card| !community.contains(card))` over `cs`: the cards of `cs` that are not
      on the board, in their order. */
  function Without(cs: seq<Card>, community: seq<Card>): (u: seq<Card>)
    ensures forall c :: c in u <==> c in cs && c !in community
  {
    if |cs| == 0 then []
    else if cs[0] in community then Without(cs[1..], community)
    else [cs[0]] + Without(cs[1..], community)
  }

  /** Filtering keeps an ascending sequence ascending. */
  lemma {:induction false} WithoutAscending(cs: seq<Card>, community: seq<Card>)
    requires Ascending(cs)
    ensures Ascending(Without(cs, community))
    decreases |cs|
  {
    if |cs| > 0 {
      var t := cs[1..];
      AscendingHead(cs);
      WithoutAscending(t, community);
      if cs[0] !in community {
        AscendingCons(cs[0], Without(t, community));
      }
    }
  }

  /** The tail of an ascending sequence is ascending and lies above its head. */
  lemma AscendingHead(cs: seq<Card>)
    requires Ascending(cs) && |cs| > 0
    ensures Ascending(cs[1..])
    ensures forall c :: c in cs[1..] ==> cs[0].Position() < c.Position()
  {
    var t := cs[1..];
    forall c | c in t ensures cs[0].Position() < c.Position() {
      var k :| 0 <= k < |t| && t[k] == c;
      assert cs[k + 1] == c;
    }
  }

  /** A card below every card of an ascending sequence can go in front of it. */
  lemma AscendingCons(x: Card, rest: seq<Card>)
    requires Ascending(rest)
    requires forall c :: c in rest ==> x.Position() < c.Position()
    ensures Ascending([x] + rest)
  {
    var u := [x] + rest;
    forall i, j | 0 <= i < j < |u| ensures u[i].Position() < u[j].Position() {
      assert u[j] == rest[j - 1];
      if i > 0 {
        assert u[i] == rest[i - 1];
      } else {
        assert u[j] in rest;
      }
    }
  }

  /** `Card::iter()` lists the cards in ascending order. */
  lemma AllCardsAscending()
    ensures Ascending(AllCards())
  {
    var all := AllCards();
    forall i, j | 0 <= i < j < |all| ensures all[i].Position() < all[j].Position() {
      assert all[i].Position() == i && all[j].Position() == j;
    }
  }

  /** `Card::iter()` lists every card. */
  lemma AllCardsComplete(c: Card)
    ensures c in AllCards()
  {
    assert AllCards()[c.Position()] == c;
  }

  /** The cards still available: every card not on the board, in ascending card order. */
  function Undealt(community: seq<Card>): (u: seq<Card>)
    ensures forall c: Card :: c in u <==> c !in community
    ensures Ascending(u)
  {
    forall c: Card ensures c in AllCards() {
      AllCardsComplete(c);
    }
    AllCardsAscending();
    WithoutAscending(AllCards(), community);
    Without(AllCards(), community)
  }

  lemma {:induction false} SubseqSingle(x: Card, s: seq<Card>)
    ensures IsSubseq([x], s) <==> x in s
    decreases |s|
  {
    if |s| > 0 {
      SubseqSingle(x, s[1..]);
      assert [x][1..] == [];
      assert x in s <==> x == s[0] || x in s[1..];
    }
  }

  /** In an ascending sequence, two cards form a subsequence exactly when both occur and
      the first is the smaller. */
  lemma {:induction false} SubseqPair(s: seq<Card>, a: Card, b: Card)
    requires Ascending(s)
    ensures IsSubseq([a, b], s) <==> a in s && b in s && a.Position() < b.Position()
    decreases |s|
  {
    if |s| > 0 {
      var t := s[1..];
      assert Ascending(t);
      assert [a, b][1..] == [b];
      SubseqSingle(b, t);
      SubseqPair(t, a, b);
      assert forall c :: c in s <==> c == s[0] || c in t;
      assert forall c :: c in t ==> s[0].Position() < c.Position();
    }
  }

  /** `combinations(2)` of an ascending sequence: exactly the ordered pairs of its cards. */
  lemma PairSelections(s: seq<Card>, a: Card, b: Card)
    requires Ascending(s)
    ensures [a, b] in Combinations(s, 2) <==> a in s && b in s && a.Position() < b.Position()
  {
    CombinationsAreSelections(s, 2, [a, b]);
    SubseqPair(s, a, b);
  }

  /** One candidate of the search: the best hand of board and hole cards, and the hole cards. */
  datatype Nuts = Nuts(hand: Hand, cards: Hole)

  /** The derived `Ord` on `[Card; 2]`: the first cards decide, then the second. */
  function HoleCmp(a: Hole, b: Hole): Ordering {
    if CardCmp(a[0], b[0]) != Equal then CardCmp(a[0], b[0]) else CardCmp(a[1], b[1])
  }

  /** The derived `Ord` on `(Hand, [Card; 2])`: the hands decide, then the hole cards. */
  function NutsCmp(a: Nuts, b: Nuts): Ordering {
    if HandCmp(a.hand, b.hand) != Equal then HandCmp(a.hand, b.hand) else HoleCmp(a.cards, b.cards)
  }

  function HoleKey(p: Hole): seq<int> {
    [p[0].Position(), p[1].Position()]
  }

  /** One key for the candidate order: the hand key followed by the hole cards' positions. */
  function NutsKey(n: Nuts): seq<int> {
    HandKey(n.hand) + HoleKey(n.cards)
  }

  /** Comparing hole cards is comparing their positions lexicographically. */
  lemma HoleCmpIsKeyCmp(a: Hole, b: Hole)
    ensures HoleCmp(a, b) == LexCmp(HoleKey(a), HoleKey(b))
  {
    var ka, kb := HoleKey(a), HoleKey(b);
    CardOrderIsPositionOrder(a[0], b[0]);
    CardOrderIsPositionOrder(a[1], b[1]);
    assert ka[1..] == [a[1].Position()] && kb[1..] == [b[1].Position()];
    assert ka[1..][1..] == [] && kb[1..][1..] == [];
    assert LexCmp(ka[1..], kb[1..]) == IntCmp(a[1].Position(), b[1].Position());
  }

  /** Comparing candidates is comparing their keys lexicographically. */
  lemma NutsCmpIsKeyCmp(a: Nuts, b: Nuts)
    ensures NutsCmp(a, b) == LexCmp(NutsKey(a), NutsKey(b))
  {
    HandCmpIsKeyCmp(a.hand, b.hand);
    HoleCmpIsKeyCmp(a.cards, b.cards);
    LexEqualIff(HandKey(a.hand), HandKey(b.hand));
    LexAppend(HandKey(a.hand), HoleKey(a.cards), HandKey(b.hand), HoleKey(b.cards));
  }

  /** The best hand that board and hole cards make; a board of three or more cards with
      two more is always at least five cards. */
  function HandWith(community: seq<Card>, p: Hole): (h: Hand)
    requires |community| >= 3
  {
    BestHand(community + p).value
  }

  /** The candidates in the order `combinations(2)` yields the hole cards. */
  function Candidates(community: seq<Card>, pairs: seq<Hole>): (ns: seq<Nuts>)
    requires |community| >= 3
    ensures |ns| == |pairs|
  {
    seq(|pairs|, i requires 0 <= i < |pairs| => Nuts(HandWith(community, pairs[i]), pairs[i]))
  }

  /** The ordered pairs of cards not on the board, in the order `find_nuts` tries them. */
  function Pairs(community: seq<Card>): (ps: seq<Hole>)
    ensures forall a: Card, b: Card ::
              [a, b] in ps <==> a !in community && b !in community && a.Position() < b.Position()
  {
    var u := Undealt(community);
    var ps: seq<Hole> := Combinations(u, 2);
    assert forall a: Card, b: Card ::
             [a, b] in ps <==> a !in community && b !in community && a.Position() < b.Position() by {
      forall a: Card, b: Card
        ensures [a, b] in ps <==> a !in community && b !in community && a.Position() < b.Position()
      {
        PairSelections(u, a, b);
      }
    }
    ps
  }

  /** Two cards off the board, in ascending order, are exactly the pairs tried. */
  lemma PairShape(community: seq<Card>, p: Hole)
    requires p in Pairs(community)
    ensures p[0] !in community && p[1] !in community
    ensures p[0].Position() < p[1].Position()
  {
    assert [p[0], p[1]] == p;
  }

  /** Each candidate is built from one of the pairs tried. */
  lemma CandidateSource(community: seq<Card>, ps: seq<Hole>, n: Nuts)
    requires |community| >= 3
    requires n in Candidates(community, ps)
    ensures n.cards in ps && n.hand == HandWith(community, n.cards)
  {
    var ns := Candidates(community, ps);
    var i :| 0 <= i < |ns| && ns[i] == n;
    CandidateAt(community, ps, i);
  }

  lemma CandidateAt(community: seq<Card>, ps: seq<Hole>, i: nat)
    requires |community| >= 3 && i < |ps|
    ensures Candidates(community, ps)[i] == Nuts(HandWith(community, ps[i]), ps[i])
  {
  }

  /** A candidate is made of two cards off the board, in ascending order, and the best hand
      they make with it. */
  lemma CandidateShape(community: seq<Card>, n: Nuts)
    requires |community| >= 3
    requires n in Candidates(community, Pairs(community))
    ensures n.cards[0] !in community && n.cards[1] !in community
    ensures n.cards[0].Position() < n.cards[1].Position()
    ensures BestHand(community + n.cards) == Some(n.hand)
  {
    CandidateSource(community, Pairs(community), n);
    PairShape(community, n.cards);
  }

  /** `find_nuts`: the largest candidate over all hole cards not on the board, the last one
      on ties. Fewer than three community cards panics, and so does the `max` of an empty
      set of pairs; both are `None`. The chosen hole cards are two distinct cards off the
      board, in ascending order, and the hand is the best one they make with the board. */
  function FindNuts(community: seq<Card>): (r: Option<Nuts>)
    ensures r.None? <==> |community| < 3 || |Undealt(community)| < 2
    ensures r.Some? ==> r.value.cards[0] !in community && r.value.cards[1] !in community
    ensures r.Some? ==> r.value.cards[0].Position() < r.value.cards[1].Position()
    ensures r.Some? ==> BestHand(community + r.value.cards) == Some(r.value.hand)
  {
    if |community| < 3 then None
    else
      var ps := Pairs(community);
      CombinationsNonEmpty(Undealt(community), 2);
      if |ps| == 0 then None
      else
        var best := LastMax(Candidates(community, ps), NutsKey);
        CandidateShape(community, best);
        Some(best)
  }

  /** The maximum of the candidates is at least each of them in the candidate order. */
  lemma MaxBeatsCandidates(ns: seq<Nuts>, i: nat)
    requires i < |ns|
    ensures NutsCmp(ns[i], LastMax(ns, NutsKey)) != Greater
  {
    NutsCmpIsKeyCmp(ns[i], LastMax(ns, NutsKey));
  }

  /** Not above in the candidate order: the hand is at most, and on a tie so are the cards. */
  lemma NotAbove(n: Nuts, m: Nuts)
    requires NutsCmp(n, m) != Greater
    ensures HandLe(n.hand, m.hand)
    ensures HandCmp(n.hand, m.hand) == Equal ==> HoleCmp(n.cards, m.cards) != Greater
  {
  }

  /** No choice of two cards off the board beats the nuts: their hand is at most the nuts'
      hand, and when it ties, the pair is at most the chosen one in the order of `[Card; 2]`,
      so among equally strong hole cards the greatest pair is chosen. */
  lemma NutsAreBest(community: seq<Card>, a: Card, b: Card)
    requires FindNuts(community).Some?
    requires a !in community && b !in community && a.Position() < b.Position()
    ensures |community| >= 3
    ensures HandLe(HandWith(community, [a, b]), FindNuts(community).value.hand)
    ensures HandCmp(HandWith(community, [a, b]), FindNuts(community).value.hand) == Equal
            ==> HoleCmp([a, b], FindNuts(community).value.cards) != Greater
  {
    var ps := Pairs(community);
    var ns := Candidates(community, ps);
    assert [a, b] in ps;
    var i :| 0 <= i < |ps| && ps[i] == [a, b];
    MaxBeatsCandidates(ns, i);
    NotAbove(ns[i], FindNuts(community).value);
  }
}
