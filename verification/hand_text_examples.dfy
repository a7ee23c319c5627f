/** The hand-classification test vectors of `src/hands.rs` that are written as text:
    the text parses to the hand of the cards it names, and that hand has the expected
    category. */
module HandTextExamples {
  import opened Results
  import opened Cards
  import opened CardParsing
  import opened Hands
  import opened HandParsing
  import opened HandExamples

  /** A card written in lower case upper-cases to its token. */
  lemma LowerToken(t: string, c: Card)
    requires |t| == |CardToken(c)|
    requires forall i :: 0 <= i < |t| ==> UpperChar(t[i]) == CardToken(c)[i]
    ensures ToUpper(t) == CardToken(c)
  {
  }

  /** Text of five tokens naming the cards `cs` parses to their hand, of category `t`. */
  lemma TextClassifies(text: string, ts: seq<string>, cs: Five, t: HandType)
    requires Names(ts, cs) && Join(ts) == text
    requires HandTypeOf(FromCards(cs)) == t
    ensures ParsesWithoutPanic(Split(text), ParseCard)
    ensures ParseHand(text).Ok? && HandTypeOf(ParseHand(text).value) == t
  {
    ParseHandText(ts, cs);
  }

  /** Five tokens name five cards, each token in any case. */
  ghost predicate Names(ts: seq<string>, cs: Five) {
    |ts| == 5 && forall i :: 0 <= i < 5 ==> ToUpper(ts[i]) == CardToken(cs[i])
  }

  lemma PairOfFoursNames(ts: seq<string>, cs: Five)
    requires ts == ["2d", "4d", "4c", "5d", "6d"]
    requires cs == [Card(Two, Diamonds), Card(Four, Diamonds), Card(Four, Clubs),
                    Card(Five, Diamonds), Card(Six, Diamonds)]
    ensures Join(ts) == "2d,4d,4c,5d,6d" && Names(ts, cs)
  {
    assert Join(["2d", "4d", "4c", "5d", "6d"]) == "2d,4d,4c,5d,6d";
    forall i | 0 <= i < 5 ensures ToUpper(ts[i]) == CardToken(cs[i]) {
      LowerToken(ts[i], cs[i]);
    }
  }

  /** "2d,4d,4c,5d,6d" is a pair of fours. */
  lemma PairOfFoursText(text: string)
    requires text == "2d,4d,4c,5d,6d"
    ensures ParsesWithoutPanic(Split(text), ParseCard)
    ensures ParseHand(text).Ok? && HandTypeOf(ParseHand(text).value) == Pair(Four)
  {
    var ts := ["2d", "4d", "4c", "5d", "6d"];
    var cs: Five := [Card(Two, Diamonds), Card(Four, Diamonds), Card(Four, Clubs),
                     Card(Five, Diamonds), Card(Six, Diamonds)];
    PairOfFoursNames(ts, cs);
    PairOfFours(cs);
    TextClassifies(text, ts, cs, Pair(Four));
  }

  lemma FivesAndFoursNames(ts: seq<string>, cs: Five)
    requires ts == ["2d", "4d", "4c", "5d", "5s"]
    requires cs == [Card(Two, Diamonds), Card(Four, Diamonds), Card(Four, Clubs),
                    Card(Five, Diamonds), Card(Five, Spades)]
    ensures Join(ts) == "2d,4d,4c,5d,5s" && Names(ts, cs)
  {
    assert Join(["2d", "4d", "4c", "5d", "5s"]) == "2d,4d,4c,5d,5s";
    forall i | 0 <= i < 5 ensures ToUpper(ts[i]) == CardToken(cs[i]) {
      LowerToken(ts[i], cs[i]);
    }
  }

  /** "2d,4d,4c,5d,5s" is two pair, fives over fours. */
  lemma FivesAndFoursText(text: string)
    requires text == "2d,4d,4c,5d,5s"
    ensures ParsesWithoutPanic(Split(text), ParseCard)
    ensures ParseHand(text).Ok? && HandTypeOf(ParseHand(text).value) == TwoPair(Five, Four)
  {
    var ts := ["2d", "4d", "4c", "5d", "5s"];
    var cs: Five := [Card(Two, Diamonds), Card(Four, Diamonds), Card(Four, Clubs),
                     Card(Five, Diamonds), Card(Five, Spades)];
    FivesAndFoursNames(ts, cs);
    FivesAndFours(cs);
    TextClassifies(text, ts, cs, TwoPair(Five, Four));
  }

  lemma RoyalFlushNames(ts: seq<string>, cs: Five)
    requires ts == ["ad", "qd", "jd", "kd", "10d"]
    requires cs == [Card(Ace, Diamonds), Card(Queen, Diamonds), Card(Jack, Diamonds),
                    Card(King, Diamonds), Card(Ten, Diamonds)]
    ensures Join(ts) == "ad,qd,jd,kd,10d" && Names(ts, cs)
  {
    assert Join(["ad", "qd", "jd", "kd", "10d"]) == "ad,qd,jd,kd,10d";
    forall i | 0 <= i < 5 ensures ToUpper(ts[i]) == CardToken(cs[i]) {
      LowerToken(ts[i], cs[i]);
    }
  }

  /** "ad,qd,jd,kd,10d" is a straight flush to the ace. */
  lemma RoyalFlushText(text: string)
    requires text == "ad,qd,jd,kd,10d"
    ensures ParsesWithoutPanic(Split(text), ParseCard)
    ensures ParseHand(text).Ok? && HandTypeOf(ParseHand(text).value) == StraightFlush(Ace)
  {
    var ts := ["ad", "qd", "jd", "kd", "10d"];
    var cs: Five := [Card(Ace, Diamonds), Card(Queen, Diamonds), Card(Jack, Diamonds),
                     Card(King, Diamonds), Card(Ten, Diamonds)];
    RoyalFlushNames(ts, cs);
    RoyalFlush(cs);
    TextClassifies(text, ts, cs, StraightFlush(Ace));
  }

  lemma SixHighStraightFlushNames(ts: seq<string>, cs: Five)
    requires ts == ["2d", "4d", "3d", "5d", "6d"]
    requires cs == [Card(Two, Diamonds), Card(Four, Diamonds), Card(Three, Diamonds),
                    Card(Five, Diamonds), Card(Six, Diamonds)]
    ensures Join(ts) == "2d,4d,3d,5d,6d" && Names(ts, cs)
  {
    assert Join(["2d", "4d", "3d", "5d", "6d"]) == "2d,4d,3d,5d,6d";
    forall i | 0 <= i < 5 ensures ToUpper(ts[i]) == CardToken(cs[i]) {
      LowerToken(ts[i], cs[i]);
    }
  }

  /** "2d,4d,3d,5d,6d" is a straight flush to the six. */
  lemma SixHighStraightFlushText(text: string)
    requires text == "2d,4d,3d,5d,6d"
    ensures ParsesWithoutPanic(Split(text), ParseCard)
    ensures ParseHand(text).Ok? && HandTypeOf(ParseHand(text).value) == StraightFlush(Six)
  {
    var ts := ["2d", "4d", "3d", "5d", "6d"];
    var cs: Five := [Card(Two, Diamonds), Card(Four, Diamonds), Card(Three, Diamonds),
                     Card(Five, Diamonds), Card(Six, Diamonds)];
    SixHighStraightFlushNames(ts, cs);
    SixHighStraightFlush(cs);
    TextClassifies(text, ts, cs, StraightFlush(Six));
  }

  lemma SixHighStraightNames(ts: seq<string>, cs: Five)
    requires ts == ["2d", "4d", "3d", "5d", "6c"]
    requires cs == [Card(Two, Diamonds), Card(Four, Diamonds), Card(Three, Diamonds),
                    Card(Five, Diamonds), Card(Six, Clubs)]
    ensures Join(ts) == "2d,4d,3d,5d,6c" && Names(ts, cs)
  {
    assert Join(["2d", "4d", "3d", "5d", "6c"]) == "2d,4d,3d,5d,6c";
    forall i | 0 <= i < 5 ensures ToUpper(ts[i]) == CardToken(cs[i]) {
      LowerToken(ts[i], cs[i]);
    }
  }

  /** "2d,4d,3d,5d,6c" is a plain straight to the six. */
  lemma SixHighStraightText(text: string)
    requires text == "2d,4d,3d,5d,6c"
    ensures ParsesWithoutPanic(Split(text), ParseCard)
    ensures ParseHand(text).Ok? && HandTypeOf(ParseHand(text).value) == Straight(Six)
  {
    var ts := ["2d", "4d", "3d", "5d", "6c"];
    var cs: Five := [Card(Two, Diamonds), Card(Four, Diamonds), Card(Three, Diamonds),
                     Card(Five, Diamonds), Card(Six, Clubs)];
    SixHighStraightNames(ts, cs);
    SixHighStraight(cs);
    TextClassifies(text, ts, cs, Straight(Six));
  }
}
