/** Text forms of ranks, suits and cards: the display tokens and `FromStr` for each. */
module CardParsing {
  import opened Results
  import opened Cards

  datatype RankParseError = InvalidRank(token: string)
  datatype SuitParseError = InvalidSuit(token: string)
  datatype CardParseError =
    | RankError(rankError: RankParseError)
    | SuitError(suitError: SuitParseError)
    | IncompleteError

  /** The display token of a rank. */
  function RankToken(r: Rank): string {
    match r
    case Two => "2"
    case Three => "3"
    case Four => "4"
    case Five => "5"
    case Six => "6"
    case Seven => "7"
    case Eight => "8"
    case Nine => "9"
    case Ten => "10"
    case Jack => "J"
    case Queen => "Q"
    case King => "K"
    case Ace => "A"
  }

  /** The display glyph of a suit. */
  function SuitGlyph(s: Suit): string {
    match s
    case Hearts => "\U{2665}"
    case Clubs => "\U{2663}"
    case Spades => "\U{2660}"
    case Diamonds => "\U{2666}"
  }

  /** The ASCII letter a suit may be written as instead of its glyph, in either case. */
  function SuitLetter(s: Suit): char {
    match s
    case Hearts => 'H'
    case Clubs => 'C'
    case Spades => 'S'
    case Diamonds => 'D'
  }

  predicate IsAscii(c: char) {
    c < '\U{80}'
  }

  function UpperChar(c: char): char {
    if 'a' <= c <= 'z' then (c as int - 32) as char else c
  }

  /** ASCII upper-casing; every other character is left alone. */
  function ToUpper(s: string): string {
    seq(|s|, i requires 0 <= i < |s| => UpperChar(s[i]))
  }

  /** Upper-casing a one- or two-character string, character by character. */
  lemma ShortUpper(s: string)
    ensures |s| == 1 ==> s == [s[0]] && ToUpper(s) == [UpperChar(s[0])]
    ensures |s| == 2 ==> s == [s[0], s[1]] && ToUpper(s) == [UpperChar(s[0]), UpperChar(s[1])]
  {
  }

  /** Rank `FromStr`: the digits 2-9, "10", and J, Q, K, A in either case. */
  function ParseRank(s: string): (r: Result<Rank, RankParseError>)
    ensures r.Err? ==> r.error == InvalidRank(s)
    ensures forall k: Rank {:trigger RankToken(k)} :: r == Ok(k) <==> ToUpper(s) == RankToken(k)
  {
    ShortUpper(s);
    if s == "2" then Ok(Two)
    else if s == "3" then Ok(Three)
    else if s == "4" then Ok(Four)
    else if s == "5" then Ok(Five)
    else if s == "6" then Ok(Six)
    else if s == "7" then Ok(Seven)
    else if s == "8" then Ok(Eight)
    else if s == "9" then Ok(Nine)
    else if s == "10" then Ok(Ten)
    else if s == "J" || s == "j" then Ok(Jack)
    else if s == "Q" || s == "q" then Ok(Queen)
    else if s == "K" || s == "k" then Ok(King)
    else if s == "A" || s == "a" then Ok(Ace)
    else Err(InvalidRank(s))
  }

  /** `s` spells suit `u`: its glyph, or its letter in either case. */
  predicate SpellsSuit(s: string, u: Suit) {
    s == SuitGlyph(u) || ToUpper(s) == [SuitLetter(u)]
  }

  /** Suit `FromStr`. */
  function ParseSuit(s: string): (r: Result<Suit, SuitParseError>)
    ensures r.Err? ==> r.error == InvalidSuit(s)
    ensures forall u: Suit {:trigger SuitGlyph(u)} :: r == Ok(u) <==> SpellsSuit(s, u)
  {
    ShortUpper(s);
    SpelledSuitUnique(s);
    if s == "\U{2665}" || s == "h" || s == "H" then Ok(Hearts)
    else if s == "\U{2663}" || s == "c" || s == "C" then Ok(Clubs)
    else if s == "\U{2660}" || s == "s" || s == "S" then Ok(Spades)
    else if s == "\U{2666}" || s == "d" || s == "D" then Ok(Diamonds)
    else
      NoSpelledSuit(s);
      Err(InvalidSuit(s))
  }

  /** A string spells at most one suit. */
  lemma SpelledSuitUnique(s: string)
    ensures forall u: Suit, v: Suit :: SpellsSuit(s, u) && SpellsSuit(s, v) ==> u == v
  {
    forall u: Suit, v: Suit | SpellsSuit(s, u) && SpellsSuit(s, v) ensures u == v {
      ShortUpper(s);
      if s == SuitGlyph(u) {
        assert |s| == 1 && !IsAscii(s[0]);
      }
      if s == SuitGlyph(v) {
        assert |s| == 1 && !IsAscii(s[0]);
      }
    }
  }

  lemma NoSpelledSuit(s: string)
    requires s != "\U{2665}" && s != "h" && s != "H" && s != "\U{2663}" && s != "c" && s != "C"
    requires s != "\U{2660}" && s != "s" && s != "S" && s != "\U{2666}" && s != "d" && s != "D"
    ensures forall u: Suit :: !SpellsSuit(s, u)
  {
    ShortUpper(s);
    forall u: Suit ensures !SpellsSuit(s, u) {
      if |s| == 1 {
        match u
        case Hearts => case Clubs => case Spades => case Diamonds =>
      }
    }
  }

  /** Unicode White_Space, the characters `str::trim` strips. */
  predicate IsWhitespace(c: char) {
    ('\t' <= c <= '\r') || c == ' ' || c == '\U{85}' || c == '\U{A0}' || c == '\U{1680}'
    || ('\U{2000}' <= c <= '\U{200A}') || c == '\U{2028}' || c == '\U{2029}'
    || c == '\U{202F}' || c == '\U{205F}' || c == '\U{3000}'
  }

  predicate AllWhitespace(s: string) {
    forall i :: 0 <= i < |s| ==> IsWhitespace(s[i])
  }

  /** `str::trim`: `s` without its leading and trailing whitespace. */
  function Trim(s: string): string
    decreases |s|
  {
    if |s| > 0 && IsWhitespace(s[0]) then Trim(s[1..])
    else if |s| > 0 && IsWhitespace(s[|s| - 1]) then Trim(s[..|s| - 1])
    else s
  }

  /** Where the trimmed slice starts: the number of leading whitespace characters. */
  function TrimFront(s: string): nat
    decreases |s|
  {
    if |s| > 0 && IsWhitespace(s[0]) then 1 + TrimFront(s[1..])
    else if |s| > 0 && IsWhitespace(s[|s| - 1]) then TrimFront(s[..|s| - 1])
    else 0
  }

  /** Trimming leaves a slice of `s` starting at `TrimFront(s)`. */
  lemma {:induction false} TrimSlice(s: string)
    ensures TrimFront(s) + |Trim(s)| <= |s|
    ensures Trim(s) == s[TrimFront(s)..TrimFront(s) + |Trim(s)|]
    decreases |s|
  {
    if |s| > 0 && IsWhitespace(s[0]) {
      TrimSlice(s[1..]);
    } else if |s| > 0 && IsWhitespace(s[|s| - 1]) {
      TrimSlice(s[..|s| - 1]);
    }
  }

  /** The ends of a trimmed string are not whitespace. */
  lemma {:induction false} TrimEnds(s: string)
    ensures |Trim(s)| > 0 ==> !IsWhitespace(Trim(s)[0]) && !IsWhitespace(Trim(s)[|Trim(s)| - 1])
    decreases |s|
  {
    if |s| > 0 && IsWhitespace(s[0]) {
      TrimEnds(s[1..]);
    } else if |s| > 0 && IsWhitespace(s[|s| - 1]) {
      TrimEnds(s[..|s| - 1]);
    }
  }

  /** Everything before the trimmed slice is whitespace. */
  lemma {:induction false} TrimCutsFront(s: string)
    ensures TrimFront(s) <= |s|
    ensures AllWhitespace(s[..TrimFront(s)])
    decreases |s|
  {
    TrimSlice(s);
    if |s| > 0 && IsWhitespace(s[0]) {
      var tail := s[1..];
      var j := TrimFront(tail);
      TrimCutsFront(tail);
      forall i | 0 <= i < j + 1 ensures IsWhitespace(s[i]) {
        if i > 0 {
          assert s[i] == tail[..j][i - 1];
        }
      }
    } else if |s| > 0 && IsWhitespace(s[|s| - 1]) {
      var init := s[..|s| - 1];
      TrimCutsFront(init);
      assert s[..TrimFront(s)] == init[..TrimFront(init)];
    }
  }

  /** Everything after the trimmed slice is whitespace. */
  lemma {:induction false} TrimCutsBack(s: string)
    ensures TrimFront(s) + |Trim(s)| <= |s|
    ensures AllWhitespace(s[TrimFront(s) + |Trim(s)|..])
    decreases |s|
  {
    TrimSlice(s);
    var e := TrimFront(s) + |Trim(s)|;
    if |s| > 0 && IsWhitespace(s[0]) {
      var tail := s[1..];
      TrimCutsBack(tail);
      assert s[e..] == tail[e - 1..];
    } else if |s| > 0 && IsWhitespace(s[|s| - 1]) {
      var init := s[..|s| - 1];
      TrimCutsBack(init);
      forall i | e <= i < |s| ensures IsWhitespace(s[i]) {
        if i < |s| - 1 {
          assert s[i] == init[e..][i - e];
        }
      }
    }
  }

  /** What trimming leaves: a slice of `s` whose ends are not whitespace, and everything
      cut off on either side is whitespace. */
  lemma TrimIsSlice(s: string)
    ensures var t := Trim(s);
            && (|t| > 0 ==> !IsWhitespace(t[0]) && !IsWhitespace(t[|t| - 1]))
            && exists i :: 0 <= i <= |s| - |t| && t == s[i..i + |t|]
                        && AllWhitespace(s[..i]) && AllWhitespace(s[i + |t|..])
  {
    TrimSlice(s);
    TrimEnds(s);
    TrimCutsFront(s);
    TrimCutsBack(s);
  }

  /** Number of bytes in the UTF-8 encoding of `c`. */
  function Utf8Width(c: char): nat {
    if c < '\U{80}' then 1 else if c < '\U{800}' then 2 else if c < '\U{10000}' then 3 else 4
  }

  /** `str::len`: the UTF-8 byte length. */
  function ByteLen(s: string): (n: nat)
    ensures n >= |s|
  {
    if |s| == 0 then 0 else Utf8Width(s[0]) + ByteLen(s[1..])
  }

  /** Card `FromStr` cuts the trimmed token at byte offsets (`&s[0..2]`, then `split_at`
      1 or 2), which panics unless those offsets fall between characters. That is the
      case exactly when the token is shorter than two bytes or starts with two ASCII
      characters. */
  predicate SlicesOnCharBoundaries(t: string) {
    ByteLen(t) < 2 || (|t| >= 2 && IsAscii(t[0]) && IsAscii(t[1]))
  }

  /** Where the rank part of a trimmed token ends: after "10", otherwise after one character. */
  function RankWidth(t: string): nat
    requires |t| >= 2
  {
    if t[..2] == "10" then 2 else 1
  }

  /** `t` is a rank spelling followed by a suit spelling of card `c`. */
  ghost predicate SpellsCard(t: string, c: Card) {
    exists i :: 0 <= i <= |t| && ToUpper(t[..i]) == RankToken(c.rank) && SpellsSuit(t[i..], c.suit)
  }

  /** Card `FromStr`. The token is trimmed; fewer than two bytes is `IncompleteError`;
      otherwise the rank part is parsed first, so a bad rank is reported before a bad suit. */
  function ParseCard(s: string): (r: Result<Card, CardParseError>)
    requires SlicesOnCharBoundaries(Trim(s))
    ensures r == Err(IncompleteError) <==> ByteLen(Trim(s)) < 2
    ensures forall c: Card {:trigger SpellsCard(Trim(s), c)} :: r == Ok(c) <==> SpellsCard(Trim(s), c)
    ensures r.Err? && r.error.RankError? <==>
              ByteLen(Trim(s)) >= 2 && ParseRank(Trim(s)[..RankWidth(Trim(s))]).Err?
    ensures r.Err? && r.error.SuitError? <==>
              ByteLen(Trim(s)) >= 2 && ParseRank(Trim(s)[..RankWidth(Trim(s))]).Ok?
              && ParseSuit(Trim(s)[RankWidth(Trim(s))..]).Err?
  {
    var t := Trim(s);
    if ByteLen(t) < 2 then Err(IncompleteError)
    else
      var n := RankWidth(t);
      SpellingSplitsAtRankWidth(t);
      match ParseRank(t[..n])
      case Err(e) => Err(RankError(e))
      case Ok(rank) =>
        match ParseSuit(t[n..])
        case Err(e) => Err(SuitError(e))
        case Ok(suit) => Ok(Card(rank, suit))
  }

  /** A card spelling can only be split where `from_str` splits it. */
  lemma SpellingSplitsAtRankWidth(t: string)
    requires |t| >= 2
    ensures forall c: Card, i: nat {:trigger SpellsSuit(t[i..], c.suit), RankToken(c.rank)} ::
              i <= |t| && ToUpper(t[..i]) == RankToken(c.rank) && SpellsSuit(t[i..], c.suit) ==> i == RankWidth(t)
  {
    forall c: Card, i: nat | i <= |t| && ToUpper(t[..i]) == RankToken(c.rank) && SpellsSuit(t[i..], c.suit)
      ensures i == RankWidth(t)
    {
      RankTokenShape(c.rank);
      if c.rank == Ten {
        assert i == 2;
        ShortUpper(t[..2]);
        assert t[..2] == [t[0], t[1]];
        assert t[0] == '1' && t[1] == '0';
        assert t[..2] == "10";
      } else {
        assert i == 1;
        ShortUpper(t[..1]);
        assert t[..1] == [t[0]];
        assert UpperChar(t[0]) == RankToken(c.rank)[0] != '1';
        assert t[..2] != "10";
      }
    }
  }

  /** Tokens without surrounding whitespace are left alone by `trim`. */
  lemma TrimUnpadded(s: string)
    requires |s| > 0 && !IsWhitespace(s[0]) && !IsWhitespace(s[|s| - 1])
    ensures Trim(s) == s
  {
  }

  /** Rank tokens are upper-case ASCII of one or two characters. */
  lemma RankTokenShape(r: Rank)
    ensures ToUpper(RankToken(r)) == RankToken(r)
    ensures 1 <= |RankToken(r)| <= 2 && IsAscii(RankToken(r)[0]) && !IsWhitespace(RankToken(r)[0])
    ensures |RankToken(r)| == 2 ==> RankToken(r) == "10"
  {
    ShortUpper(RankToken(r));
    match r
    case Two => case Three => case Four => case Five => case Six => case Seven =>
    case Eight => case Nine => case Ten => case Jack => case Queen => case King => case Ace =>
  }

  /** The display token of a rank parses back to the rank. */
  lemma RankRoundTrip(r: Rank)
    ensures ParseRank(RankToken(r)) == Ok(r)
  {
    RankTokenShape(r);
  }

  /** The display glyph of a suit parses back to the suit. */
  lemma SuitRoundTrip(u: Suit)
    ensures ParseSuit(SuitGlyph(u)) == Ok(u)
  {
  }

  /** A rank token followed by a suit letter parses to that card. */
  lemma CardRoundTrip(r: Rank, u: Suit)
    ensures var token := RankToken(r) + [SuitLetter(u)];
            SlicesOnCharBoundaries(Trim(token)) && ParseCard(token) == Ok(Card(r, u))
  {
    var rt := RankToken(r);
    RankTokenShape(r);
    var token := rt + [SuitLetter(u)];
    TrimUnpadded(token);
    assert token[..|rt|] == rt && token[|rt|..] == [SuitLetter(u)];
    ShortUpper([SuitLetter(u)]);
    assert SpellsSuit([SuitLetter(u)], u);
    assert SpellsCard(token, Card(r, u));
  }

  /** Upper-casing leaves ASCII, whitespace and commas recognisable: a character whose
      upper case is ASCII, not whitespace, or not a comma was so to begin with. */
  lemma UpperCharKeeps(c: char)
    ensures IsAscii(UpperChar(c)) ==> IsAscii(c)
    ensures !IsWhitespace(UpperChar(c)) ==> !IsWhitespace(c)
    ensures UpperChar(c) == ',' <==> c == ','
  {
  }

  /** Any token that upper-cases to a rank token followed by a suit letter parses to that
      card, whatever the case of its letters. */
  lemma {:induction false} AnyCaseCardParses(t: string, r: Rank, u: Suit)
    requires ToUpper(t) == RankToken(r) + [SuitLetter(u)]
    ensures SlicesOnCharBoundaries(Trim(t)) && ParseCard(t) == Ok(Card(r, u))
  {
    var rt := RankToken(r);
    RankTokenShape(r);
    var n := |rt|;
    assert |t| == n + 1;
    assert ToUpper(t)[0] == rt[0] && ToUpper(t)[n] == SuitLetter(u);
    UpperCharKeeps(t[0]);
    UpperCharKeeps(t[n]);
    TrimUnpadded(t);
    assert ToUpper(t[..n]) == rt by {
      assert forall i :: 0 <= i < n ==> ToUpper(t[..n])[i] == ToUpper(t)[i];
    }
    assert ToUpper(t[n..]) == [SuitLetter(u)] by {
      assert ToUpper(t[n..])[0] == ToUpper(t)[n];
    }
    assert SpellsSuit(t[n..], u);
    assert SpellsCard(t, Card(r, u));
    UpperCharKeeps(t[1]);
    assert IsAscii(ToUpper(t)[1]);
  }

  /** "10d" spells the ten of diamonds: "10" then "d". */
  lemma TenOfDiamondsSpelling()
    ensures Trim("10d") == "10d"
    ensures SpellsCard("10d", Card(Ten, Diamonds))
  {
    TrimUnpadded("10d");
    assert "10d"[..2] == "10" && "10d"[2..] == "d";
    ShortUpper("10");
    ShortUpper("d");
  }

  /** The program's own examples: "10d" is the ten of diamonds. */
  lemma TenOfDiamondsExample()
    ensures ParseCard("10d") == Ok(Card(Ten, Diamonds))
  {
    TenOfDiamondsSpelling();
    assert SlicesOnCharBoundaries("10d");
  }

  /** "ac" is the ace of clubs. */
  lemma AceOfClubsExample()
    ensures ParseCard("ac") == Ok(Card(Ace, Clubs))
  {
    TrimUnpadded("ac");
    assert "ac"[..1] == "a" && "ac"[1..] == "c";
    ShortUpper("a");
    ShortUpper("c");
    assert SpellsCard("ac", Card(Ace, Clubs));
  }

  /** Trimming drops the trailing newline of "AC\n". */
  lemma TrimsNewline()
    ensures Trim("AC\n") == "AC"
  {
    assert "AC\n"[..2] == "AC";
  }

  /** "AC\n" is the ace of clubs too: the newline is trimmed and the case ignored. */
  lemma UpperAceOfClubsExample()
    ensures Trim("AC\n") == "AC"
    ensures ParseCard("AC\n") == Ok(Card(Ace, Clubs))
  {
    TrimsNewline();
    TrimUnpadded("AC");
    assert "AC"[..1] == "A" && "AC"[1..] == "C";
    ShortUpper("A");
    ShortUpper("C");
    assert SpellsCard("AC", Card(Ace, Clubs));
  }

  /** "1" is not a rank, so "1d" is a rank error. */
  lemma BadRankExample()
    ensures ParseCard("1d") == Err(RankError(InvalidRank("1")))
  {
    TrimUnpadded("1d");
    assert "1d"[..2] != "10";
    assert "1d"[..1] == "1";
  }
}
