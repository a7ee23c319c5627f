/** `Hand::from_str`: a comma-separated list of card tokens, exactly five of which must
    parse. */
module HandParsing {
  import opened Results
  import opened Cards
  import opened CardParsing
  import opened Hands

  /** `HandParseError`: the first card token that fails to parse (`CardParseError`), or
      a list of well-formed tokens whose length is not five. */
  datatype HandParseError =
    | CardError(cardError: CardParseError)
    | WrongNumberOfElements(count: nat)

  /** The pieces joined back together, a comma between each two. */
  function Join(ps: seq<string>): string
    requires |ps| >= 1
  {
    if |ps| == 1 then ps[0] else ps[0] + "," + Join(ps[1..])
  }

  /** `str::split(",")`: the comma-free pieces between the commas, in order. There is
      always at least one piece (the empty string is one empty piece), and joining the
      pieces gives back the input. */
  function Split(s: string): (ps: seq<string>)
    ensures |ps| >= 1
    ensures forall i :: 0 <= i < |ps| ==> ',' !in ps[i]
    ensures Join(ps) == s
    decreases |s|
  {
    if |s| == 0 then [""]
    else
      var rest := Split(s[1..]);
      if s[0] == ',' then
        var ps := [""] + rest;
        assert ps[1..] == rest;
        assert s == "" + "," + s[1..];
        ps
      else
        var ps := [[s[0]] + rest[0]] + rest[1..];
        assert ps[1..] == rest[1..];
        assert s == [s[0]] + s[1..];
        ps
  }

  /** Splitting a string that starts with a comma-free piece puts that piece in front of
      the first piece of the rest. */
  lemma {:induction false} SplitPrefix(p: string, t: string)
    requires ',' !in p
    ensures Split(p + t) == [p + Split(t)[0]] + Split(t)[1..]
    decreases |p|
  {
    if |p| == 0 {
      assert p + t == t && p + Split(t)[0] == Split(t)[0];
      assert Split(t) == [Split(t)[0]] + Split(t)[1..];
    } else {
      assert (p + t)[0] == p[0];
      assert (p + t)[1..] == p[1..] + t;
      SplitPrefix(p[1..], t);
      assert [p[0]] + (p[1..] + Split(t)[0]) == p + Split(t)[0];
    }
  }

  /** Splitting undoes joining: comma-free pieces come back unchanged. */
  lemma {:induction false} SplitJoin(ps: seq<string>)
    requires |ps| >= 1
    requires forall i :: 0 <= i < |ps| ==> ',' !in ps[i]
    ensures Split(Join(ps)) == ps
    decreases |ps|
  {
    if |ps| == 1 {
      SplitPrefix(ps[0], "");
      assert ps[0] + "" == ps[0];
    } else {
      var rest := Join(ps[1..]);
      SplitJoin(ps[1..]);
      assert ps[0] + "," + rest == ps[0] + ("," + rest);
      SplitPrefix(ps[0], "," + rest);
      assert ("," + rest)[1..] == rest;
      assert Split("," + rest) == [""] + ps[1..];
      assert ps[0] + "" == ps[0];
    }
  }

  /** Every token before index `k` is one `parse` accepts. */
  ghost predicate ParsesBefore<T, E>(ts: seq<string>, k: nat, parse: string --> Result<T, E>) {
    forall i :: 0 <= i < k && i < |ts| ==> parse.requires(ts[i]) && parse(ts[i]).Ok?
  }

  /** `xs` are the values the tokens `ts` parse to, one for one. */
  ghost predicate ParsedAs<T, E>(ts: seq<string>, xs: seq<T>, parse: string --> Result<T, E>) {
    && |xs| == |ts|
    && forall i :: 0 <= i < |ts| ==> parse.requires(ts[i]) && parse(ts[i]) == Ok(xs[i])
  }

  /** Parsing runs through the tokens in order and stops at the first that fails; every
      token it reaches is one `parse` can be applied to without panicking. */
  ghost predicate ParsesWithoutPanic<T, E>(ts: seq<string>, parse: string --> Result<T, E>)
    decreases |ts|
  {
    |ts| == 0
    || (parse.requires(ts[0]) && (parse(ts[0]).Ok? ==> ParsesWithoutPanic(ts[1..], parse)))
  }

  /** `map(parse).try_collect()`: the values of all the tokens, or the error of the first
      token that does not parse. */
  function TryCollect<T, E>(ts: seq<string>, parse: string --> Result<T, E>): (r: Result<seq<T>, E>)
    requires ParsesWithoutPanic(ts, parse)
    ensures r.Ok? <==> ParsesBefore(ts, |ts|, parse)
    ensures r.Ok? ==> ParsedAs(ts, r.value, parse)
    ensures r.Err? ==> exists k :: 0 <= k < |ts| && ParsesBefore(ts, k, parse)
                              && parse.requires(ts[k]) && parse(ts[k]) == Err(r.error)
    decreases |ts|
  {
    if |ts| == 0 then Ok([])
    else
      match parse(ts[0])
      case Err(e) =>
        assert ParsesBefore(ts, 0, parse);
        Err(e)
      case Ok(x) =>
        var tail := ts[1..];
        match TryCollect(tail, parse)
        case Err(e) =>
          assert exists k :: 0 <= k < |ts| && ParsesBefore(ts, k, parse)
                             && parse.requires(ts[k]) && parse(ts[k]) == Err(e) by {
            var k :| 0 <= k < |tail| && ParsesBefore(tail, k, parse)
                     && parse.requires(tail[k]) && parse(tail[k]) == Err(e);
            assert ts[k + 1] == tail[k];
            assert ParsesBefore(ts, k + 1, parse) by {
              forall i | 0 <= i < k + 1 ensures parse.requires(ts[i]) && parse(ts[i]).Ok? {
                if i > 0 {
                  assert ts[i] == tail[i - 1];
                }
              }
            }
          }
          Err(e)
        case Ok(xs) =>
          var r := [x] + xs;
          assert forall i :: 1 <= i < |ts| ==> ts[i] == tail[i - 1] && r[i] == xs[i - 1];
          Ok(r)
  }

  /** `Hand::from_str`: split at the commas and parse every piece as a card, stopping at
      the first failure; exactly five cards make a hand, built as `Hand::from` builds it,
      and any other number is `WrongNumberOfElements` with the number of cards parsed. */
  function ParseHand(s: string): (r: Result<Hand, HandParseError>)
    requires ParsesWithoutPanic(Split(s), ParseCard)
    ensures r.Ok? <==> |Split(s)| == 5 && ParsesBefore(Split(s), 5, ParseCard)
    ensures r.Ok? ==> exists cs: Five :: ParsedAs(Split(s), cs, ParseCard) && r.value == FromCards(cs)
    ensures r.Err? && r.error.WrongNumberOfElements?
        <==> ParsesBefore(Split(s), |Split(s)|, ParseCard) && |Split(s)| != 5
    ensures r.Err? && r.error.WrongNumberOfElements? ==> r.error.count == |Split(s)|
    ensures r.Err? && r.error.CardError? ==>
              exists k :: 0 <= k < |Split(s)| && ParsesBefore(Split(s), k, ParseCard)
                       && ParseCard.requires(Split(s)[k])
                       && ParseCard(Split(s)[k]) == Err(r.error.cardError)
  {
    match TryCollect(Split(s), ParseCard)
    case Err(e) => Err(CardError(e))
    case Ok(cs) =>
      if |cs| != 5 then Err(WrongNumberOfElements(|cs|))
      else Ok(FromCards(cs))
  }

  /** The letter-suited token of a card: its rank's display token and its suit's letter. */
  function CardToken(c: Card): string {
    RankToken(c.rank) + [SuitLetter(c.suit)]
  }

  /** The tokens of a list of cards, in order. */
  function Tokens(cs: seq<Card>): (ts: seq<string>)
    ensures |ts| == |cs|
  {
    seq(|cs|, i requires 0 <= i < |cs| => CardToken(cs[i]))
  }

  /** The comma-separated tokens of five cards. */
  function HandText(cs: Five): string {
    Join(Tokens(cs))
  }

  lemma CardTokenHasNoComma(c: Card)
    ensures ',' !in CardToken(c)
  {
    RankTokenShape(c.rank);
  }

  /** The tokens of any list of cards parse back to those cards. */
  lemma {:induction false} TokensParse(cs: seq<Card>)
    ensures ParsesWithoutPanic(Tokens(cs), ParseCard)
    ensures ParsedAs(Tokens(cs), cs, ParseCard)
    decreases |cs|
  {
    var ts := Tokens(cs);
    if |cs| > 0 {
      TokensParse(cs[1..]);
      assert ts[1..] == Tokens(cs[1..]);
      forall i | 0 <= i < |cs| ensures ParseCard.requires(ts[i]) && ParseCard(ts[i]) == Ok(cs[i]) {
        CardRoundTrip(cs[i].rank, cs[i].suit);
      }
    }
  }

  /** Tokens determine what they parse to. */
  lemma ParsedAsUnique<T, E>(ts: seq<string>, xs: seq<T>, ys: seq<T>, parse: string --> Result<T, E>)
    requires ParsedAs(ts, xs, parse) && ParsedAs(ts, ys, parse)
    ensures xs == ys
  {
    assert forall i :: 0 <= i < |xs| ==> Ok(xs[i]) == parse(ts[i]) == Ok(ys[i]);
  }

  /** Writing five cards as comma-separated tokens and parsing the text gives back the
      hand of those cards. */
  lemma ParseHandRoundTrip(cs: Five)
    ensures ParsesWithoutPanic(Split(HandText(cs)), ParseCard)
    ensures ParseHand(HandText(cs)) == Ok(FromCards(cs))
  {
    var ts := Tokens(cs);
    forall i | 0 <= i < |ts| ensures ',' !in ts[i] {
      CardTokenHasNoComma(cs[i]);
    }
    SplitJoin(ts);
    TokensParse(cs);
    var r := TryCollect(ts, ParseCard);
    ParsedAsUnique(ts, r.value, cs, ParseCard);
  }

  /** Text of any other positive number of well-formed tokens is `WrongNumberOfElements`
      carrying that number. */
  lemma ParseWrongCount(cs: seq<Card>)
    requires |cs| >= 1 && |cs| != 5
    ensures ParsesWithoutPanic(Split(Join(Tokens(cs))), ParseCard)
    ensures ParseHand(Join(Tokens(cs))) == Err(WrongNumberOfElements(|cs|))
  {
    var ts := Tokens(cs);
    forall i | 0 <= i < |ts| ensures ',' !in ts[i] {
      CardTokenHasNoComma(cs[i]);
    }
    SplitJoin(ts);
    TokensParse(cs);
  }

  /** Tokens that all parse never reach a failing token, so nothing panics. */
  lemma {:induction false} ParsedWithoutPanic<T, E>(ts: seq<string>, xs: seq<T>, parse: string --> Result<T, E>)
    requires ParsedAs(ts, xs, parse)
    ensures ParsesWithoutPanic(ts, parse)
    decreases |ts|
  {
    if |ts| > 0 {
      assert ParsedAs(ts[1..], xs[1..], parse) by {
        forall i | 0 <= i < |ts| - 1 ensures parse.requires(ts[1..][i]) && parse(ts[1..][i]) == Ok(xs[1..][i]) {
          assert ts[1..][i] == ts[i + 1] && xs[1..][i] == xs[i + 1];
        }
      }
      ParsedWithoutPanic(ts[1..], xs[1..], parse);
    }
  }

  /** A token that upper-cases to a card's token has no comma and parses to the card. */
  lemma NamedTokenParses(t: string, c: Card)
    requires ToUpper(t) == CardToken(c)
    ensures ',' !in t
    ensures ParseCard.requires(t) && ParseCard(t) == Ok(c)
  {
    CardTokenHasNoComma(c);
    forall k | 0 <= k < |t| ensures t[k] != ',' {
      assert ToUpper(t)[k] in CardToken(c);
      UpperCharKeeps(t[k]);
    }
    AnyCaseCardParses(t, c.rank, c.suit);
  }

  /** Five comma-separated tokens, each a card token in any mix of upper and lower case,
      parse to the hand of those cards. */
  lemma ParseHandText(ts: seq<string>, cs: Five)
    requires |ts| == 5
    requires forall i :: 0 <= i < 5 ==> ToUpper(ts[i]) == CardToken(cs[i])
    ensures ParsesWithoutPanic(Split(Join(ts)), ParseCard)
    ensures ParseHand(Join(ts)) == Ok(FromCards(cs))
  {
    forall i | 0 <= i < 5
      ensures ',' !in ts[i]
      ensures ParseCard.requires(ts[i]) && ParseCard(ts[i]) == Ok(cs[i])
    {
      NamedTokenParses(ts[i], cs[i]);
    }
    SplitJoin(ts);
    assert ParsedAs(ts, cs, ParseCard);
    ParsedWithoutPanic(ts, cs, ParseCard);
    var r := TryCollect(ts, ParseCard);
    ParsedAsUnique(ts, r.value, cs, ParseCard);
  }
}
