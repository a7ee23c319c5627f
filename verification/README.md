# holdem_rs in Dafny

A model of the computational core of `holdem_rs`, a Texas hold'em hand evaluator, with
proofs about it. The model covers three parts:

- **Card model** (`cards.dfy`, `card_parsing.dfy`). Ranks with their cyclic `successor`,
  suits, cards and their derived order. It also covers `Card::iter` (the 52 cards in order),
  `Deck::deal_n`, and the `FromStr` parsers and display tokens of ranks, suits and cards.
- **Hand evaluator** (`hands.dfy`, with `grouping.dfy`, `sorting.dfy`, `combinations.dfy`,
  `combination_order.dfy`, `maxima.dfy`, `ordering.dfy`). It covers:
  - `Hand::from`, which sorts five cards in descending order;
  - `hand_type`: straight and wheel detection, the flush test, and the run-length rank grouping;
  - the derived order on `HandType` and `Ord for Hand`;
  - `best_hand`, the largest hand over the 5-card combinations of a pool;
  - `Hand::from_str` (`hand_parsing.dfy`).
- **Nut finder** (`hold_em.dfy`). `find_nuts` tries every pair of cards not on the board and
  keeps the largest `(Hand, [Card; 2])`.

The proofs relate each operation to an independent description of it:

- `hand_spec.dfy` gives a reference classification from rank multiplicities and the suit
  test. `hand_type` is proved equal to it on every five cards, so the category does not
  depend on the order of the cards.
- `best_hand` and `find_nuts` are proved to beat every alternative.
- The parsers are proved to invert the letter-suited tokens: a rank's display token
  followed by the suit's letter. The glyph form that `Display for Card` writes does not
  round-trip for one-character ranks, because `Card::from_str` panics on it.
- The test vectors of `src/hands.rs` and `src/cards.rs` are proved as lemmas
  (`hand_examples.dfy`, `hand_text_examples.dfy`, `card_parsing.dfy`).
- `nuts_examples.dfy` works through `find_nuts` on a five-card board.

How the model is built:

- Every order is reduced to lexicographic comparison of integer keys (`Ordering.LexCmp`).
- A card's key is `rank * 4 + suit`, with suits in declaration order: hearts, clubs,
  spades, diamonds.
- A hand's key is the hand type's key (variant, then the embedded ranks) followed by the
  five ranks.
- Rust's `Iterator::max` returns the last of several equal maxima, and `Maxima.LastMax`
  does the same.
- `combinations(k)` is modelled as selections at increasing indices, in the order
  itertools yields them: lexicographic in the index tuples (`CombinationOrder.CombinationsInIndexOrder`).
- `best_hand` and `find_nuts` panic on too few cards; both panics are modelled as `None`.

Behaviours of the code that the model keeps:

- `Hand::from` does not check that the five cards are distinct. The model classifies any
  five cards. Five cards of one rank fall through to `HighCard`, as at `src/hands.rs:68`,
  unless all five share a suit: then `is_flush` is tested first (`src/hands.rs:56-57`) and
  makes them a `Flush`.
- On a five-card board `find_nuts` still tries two more cards, so it can beat the board's
  own straight flush. `NutsExamples.DiamondBoardNuts` proves
  that on the board two to six of diamonds, the result is a straight flush to the eight or
  higher.
- `Card::from_str` slices the token at byte offsets, so a one-character rank followed by a glyph panics. Only "10" followed by a
  glyph parses. The model states this as a precondition, `CardParsing.SlicesOnCharBoundaries`.

## Model

| member | source | states |
|---|---|---|
| Cards.Rank.Successor | src/cards.rs:101-105 | the successor is the next rank in declaration order, and Ace wraps to Two (index plus one modulo 13) |
| Cards.RankFromIndex | src/cards.rs:103 | `from_u8` yields a rank exactly for indices below 13, and that rank has the given index |
| Cards.RankIndexRoundTrip | src/cards.rs:84-99 | every rank's discriminant is below 13 and converts back to the same rank |
| Cards.SuitIndexRoundTrip | src/cards.rs:157-163 | every suit's discriminant is below 4 and converts back to the same suit |
| Cards.AllRanks | src/cards.rs:84-99 | `Rank::iter` yields the 13 ranks, the i-th having discriminant i |
| Cards.AllSuits | src/cards.rs:157-163 | `Suit::iter` yields the 4 suits, the i-th having discriminant i |
| Cards.CardOrderIsPositionOrder | src/cards.rs:30-34 | the derived card order (rank, then suit) is the order of the key rank*4+suit |
| Cards.CardCmp | src/cards.rs:30-34 | the derived `Ord` on `Card`, rank first and then suit; `Cards.CardOrderIsPositionOrder` proves it is the order of the key rank*4+suit |
| Cards.PositionInjective | src/cards.rs:30-34 | different cards have different keys, so the card order is strict on distinct cards |
| Cards.Product | src/cards.rs:36-42 | the cartesian product lists, for each rank in turn, that rank with each suit in order |
| Cards.AllCards | src/cards.rs:36-42 | `Card::iter` yields 52 cards, the card at index i has key i, and every card sits at its key |
| Cards.AllCardsOnce | src/cards.rs:36-42 | every card occurs exactly once among the 52 |
| Cards.DealN | src/cards.rs:21-27 | dealing more cards than the deck holds gives `None` and leaves the deck unchanged; otherwise the last n cards are dealt and the rest stay in order |
| Cards.DealTwice | src/cards.rs:21-27 | dealing n cards and then the rest empties the deck, and the two deals together hold exactly the deck's cards |
| Cards.ShuffledDeckShape | src/cards.rs:15-19 | a shuffled full deck has 52 cards, each card exactly once |
| Cards.IsShuffledDeck | src/cards.rs:15-19 | a deck `Deck::new` can build: the 52 cards of `Card::iter` in some order; `Cards.ShuffledDeckShape` proves it has 52 cards, each once |
| Cards.DealPartitionsDeck | src/cards.rs:15-27 | on a shuffled deck, the two deals hold each of the 52 cards exactly once between them |
| CardParsing.ParseRank | src/cards.rs:134-155 | a rank token parses to a rank exactly when it is that rank's display token up to letter case; any other token is `InvalidRank` of the token |
| CardParsing.ParseSuit | src/cards.rs:183-194 | a suit token parses to a suit exactly when it is that suit's glyph or its letter in either case; any other token is `InvalidSuit` of the token |
| CardParsing.SpelledSuitUnique | src/cards.rs:186-192 | no token spells two different suits |
| CardParsing.RankTokenShape | src/cards.rs:107-126 | a display token is upper case, one or two characters long, and starts with a non-whitespace ASCII character; only Ten's token has two characters, "10" |
| CardParsing.RankRoundTrip | src/cards.rs:107-155 | parsing a rank's display token gives back that rank |
| CardParsing.SuitRoundTrip | src/cards.rs:165-194 | parsing a suit's display glyph gives back that suit |
| CardParsing.TrimIsSlice | src/cards.rs:66 | `trim` returns a slice of the input with only whitespace cut from both ends and no whitespace at either end of the result |
| CardParsing.Trim | src/cards.rs:66 | `str::trim`; `CardParsing.TrimIsSlice` proves it cuts only whitespace from the two ends and leaves none there |
| CardParsing.ParseCard | src/cards.rs:62-82 | the trimmed token gives `IncompleteError` exactly when it is shorter than two bytes; it parses to a card exactly when it spells that card's rank and then its suit; otherwise it is a `RankError` exactly when the rank part fails to parse, and a `SuitError` exactly when the rank part parses and the suit part does not |
| CardParsing.SpellingSplitsAtRankWidth | src/cards.rs:71-75 | a card spelling can only be split where `from_str` splits it: after "10", otherwise after one character |
| CardParsing.CardRoundTrip | src/cards.rs:62-82 | a rank token followed by a suit letter parses to that card |
| CardParsing.AnyCaseCardParses | src/cards.rs:62-82 | a token that upper-cases to a rank token and a suit letter parses, without slicing mid-character, to that card |
| CardParsing.TenOfDiamondsExample | src/cards.rs:202 | "10d" parses to the ten of diamonds |
| CardParsing.UpperAceOfClubsExample | src/cards.rs:204-205 | "AC\n" trims to "AC" and parses to the ace of clubs |
| CardParsing.AceOfClubsExample | src/cards.rs:206-207 | "ac" parses to the ace of clubs |
| CardParsing.BadRankExample | src/cards.rs:71-78 | "1d" is not split after "10", and its rank part "1" is an `InvalidRank` error |
| Ordering.LexEqualIff | src/hands.rs:111 | lexicographic comparison is `Equal` exactly on equal sequences |
| Ordering.LexTransitive | src/hands.rs:111 | lexicographic order is transitive, and strict when either step is strict |
| Sorting.SortDesc | src/hands.rs:28 | sorting returns a permutation of its input in non-increasing key order |
| Sorting.SortedUnique | src/hands.rs:28 | with an injective key, two sorted permutations of the same elements are equal, so the sort result is determined by the multiset |
| Combinatorics.CombinationsAreSelections | src/hands.rs:40 | the k-combinations are exactly the k-element selections at increasing indices |
| Combinatorics.Combinations | src/hands.rs:40 | itertools `combinations(k)`; `Combinatorics.CombinationsAreSelections` proves its members are exactly the increasing-index k-selections |
| CombinationOrder.CombinationsInIndexOrder | src/hands.rs:40 | `combinations(k)` yields the selections in the lexicographic order of their index tuples: the i-th combination is the pool picked at the i-th tuple of increasing indices, and each tuple is lexicographically smaller than every later one |
| Combinatorics.CombinationsNonEmpty | src/hands.rs:40-46 | there is some k-combination exactly when k is at most the length |
| Maxima.LastMax | src/hands.rs:45-46 | `max` returns an element that is at least every element, and every element after it is strictly smaller, so the last of equal maxima wins |
| Grouping.RunLengthsShape | src/hands.rs:60 | `dedup_with_count` returns runs that expand back to the input, with counts of at least one and neighbouring runs of different ranks |
| Grouping.RunLengths | src/hands.rs:60 | `dedup_with_count`; `Grouping.RunLengthsShape` proves the runs expand back to the ranks, with neighbouring runs of different ranks |
| Grouping.SortedRunsProfile | src/hands.rs:59-61 | on descending ranks the sorted runs describe the ranks (one run per rank, its count its multiplicity) in strictly decreasing (count, rank) order |
| Hands.HandTypeOrderIsDerived | src/hands.rs:12-23 | the derived order on `HandType` compares the variant first and then the embedded ranks in field order |
| Hands.HandTypeCmp | src/hands.rs:12-23 | the derived `Ord` on `HandType`; `Hands.HandTypeOrderIsDerived` proves it compares the variant, then the embedded ranks in field order |
| Hands.HandTypeEqualIff | src/hands.rs:12-23 | two hand types compare `Equal` exactly when they are the same value |
| Hands.FromCards | src/hands.rs:26-30 | `Hand::from` returns a permutation of its five cards in non-increasing card order |
| Hands.FromCardsOrderIndependent | src/hands.rs:26-30 | any rearrangement of the same five cards gives the same hand |
| Hands.HandCmpIsKeyCmp | src/hands.rs:108-115 | comparing hands is comparing hand-type keys and then the rank arrays lexicographically |
| Hands.HandCmp | src/hands.rs:108-115 | `Ord for Hand`: the hand types decide, then the rank arrays; `Hands.HandCmpIsKeyCmp` and `Hands.HandOrderIsTotalPreorder` prove it is a total preorder on keys |
| Hands.HandOrderIsTotalPreorder | src/hands.rs:108-121 | swapping the operands reverses the hand order, and it is transitive, strictly so when a step is strict |
| Hands.HandEqualIff | src/hands.rs:100-115 | two hands are `==` exactly when their hand types and their rank arrays agree, whatever the suits |
| Hands.CategoryDominates | src/hands.rs:108-115 | a hand of a weaker category loses to any hand of a stronger category, whatever the ranks |
| Hands.BestHand | src/hands.rs:36-47 | fewer than five cards gives `None`; otherwise the result is the hand of five cards of the pool and beats or ties the hand of every 5-card selection of the pool |
| Hands.BestHandIsLastMaximum | src/hands.rs:36-47 | among hands that compare equal `best_hand` returns the last: the hand of one combination after which every combination itertools yields makes a strictly smaller hand |
| Hands.IsFlush | src/hands.rs:73-76 | `is_flush`: every card has the first card's suit; `HandSpec.FromCardsKeepsRanksAndSuits` proves this is the cards sharing one suit |
| Hands.ExtractStraight | src/hands.rs:82-97 | `extract_straight`; `HandSpec.ExtractStraightCorrect` proves it finds top t exactly for five consecutive ranks ending at t, or the wheel for Five |
| Hands.GroupType | src/hands.rs:62-69 | the match on the sorted groups; `HandSpec.GroupTypeCorrect` proves the category it picks is the one the rank multiplicities describe |
| Hands.GroupCategory | src/hands.rs:58-69 | grouping, sorting and matching the ranks; `HandSpec.GroupCategoryDescribes` proves it yields exactly the describing category |
| Hands.HandTypeOf | src/hands.rs:49-71 | `hand_type`; `HandSpec.HandTypeMatchesReference` proves it equals the reference classification on any five cards, both directions |
| HandSpec.RunIsExtracted | src/hands.rs:82-97 | five consecutive ranks from any top, and the wheel with top Five, are each found as a straight with that top |
| HandSpec.ExtractStraightCorrect | src/hands.rs:82-97 | on descending ranks, `extract_straight` finds top t exactly when the ranks are the five consecutive ranks ending at t, or the wheel when t is Five |
| HandSpec.GroupDescribesUnique | src/hands.rs:59-69 | rank multiplicities admit at most one rank-group category |
| HandSpec.GroupTypeCorrect | src/hands.rs:59-69 | on descending ranks, the grouping yields category t exactly when t describes the rank multiplicities: which ranks occur four, three or two times, and the higher pair first |
| HandSpec.FromCardsKeepsRanksAndSuits | src/hands.rs:73-80 | the sorted hand has the same ranks as its cards, in descending order, and is a flush exactly when all five cards share a suit |
| HandSpec.StraightCategory | src/hands.rs:50-55 | when a straight is found, a flush makes it a straight flush and otherwise a straight, with that top, and that is the only category describing the cards |
| HandSpec.FlushCategory | src/hands.rs:56-57 | without a straight, a flush is classified `Flush`, and that is the only category describing the cards |
| HandSpec.GroupCategoryDescribes | src/hands.rs:58-69 | without a straight or flush, the grouping yields exactly the category describing the cards |
| HandSpec.HandTypeOfSorted | src/hands.rs:49-71 | `hand_type` of a hand with descending ranks is t exactly when t describes its ranks and flush |
| HandSpec.HandTypeMatchesReference | src/hands.rs:49-71 | for any five cards, `hand_type` of their hand is t exactly when t is the reference category of their rank multiplicities and suits |
| HandSpec.HandTypeOrderIndependent | src/hands.rs:49-71 | permuting the five cards does not change the hand type |
| HandExamples.PairOfFours | src/hands.rs:168-169 | 2d 4d 4c 5d 6d is a pair of fours |
| HandExamples.FivesAndFours | src/hands.rs:171-172 | 2d 4d 4c 5d 5s is two pair, fives over fours |
| HandExamples.FoursFullOfFives | src/hands.rs:174-199 | three fours and two fives is a full house, fours full of fives |
| HandExamples.ThreeFours | src/hands.rs:201-223 | three fours with a five and an ace is three of a kind |
| HandExamples.SixHighStraightFlush | src/hands.rs:228-250 | suited two to six is a straight flush to the six |
| HandExamples.SuitedWheel | src/hands.rs:252-274 | suited ace to five is a straight flush to the five, not the ace |
| HandExamples.NoWrapAround | src/hands.rs:276-298 | suited K A 2 3 4 is a flush: the ranks do not wrap around the ace |
| HandExamples.AceKingFlush | src/hands.rs:300-322 | suited A K 8 3 2 is a flush |
| HandExamples.PairOfAces | src/hands.rs:324-346 | 2d 3d 4d Ad Ac is a pair of aces, not a straight |
| HandExamples.RoyalFlush | src/hands.rs:348-349 | suited ten to ace is a straight flush to the ace |
| HandExamples.SixHighStraight | src/hands.rs:357-358 | two to six, not all of one suit, is a straight to the six |
| HandExamples.HandTypeOrderExamples | src/hands.rs:12-23 | a pair of kings beats a pair of twos, a two pair of any ranks beats a pair of any rank, and equal full-house trips compare by the pair |
| HandTextExamples.TextClassifies | src/hands.rs:147-159 | text of five tokens, each naming a card in any case, parses to the hand of those cards with that hand's category |
| HandTextExamples.PairOfFoursText | src/hands.rs:168-169 | "2d,4d,4c,5d,6d" parses to a pair of fours |
| HandTextExamples.FivesAndFoursText | src/hands.rs:171-172 | "2d,4d,4c,5d,5s" parses to two pair, fives over fours |
| HandTextExamples.RoyalFlushText | src/hands.rs:348-349 | "ad,qd,jd,kd,10d" parses to a straight flush to the ace |
| HandTextExamples.SixHighStraightFlushText | src/hands.rs:354-355 | "2d,4d,3d,5d,6d" parses to a straight flush to the six |
| HandTextExamples.SixHighStraightText | src/hands.rs:357-358 | "2d,4d,3d,5d,6c" parses to a straight to the six |
| HandParsing.Split | src/hands.rs:151 | splitting at commas yields at least one piece, none containing a comma, and the pieces joined with commas give back the input |
| HandParsing.SplitJoin | src/hands.rs:151 | joining comma-free pieces with commas and splitting again gives back the pieces |
| HandParsing.TryCollect | src/hands.rs:151 | collecting succeeds exactly when every token parses, and then holds the parsed values in order; otherwise the error is that of the first token that fails |
| HandParsing.ParseHand | src/hands.rs:147-159 | a hand parses exactly when there are five comma-separated tokens that all parse, giving the hand of those cards; all tokens parsing with another count gives `WrongNumberOfElements` of that count; otherwise the error is that of the first failing token |
| HandParsing.TokensParse | src/hands.rs:151 | the letter-suited tokens of any cards (rank display token, then suit letter) parse back to those cards |
| HandParsing.ParseHandRoundTrip | src/hands.rs:147-159 | the comma-joined letter-suited tokens of five cards parse to the hand of those cards |
| HandParsing.ParseWrongCount | src/hands.rs:152-156 | the comma-joined tokens of a number of cards other than five give `WrongNumberOfElements` of that number |
| HandParsing.ParseHandText | src/hands.rs:147-159 | five tokens naming five cards in any case, joined by commas, parse to the hand of those cards |
| HoldEm.Without | src/hold_em.rs:13 | the filter keeps exactly the cards not on the board |
| HoldEm.AllCardsAscending | src/cards.rs:36-42 | `Card::iter` yields the cards in strictly increasing card order |
| HoldEm.Undealt | src/hold_em.rs:12-13 | the cards tried are exactly the cards not on the board, in strictly increasing order |
| HoldEm.PairSelections | src/hold_em.rs:14 | over a strictly increasing sequence, the 2-combinations are exactly the pairs of its members in increasing order |
| HoldEm.Pairs | src/hold_em.rs:12-14 | the pairs tried are exactly the pairs of cards off the board in increasing card order |
| HoldEm.HoleCmpIsKeyCmp | src/hold_em.rs:20-23 | the derived order on `[Card; 2]` compares the two cards' keys lexicographically |
| HoldEm.NutsCmpIsKeyCmp | src/hold_em.rs:18-23 | the derived order on `(Hand, [Card; 2])` compares the hands first and then the hole cards |
| HoldEm.HoleCmp | src/hold_em.rs:20 | the derived `Ord` on `[Card; 2]`; `HoldEm.HoleCmpIsKeyCmp` proves it compares the two cards' keys lexicographically |
| HoldEm.NutsCmp | src/hold_em.rs:18-23 | the derived `Ord` on `(Hand, [Card; 2])` that `max` uses; `HoldEm.NutsCmpIsKeyCmp` proves hands decide first, then hole cards |
| HoldEm.CandidateShape | src/hold_em.rs:15-22 | each candidate is two cards off the board in increasing order, with the best hand they make with the board |
| HoldEm.FindNuts | src/hold_em.rs:7-25 | fewer than three community cards, or fewer than two cards left, gives `None`; otherwise the hole cards are two cards off the board in increasing order, and the hand is the best hand they make with the board |
| HoldEm.NutsAreBest | src/hold_em.rs:12-24 | every pair of cards off the board makes a hand at most the nuts' hand, and on a tie the pair is at most the chosen pair in the order of `[Card; 2]` |
| NutsExamples.NutsAtLeastStraightFlush | src/hold_em.rs:12-24 | when two cards off the board complete a straight flush to rank r, the nuts are a straight flush to r or higher |
| NutsExamples.DiamondBoardNuts | src/hold_em.rs:7-25 | on the board two to six of diamonds, `find_nuts` answers with a straight flush to the eight or higher, beating the board's own straight flush |

## Left out

- `Deck::new` shuffles with `thread_rng`, so it depends on randomness. A deck is modelled as any sequence holding each of the 52 cards once (`Cards.IsShuffledDeck`). Uniformity is not stated.
- `Display` for `Card` and `Hand` is presentation only. Only the rank tokens and suit glyphs are kept, for the parse round trips. The hand form joined by ", " is not modelled.
- Glyph suits after a one-character rank panic on a mid-character byte slice. `CardParsing.ParseCard` requires `SlicesOnCharBoundaries` instead of modelling the panic.
- CardParsing.ParseCard: the contract does not say which token a `RankError` or `SuitError` carries. The body passes on the error of `ParseRank` or `ParseSuit`, whose own contracts name the token.
- The laziness of the iterator chains is left out. `best_hand` and `find_nuts` are pure functions over fully built sequences of combinations, because only their results are observable.
- `src/main.rs` only prints results, so it is not part of this model.
- The library code (itertools, strum, num_traits, thiserror) is replaced by the model's own definitions: combinations, run-length encoding, declaration-order enumeration, and error datatypes.
- The panics of `best_hand` (fewer than five cards) and `find_nuts` (fewer than three community cards, or no pair left to try) are modelled as `None`, not as aborts.
