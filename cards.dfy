/** Ranks, suits and cards: the 24-card deck, the rank order, the point
    table and the case-insensitive text parsers. */
module Cards {
  import opened Errors
  import opened Text

  /** Declared from lowest to highest: the declaration order is the rank order. */
  datatype Rank = Nine | Jack | Queen | King | Ten | Ace

  datatype Suit = Spade | Club | Diamond | Heart

  datatype Card = Card(rank: Rank, suit: Suit)

  const Ranks: seq<Rank> := [Nine, Jack, Queen, King, Ten, Ace]
  const Suits: seq<Suit> := [Spade, Club, Diamond, Heart]

  /** Position of a rank in the declaration order. */
  function RankIndex(r: Rank): (i: nat)
    ensures i < |Ranks| && Ranks[i] == r
  {
    match r
    case Nine => 0
    case Jack => 1
    case Queen => 2
    case King => 3
    case Ten => 4
    case Ace => 5
  }

  predicate RankLess(a: Rank, b: Rank) {
    RankIndex(a) < RankIndex(b)
  }

  predicate RankAtMost(a: Rank, b: Rank) {
    RankIndex(a) <= RankIndex(b)
  }

  function SuitIndex(s: Suit): (i: nat)
    ensures i < |Suits| && Suits[i] == s
  {
    match s
    case Spade => 0
    case Club => 1
    case Diamond => 2
    case Heart => 3
  }

  /** Nine < Jack < Queen < King < Ten < Ace, and nothing else is below anything. */
  lemma RankOrderIsDeclarationOrder()
    ensures forall i, j :: 0 <= i < j < |Ranks| ==> RankLess(Ranks[i], Ranks[j])
    ensures forall a: Rank, b: Rank :: RankLess(a, b) || a == b || RankLess(b, a)
    ensures forall a: Rank :: !RankLess(a, a)
  {
  }

  // ----- points -----

  function Points(c: Card): (n: nat)
    ensures n <= 11
    ensures n == 0 <==> c.rank == Nine
  {
    match c.rank
    case Nine => 0
    case Jack => 2
    case Queen => 3
    case King => 4
    case Ten => 10
    case Ace => 11
  }

  /** A higher rank is always worth strictly more points. */
  lemma PointsFollowRankOrder(a: Card, b: Card)
    ensures RankLess(a.rank, b.rank) <==> Points(a) < Points(b)
    ensures Card(Ace, Spade) == a ==> Points(a) == 11
  {
  }

  /** Sum of the points of a sequence of cards. */
  function CardPoints(cs: seq<Card>): nat {
    if cs == [] then 0 else Points(cs[0]) + CardPoints(cs[1..])
  }

  lemma {:induction false} CardPointsAppend(a: seq<Card>, b: seq<Card>)
    ensures CardPoints(a + b) == CardPoints(a) + CardPoints(b)
  {
    if a == [] {
      assert a + b == b;
    } else {
      assert (a + b)[1..] == a[1..] + b;
      CardPointsAppend(a[1..], b);
    }
  }

  // ----- the deck -----

  /** The four cards of one rank, in suit order. */
  function RankRow(r: Rank): (row: seq<Card>)
    ensures |row| == 4
    ensures forall c :: c in row <==> c.rank == r
    ensures forall i, j :: 0 <= i < j < |row| ==> row[i] != row[j]
  {
    var row := seq(|Suits|, j requires 0 <= j < |Suits| => Card(r, Suits[j]));
    assert forall c: Card :: c.rank == r ==> row[SuitIndex(c.suit)] == c;
    row
  }

  /** Rank-major enumeration: every suit of the first rank, then of the next. */
  function DeckOf(rs: seq<Rank>): seq<Card> {
    if rs == [] then [] else RankRow(rs[0]) + DeckOf(rs[1..])
  }

  function Deck(): (d: seq<Card>)
    ensures |d| == 24
    ensures forall i :: 0 <= i < |Ranks| ==> d[4 * i] == Card(Ranks[i], Spade)
  {
    DeckOfIndex(Ranks);
    DeckOf(Ranks)
  }

  lemma {:induction false} DeckOfIndex(rs: seq<Rank>)
    ensures |DeckOf(rs)| == 4 * |rs|
    ensures forall i, j :: 0 <= i < |rs| && 0 <= j < 4 ==> DeckOf(rs)[4 * i + j] == Card(rs[i], Suits[j])
  {
    if rs != [] {
      DeckOfIndex(rs[1..]);
      forall i, j | 0 <= i < |rs| && 0 <= j < 4
        ensures DeckOf(rs)[4 * i + j] == Card(rs[i], Suits[j])
      {
        if i > 0 {
          assert 4 * i + j == 4 + (4 * (i - 1) + j);
          assert rs[1..][i - 1] == rs[i];
        }
      }
    }
  }

  /** Position of a card in the deck. */
  function DeckPosition(c: Card): nat {
    4 * RankIndex(c.rank) + SuitIndex(c.suit)
  }

  /** Every deck index is the position of the card found there. */
  lemma DeckPositionsAreIndices()
    ensures |Deck()| == 24
    ensures forall i :: 0 <= i < 24 ==> DeckPosition(Deck()[i]) == i
  {
    DeckOfIndex(Ranks);
    forall i | 0 <= i < 24 ensures DeckPosition(Deck()[i]) == i {
      var q, m := i / 4, i % 4;
      assert i == 4 * q + m;
      assert Deck()[4 * q + m] == Card(Ranks[q], Suits[m]);
      assert RankIndex(Ranks[q]) == q;
      assert SuitIndex(Suits[m]) == m;
    }
  }

  /** The deck has 24 cards, one of every (rank, suit) pair, no card twice. */
  lemma DeckIsComplete()
    ensures |Deck()| == 24
    ensures forall c: Card :: DeckPosition(c) < 24 && Deck()[DeckPosition(c)] == c
    ensures forall i, j :: 0 <= i < j < |Deck()| ==> Deck()[i] != Deck()[j]
  {
    DeckOfIndex(Ranks);
    DeckPositionsAreIndices();
    forall c: Card ensures DeckPosition(c) < 24 && Deck()[DeckPosition(c)] == c {
      var i, j := RankIndex(c.rank), SuitIndex(c.suit);
      assert Deck()[4 * i + j] == Card(Ranks[i], Suits[j]);
    }
    forall i, j | 0 <= i < j < |Deck()| ensures Deck()[i] != Deck()[j] {
      assert DeckPosition(Deck()[i]) != DeckPosition(Deck()[j]);
    }
  }

  lemma {:induction false} DeckOfPoints(rs: seq<Rank>)
    ensures CardPoints(DeckOf(rs)) == 4 * RankSum(rs)
  {
    if rs != [] {
      DeckOfPoints(rs[1..]);
      CardPointsAppend(RankRow(rs[0]), DeckOf(rs[1..]));
      RankRowPoints(rs[0]);
    }
  }

  lemma RankRowPoints(r: Rank)
    ensures CardPoints(RankRow(r)) == 4 * Points(Card(r, Spade))
  {
    var row := RankRow(r);
    assert row[1..][1..][1..][1..] == [];
    calc {
      CardPoints(row);
      Points(row[0]) + CardPoints(row[1..]);
      Points(row[0]) + Points(row[1]) + CardPoints(row[1..][1..]);
      Points(row[0]) + Points(row[1]) + Points(row[2]) + CardPoints(row[1..][1..][1..]);
      Points(row[0]) + Points(row[1]) + Points(row[2]) + Points(row[3]);
    }
  }

  function RankSum(rs: seq<Rank>): nat {
    if rs == [] then 0 else Points(Card(rs[0], Spade)) + RankSum(rs[1..])
  }

  /** The whole deck is worth 120 points. */
  lemma DeckIsWorth120()
    ensures CardPoints(Deck()) == 120
  {
    DeckOfPoints(Ranks);
  }

  // ----- text -----

  /** The text a rank is displayed as. */
  function RankText(r: Rank): string {
    match r
    case Nine => "9"
    case Jack => "J"
    case Queen => "Q"
    case King => "K"
    case Ten => "10"
    case Ace => "A"
  }

  /** The symbol a suit is displayed as. */
  function SuitSymbol(s: Suit): string {
    match s
    case Spade => "\U{2660}"
    case Club => "\U{2663}"
    case Heart => "\U{2665}"
    case Diamond => "\U{2666}"
  }

  function ParseRank(s: string): (r: Result<Rank>)
    ensures r.Err? ==> r.error == RankParseError
    ensures r.Ok? ==> Lower(s) in RankAliases(r.value)
  {
    var t := Lower(s);
    if t == "9" then Ok(Nine)
    else if t == "1" || t == "10" then Ok(Ten)
    else if t == "j" || t == "jack" then Ok(Jack)
    else if t == "q" || t == "queen" then Ok(Queen)
    else if t == "k" || t == "king" then Ok(King)
    else if t == "a" || t == "ace" then Ok(Ace)
    else Err(RankParseError)
  }

  function ParseSuit(s: string): (r: Result<Suit>)
    ensures r.Err? ==> r.error == SuitParseError
    ensures r.Ok? ==> Lower(s) in SuitAliases(r.value)
  {
    var t := Lower(s);
    if t == "\U{2660}" || t == "spade" || t == "spades" || t == "s" then Ok(Spade)
    else if t == "\U{2663}" || t == "club" || t == "clubs" || t == "c" then Ok(Club)
    else if t == "\U{2665}" || t == "heart" || t == "hearts" || t == "h" then Ok(Heart)
    else if t == "\U{2666}" || t == "diamond" || t == "diamonds" || t == "d" then Ok(Diamond)
    else Err(SuitParseError)
  }

  /** A card is a rank token and a suit token separated by exactly one space. */
  function ParseCard(s: string): (r: Result<Card>)
    ensures r.Err? ==> r.error in {InvaildPlayer, RankParseError, SuitParseError}
    ensures r.Ok? ==> |Split(s, ' ')| == 2 && Lower(Split(s, ' ')[0]) in RankAliases(r.value.rank)
  {
    var parts := Split(s, ' ');
    if |parts| == 2 then
      match ParseRank(parts[0])
      case Err(e) => Err(e)
      case Ok(rank) =>
        match ParseSuit(parts[1])
        case Err(e) => Err(e)
        case Ok(suit) => Ok(Card(rank, suit))
    else
      Err(InvaildPlayer)
  }

  /** Lower-case spellings accepted for each rank. */
  function RankAliases(r: Rank): set<string> {
    match r
    case Nine => {"9"}
    case Jack => {"j", "jack"}
    case Queen => {"q", "queen"}
    case King => {"k", "king"}
    case Ten => {"1", "10"}
    case Ace => {"a", "ace"}
  }

  /** Lower-case spellings accepted for each suit: symbol, singular, plural, initial. */
  function SuitAliases(s: Suit): set<string> {
    match s
    case Spade => {"\U{2660}", "spade", "spades", "s"}
    case Club => {"\U{2663}", "club", "clubs", "c"}
    case Heart => {"\U{2665}", "heart", "hearts", "h"}
    case Diamond => {"\U{2666}", "diamond", "diamonds", "d"}
  }

  /** A token names rank r exactly when its lower-cased form is one of r's
      spellings; a token that names no rank is a RankParseError. */
  lemma ParseRankAcceptsExactlyAliases(s: string)
    ensures forall r :: ParseRank(s) == Ok(r) <==> Lower(s) in RankAliases(r)
    ensures ParseRank(s).Err? <==> forall r :: Lower(s) !in RankAliases(r)
    ensures ParseRank(s).Err? ==> ParseRank(s).error == RankParseError
  {
  }

  lemma ParseSuitAcceptsExactlyAliases(s: string)
    ensures forall t :: ParseSuit(s) == Ok(t) <==> Lower(s) in SuitAliases(t)
    ensures ParseSuit(s).Err? <==> forall t :: Lower(s) !in SuitAliases(t)
    ensures ParseSuit(s).Err? ==> ParseSuit(s).error == SuitParseError
  {
  }

  /** Parsing ignores letter case. */
  lemma ParsingIgnoresCase(s: string)
    ensures ParseRank(s) == ParseRank(Lower(s))
    ensures ParseSuit(s) == ParseSuit(Lower(s))
  {
    LowerIdempotent(s);
  }

  /** The displayed text of a rank, and of a suit, parses back to it. */
  lemma DisplayedTextParsesBack(r: Rank, t: Suit)
    ensures ParseRank(RankText(r)) == Ok(r)
    ensures ParseSuit(SuitSymbol(t)) == Ok(t)
  {
    LowerIs(SuitSymbol(t), SuitSymbol(t));
    match r
    case Nine => LowerIs("9", "9");
    case Jack => LowerIs("J", "j");
    case Queen => LowerIs("Q", "q");
    case King => LowerIs("K", "k");
    case Ten => LowerIs("10", "10");
    case Ace => LowerIs("A", "a");
  }

  /** Text with other than exactly one space is rejected as InvaildPlayer; with
      exactly one space it is never that error. */
  lemma ParseCardNeedsOneSpace(s: string)
    ensures ParseCard(s) == Err(InvaildPlayer) <==> Count(s, ' ') != 1
  {
    SplitCount(s, ' ');
  }

  /** Two space-free tokens joined by a space parse to the card they name, and
      the first failing token decides the error. */
  lemma ParseCardOfTokens(a: string, b: string)
    requires ' ' !in a && ' ' !in b
    ensures ParseCard(a + " " + b).Ok? <==> ParseRank(a).Ok? && ParseSuit(b).Ok?
    ensures ParseCard(a + " " + b).Ok? ==>
      ParseCard(a + " " + b).value == Card(ParseRank(a).value, ParseSuit(b).value)
    ensures ParseRank(a).Err? ==> ParseCard(a + " " + b) == Err(RankParseError)
    ensures ParseRank(a).Ok? && ParseSuit(b).Err? ==> ParseCard(a + " " + b) == Err(SuitParseError)
  {
    SplitPair(a, b, ' ');
    assert a + " " + b == a + [' '] + b;
  }

  /** The three spellings of the Ace of Spades the game accepts. */
  lemma AceOfSpadesParses()
    ensures ParseCard("a s") == Ok(Card(Ace, Spade))
    ensures ParseCard("A spade") == Ok(Card(Ace, Spade))
    ensures ParseCard("aCe sPaDeS") == Ok(Card(Ace, Spade))
  {
    AceOfSpadesShort();
    AceOfSpadesSingular();
    AceOfSpadesMixedCase();
  }

  lemma AceOfSpadesShort()
    ensures ParseCard("a s") == Ok(Card(Ace, Spade))
  {
    LowerIs("a", "a");
    LowerIs("s", "s");
    assert ParseRank("a") == Ok(Ace) && ParseSuit("s") == Ok(Spade);
    ParseCardOfTokens("a", "s");
    assert "a" + " " + "s" == "a s";
  }

  lemma AceOfSpadesSingular()
    ensures ParseCard("A spade") == Ok(Card(Ace, Spade))
  {
    LowerIs("A", "a");
    LowerIs("spade", "spade");
    assert ParseRank("A") == Ok(Ace) && ParseSuit("spade") == Ok(Spade);
    ParseCardOfTokens("A", "spade");
    assert "A" + " " + "spade" == "A spade";
  }

  lemma AceOfSpadesMixedCase()
    ensures ParseCard("aCe sPaDeS") == Ok(Card(Ace, Spade))
  {
    LowerIs("aCe", "ace");
    LowerIs("sPaDeS", "spades");
    assert ParseRank("aCe") == Ok(Ace) && ParseSuit("sPaDeS") == Ok(Spade);
    ParseCardOfTokens("aCe", "sPaDeS");
    assert "aCe" + " " + "sPaDeS" == "aCe sPaDeS";
  }

  /** A card's rank text and suit symbol, separated by a space, parse back to the card. */
  lemma CardTextParsesBack(c: Card)
    ensures ParseCard(RankText(c.rank) + " " + SuitSymbol(c.suit)) == Ok(c)
  {
    DisplayedTextParsesBack(c.rank, c.suit);
    ParseCardOfTokens(RankText(c.rank), SuitSymbol(c.suit));
  }
}
