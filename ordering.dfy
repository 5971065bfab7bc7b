/** Comparing cards within one suit. */
module Ordering {
  import opened Errors
  import opened Cards

  /** The highest-ranked card of `suit` among `cards`, None if the suit is
      absent. Cards are scanned in order and a later card of equal rank
      replaces an earlier one. */
  function GreatestCardInSuit(cards: seq<Card>, suit: Suit): (r: Option<Card>)
    ensures r.None? <==> forall c :: c in cards ==> c.suit != suit
    ensures r.Some? ==> r.value in cards && r.value.suit == suit
    ensures r.Some? ==> forall c :: c in cards && c.suit == suit ==> RankAtMost(c.rank, r.value.rank)
  {
    if cards == [] then None
    else
      var last := cards[|cards| - 1];
      var best := GreatestCardInSuit(cards[..|cards| - 1], suit);
      assert cards == cards[..|cards| - 1] + [last];
      if last.suit != suit then best
      else if best.None? || RankAtMost(best.value.rank, last.rank) then Some(last)
      else best
  }

  /** The cards of one suit, in their original order. */
  function OfSuit(cards: seq<Card>, suit: Suit): (r: seq<Card>)
    ensures forall c :: c in r <==> c in cards && c.suit == suit
  {
    if cards == [] then []
    else (if cards[0].suit == suit then [cards[0]] else []) + OfSuit(cards[1..], suit)
  }

  /** Cards of other suits never change the result. */
  lemma {:induction false} OtherSuitsDoNotMatter(cards: seq<Card>, suit: Suit)
    ensures GreatestCardInSuit(cards, suit) == GreatestCardInSuit(OfSuit(cards, suit), suit)
  {
    var g := GreatestCardInSuit(cards, suit);
    var h := GreatestCardInSuit(OfSuit(cards, suit), suit);
    if g.Some? && h.Some? {
      // both are the unique card of this suit with the greatest rank present
      assert RankAtMost(g.value.rank, h.value.rank) && RankAtMost(h.value.rank, g.value.rank);
      assert g.value.rank == h.value.rank;
    }
  }
}
