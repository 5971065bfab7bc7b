/** The cards each seat holds, and how they are dealt from a deck. */
module Hands {
  import opened Errors
  import opened Cards
  import opened Variants

  /** How many cards of a hand are shown during the first bidding stage. */
  const FirstHandLen: nat := 4

  datatype Hand = Hand(cards: seq<Card>) {

    /** Every card of the hand, in dealt order. */
    function Full(): (r: seq<Card>)
      ensures |r| == |cards| && forall i :: 0 <= i < |r| ==> r[i] == cards[i]
    {
      cards
    }

    /** The first cards of the hand, at most four of them. */
    function First(): (r: seq<Card>)
      ensures r <= Full()
      ensures |r| == if |Full()| < FirstHandLen then |Full()| else FirstHandLen
    {
      if |cards| < FirstHandLen then cards else cards[..FirstHandLen]
    }
  }

  datatype Hands = Hands(hands: map<nat, Hand>) {

    /** The hand of a seat, or InvaildPlayer for a seat that has none. */
    function HandOf(player: nat): (r: Result<Hand>)
      ensures r.Ok? <==> player in hands
      ensures r.Ok? ==> r.value == hands[player]
      ensures r.Err? ==> r.error == InvaildPlayer
    {
      if player in hands then Ok(hands[player]) else Err(InvaildPlayer)
    }
  }

  /** Deals a deck given in its shuffled order: for each seat in turn the
      deck is cut with `split_off(cards_per_player)`, the seat taking the part
      from that position on and the deck keeping the part before it. So the
      first seat takes everything past the first cards_per_player cards and
      every later seat takes nothing. */
  method Deal(deck: seq<Card>, v: Variant) returns (dealt: Hands)
    requires |deck| >= CardsPerPlayer(v)
    ensures forall p: nat :: p in dealt.hands <==> p < NumberOfPlayers(v)
    ensures dealt.hands[0].cards == deck[CardsPerPlayer(v)..]
    ensures forall p :: 0 < p < NumberOfPlayers(v) ==> dealt.hands[p].cards == []
    ensures forall p, c :: p in dealt.hands && c in dealt.hands[p].cards ==> c in deck
    ensures forall p, q :: p in dealt.hands && q in dealt.hands && p != q ==>
      multiset(dealt.hands[p].cards) !! multiset(dealt.hands[q].cards)
  {
    var cut := CardsPerPlayer(v);
    var rest := deck;
    var hands: map<nat, Hand> := map[];
    for player := 0 to NumberOfPlayers(v)
      invariant forall p: nat :: p in hands <==> p < player
      invariant player == 0 ==> rest == deck
      invariant player > 0 ==> rest == deck[..cut] && hands[0].cards == deck[cut..]
      invariant forall p :: 0 < p < player ==> hands[p].cards == []
    {
      var taken := rest[cut..];
      rest := rest[..cut];
      hands := hands[player := Hand(taken)];
    }
    dealt := Hands(hands);
  }

  /** Dealing the unshuffled deck to three seats: 16, 0 and 0 cards. */
  method DealFullDeckToThree() returns (sizes: seq<nat>)
    ensures sizes == [16, 0, 0]
  {
    DeckIsComplete();
    var dealt := Deal(Deck(), ThreePlayers);
    sizes := [|dealt.hands[0].cards|, |dealt.hands[1].cards|, |dealt.hands[2].cards|];
  }

  /** The evidently intended share of seat p: its own block of cards_per_player
      cards, counted from the end of the deck as repeated cuts from the end give it. */
  function EvenShare(deck: seq<Card>, v: Variant, p: nat): seq<Card>
    requires |deck| == DeckSize && p < NumberOfPlayers(v)
  {
    CardsShareDeckExactly(v);
    var n, k := NumberOfPlayers(v), CardsPerPlayer(v);
    deck[(n - 1 - p) * k..(n - p) * k]
  }

  /** Deals with each cut taken `cards_per_player` from the end of what is left,
      so that every seat receives its share. */
  method DealEvenly(deck: seq<Card>, v: Variant) returns (dealt: Hands)
    requires |deck| == DeckSize
    ensures forall p: nat :: p in dealt.hands <==> p < NumberOfPlayers(v)
    ensures forall p :: 0 <= p < NumberOfPlayers(v) ==> dealt.hands[p].cards == EvenShare(deck, v, p)
  {
    CardsShareDeckExactly(v);
    var n, cut := NumberOfPlayers(v), CardsPerPlayer(v);
    var rest := deck;
    var hands: map<nat, Hand> := map[];
    for player := 0 to n
      invariant forall p: nat :: p in hands <==> p < player
      invariant rest == deck[..(n - player) * cut]
      invariant forall p :: 0 <= p < player ==> hands[p].cards == EvenShare(deck, v, p)
    {
      var taken := rest[|rest| - cut..];
      rest := rest[..|rest| - cut];
      hands := hands[player := Hand(taken)];
    }
    dealt := Hands(hands);
  }

  /** The even shares have cards_per_player cards each, every card of the deck
      is in exactly one share, and shares of a deck without repeats share no card. */
  lemma EvenSharesPartitionDeck(deck: seq<Card>, v: Variant)
    requires |deck| == DeckSize
    ensures forall p :: 0 <= p < NumberOfPlayers(v) ==> |EvenShare(deck, v, p)| == CardsPerPlayer(v)
    ensures forall i :: 0 <= i < |deck| ==> deck[i] in EvenShare(deck, v, ShareOf(v, i))
    ensures (forall i, j :: 0 <= i < j < |deck| ==> deck[i] != deck[j]) ==>
      forall p, q, c :: 0 <= p < q < NumberOfPlayers(v) && c in EvenShare(deck, v, p) ==> c !in EvenShare(deck, v, q)
  {
    CardsShareDeckExactly(v);
    forall i | 0 <= i < |deck| ensures deck[i] in EvenShare(deck, v, ShareOf(v, i)) {
      ShareOfIndex(deck, v, i);
    }
    if forall i, j :: 0 <= i < j < |deck| ==> deck[i] != deck[j] {
      forall p, q, c | 0 <= p < q < NumberOfPlayers(v) && c in EvenShare(deck, v, p)
        ensures c !in EvenShare(deck, v, q)
      {
        SharesDisjoint(deck, v, p, q, c);
      }
    }
  }

  /** The seat whose even share holds position i of the deck. */
  function ShareOf(v: Variant, i: nat): (p: nat)
    requires i < DeckSize
    ensures p < NumberOfPlayers(v)
  {
    NumberOfPlayers(v) - 1 - i / CardsPerPlayer(v)
  }

  lemma ShareOfIndex(deck: seq<Card>, v: Variant, i: nat)
    requires |deck| == DeckSize && i < DeckSize
    ensures deck[i] in EvenShare(deck, v, ShareOf(v, i))
  {
    var n, k := NumberOfPlayers(v), CardsPerPlayer(v);
    var p := ShareOf(v, i);
    if v == ThreePlayers {
      assert k == 8 && n - 1 - p == i / 8;
      assert deck[i] == EvenShare(deck, v, p)[i - (i / 8) * 8];
    } else {
      assert k == 6 && n - 1 - p == i / 6;
      assert deck[i] == EvenShare(deck, v, p)[i - (i / 6) * 6];
    }
  }

  lemma SharesDisjoint(deck: seq<Card>, v: Variant, p: nat, q: nat, c: Card)
    requires |deck| == DeckSize
    requires forall i, j :: 0 <= i < j < |deck| ==> deck[i] != deck[j]
    requires p < q < NumberOfPlayers(v) && c in EvenShare(deck, v, p)
    ensures c !in EvenShare(deck, v, q)
  {
    CardsShareDeckExactly(v);
  }
}
