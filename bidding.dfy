/** The bidding negotiation: a total transition function from (contract, bid,
    seat) to the next contract and seat, the final contract, or a rejection. */
module Bidding {
  import opened Errors
  import opened Cards
  import opened Variants
  import opened Contracts

  datatype Bid = Pass | Raise | Game(gameType: GameType)

  datatype BidResult = Finish(contract: Contract) | Continue(contract: Contract, player: nat)

  /** One bid. Stage one (NonTriumph, four cards in hand): Pass or Raise, the
      seat just before the initial dealer closing the bidding, or an
      AskingAbout bid that hands the same seat stage two. Stage two
      (AskingAbout with multiplier 1): only the dealer may confirm the suit,
      switch to LookingFor of that suit, or switch to Shower. */
  function Bidding(c: Contract, bid: Bid, player: nat, v: Variant, initialDealer: nat): (r: Result<BidResult>)
    ensures r.Err? ==> r.error == InvaildBid
    ensures r.Ok? && r.value.Continue? ==> r.value.player == player || r.value.player == NextPlayer(v, player)
  {
    var next := NextPlayer(v, player);
    match (c.gameType, bid)
    case (NonTriumph, Pass) =>
      if next == initialDealer then Ok(Finish(c)) else Ok(Continue(c, next))
    case (NonTriumph, Raise) =>
      var raised := c.(dealer := player, multiplier := c.multiplier * 2);
      if next == initialDealer then Ok(Finish(raised)) else Ok(Continue(raised, next))
    case (NonTriumph, Game(AskingAbout(t))) =>
      Ok(Continue(Contract(AskingAbout(t), player, 1), player))
    case (AskingAbout(_), Game(AskingAbout(s))) =>
      if c.multiplier == 1 && Triumph(c.gameType) == Some(s) && c.dealer == player
      then Ok(Continue(c, next)) else Err(InvaildBid)
    case (AskingAbout(_), Game(LookingFor(s))) =>
      if c.multiplier == 1 && Triumph(c.gameType) == Some(s) && c.dealer == player
      then Ok(Continue(c.(gameType := LookingFor(s)), next)) else Err(InvaildBid)
    case (AskingAbout(_), Game(Shower)) =>
      if c.multiplier == 1 && c.dealer == player
      then Ok(Continue(c.(gameType := Shower), next)) else Err(InvaildBid)
    case _ => Err(InvaildBid)
  }

  /** Which bids are legal, stated on its own: any Pass, Raise or AskingAbout
      in stage one; in stage two only the dealer's three answers. */
  predicate Legal(c: Contract, bid: Bid, player: nat)
    ensures Legal(c, bid, player) && c.gameType != NonTriumph ==> c.dealer == player && c.multiplier == 1
    ensures c.gameType.LookingFor? || c.gameType == Misery || c.gameType == Shower ==> !Legal(c, bid, player)
  {
    || (c.gameType == NonTriumph && (bid == Pass || bid == Raise || (bid.Game? && bid.gameType.AskingAbout?)))
    || (&& c.gameType.AskingAbout? && c.multiplier == 1 && c.dealer == player
        && bid in {Game(c.gameType), Game(LookingFor(c.gameType.askSuit)), Game(Shower)})
  }

  /** A bid is rejected exactly when it is not legal, and a rejection is always InvaildBid. */
  lemma RejectedExactlyWhenIllegal(c: Contract, bid: Bid, player: nat, v: Variant, initialDealer: nat)
    ensures Bidding(c, bid, player, v, initialDealer).Err? <==> !Legal(c, bid, player)
    ensures Bidding(c, bid, player, v, initialDealer).Err? ==> Bidding(c, bid, player, v, initialDealer).error == InvaildBid
  {
  }

  /** The last bidder of stage one closes the bidding: Pass keeps the contract,
      Raise makes that seat the dealer and doubles the stake. */
  lemma LastBidderFinishes(c: Contract, player: nat, v: Variant, initialDealer: nat)
    requires c.gameType == NonTriumph && NextPlayer(v, player) == initialDealer
    ensures Bidding(c, Pass, player, v, initialDealer) == Ok(Finish(c))
    ensures Bidding(c, Raise, player, v, initialDealer).Ok?
    ensures var r := Bidding(c, Raise, player, v, initialDealer).value;
      r.Finish? && r.contract.gameType == NonTriumph && r.contract.dealer == player
      && r.contract.multiplier == 2 * c.multiplier
  {
  }

  /** Any other stage-one bidder hands over to the next seat. */
  lemma OtherBidderContinues(c: Contract, player: nat, v: Variant, initialDealer: nat)
    requires c.gameType == NonTriumph && NextPlayer(v, player) != initialDealer
    ensures Bidding(c, Pass, player, v, initialDealer) == Ok(Continue(c, NextPlayer(v, player)))
    ensures Bidding(c, Raise, player, v, initialDealer)
      == Ok(Continue(Contract(NonTriumph, player, 2 * c.multiplier), NextPlayer(v, player)))
  {
  }

  /** Asking about a suit in stage one resets the stake and gives the same seat the next bid. */
  lemma AskingAboutStartsStageTwo(c: Contract, t: Suit, player: nat, v: Variant, initialDealer: nat)
    requires c.gameType == NonTriumph
    ensures Bidding(c, Game(AskingAbout(t)), player, v, initialDealer)
      == Ok(Continue(Contract(AskingAbout(t), player, 1), player))
  {
  }

  /** In stage two the dealer's three answers keep dealer and stake, set the game
      type, and pass the turn on. */
  lemma DealerAnswersInStageTwo(s: Suit, dealer: nat, v: Variant, initialDealer: nat)
    ensures var c := Contract(AskingAbout(s), dealer, 1);
      && Bidding(c, Game(AskingAbout(s)), dealer, v, initialDealer) == Ok(Continue(c, NextPlayer(v, dealer)))
      && Bidding(c, Game(LookingFor(s)), dealer, v, initialDealer)
         == Ok(Continue(Contract(LookingFor(s), dealer, 1), NextPlayer(v, dealer)))
      && Bidding(c, Game(Shower), dealer, v, initialDealer)
         == Ok(Continue(Contract(Shower, dealer, 1), NextPlayer(v, dealer)))
  {
  }

  /** Once the game type is LookingFor, Misery or Shower, or the stake of an
      AskingAbout game is not 1, no bid is accepted. */
  lemma SettledContractsRejectEveryBid(c: Contract, bid: Bid, player: nat, v: Variant, initialDealer: nat)
    requires c.gameType.LookingFor? || c.gameType == Misery || c.gameType == Shower
      || (c.gameType.AskingAbout? && c.multiplier != 1)
    ensures Bidding(c, bid, player, v, initialDealer) == Err(InvaildBid)
  {
  }

  /** The stake after a bid is the old one, its double, or 1; a seat handed the
      turn is a valid seat whenever the bidding seat was. */
  lemma BidKeepsStakeAndSeat(c: Contract, bid: Bid, player: nat, v: Variant, initialDealer: nat)
    requires player < NumberOfPlayers(v)
    ensures match Bidding(c, bid, player, v, initialDealer)
      case Ok(r) =>
        && r.contract.multiplier in {c.multiplier, 2 * c.multiplier, 1}
        && (r.Continue? ==> r.player < NumberOfPlayers(v))
      case Err(_) => true
  {
  }

  /** A stake of 1, 2, 4, 8, ... */
  predicate IsPowerOfTwo(m: int)
    decreases if m > 0 then m else 0
  {
    m == 1 || (m > 1 && m % 2 == 0 && IsPowerOfTwo(m / 2))
  }

  /** A bid never takes the stake off the powers of two. */
  lemma StakeStaysPowerOfTwo(c: Contract, bid: Bid, player: nat, v: Variant, initialDealer: nat)
    requires IsPowerOfTwo(c.multiplier)
    ensures Bidding(c, bid, player, v, initialDealer).Ok? ==>
      IsPowerOfTwo(Bidding(c, bid, player, v, initialDealer).value.contract.multiplier)
  {
    var m := c.multiplier;
    assert m >= 1;
    assert 2 * m > 1 && (2 * m) % 2 == 0 && (2 * m) / 2 == m;
    assert IsPowerOfTwo(2 * m);
  }

  // ----- whole negotiations -----

  /** Where a sequence of bids has got to: still running, finished, or rejected. */
  datatype Progress = InProgress(contract: Contract, player: nat) | Finished(final: Contract) | Failed(error: Error)

  /** Feeds the bids one by one to Bidding, starting from `p`. Bids after the
      negotiation has finished or failed are not looked at. */
  function RunBidding(p: Progress, bids: seq<Bid>, v: Variant, initialDealer: nat): (r: Progress)
    ensures !p.InProgress? ==> r == p
    ensures r.Failed? && !p.Failed? ==> r.error == InvaildBid
    ensures bids == [] ==> r == p
    decreases |bids|
  {
    if bids == [] || !p.InProgress? then p
    else
      var after := match Bidding(p.contract, bids[0], p.player, v, initialDealer)
        case Ok(Finish(c)) => Finished(c)
        case Ok(Continue(c, next)) => InProgress(c, next)
        case Err(e) => Failed(e);
      RunBidding(after, bids[1..], v, initialDealer)
  }

  function Repeat(bid: Bid, k: nat): (bids: seq<Bid>)
    ensures |bids| == k && forall i :: 0 <= i < k ==> bids[i] == bid
  {
    if k == 0 then [] else [bid] + Repeat(bid, k - 1)
  }

  function Pow2(k: nat): nat {
    if k == 0 then 1 else 2 * Pow2(k - 1)
  }

  /** The stakes 2^k that repeated raising produces are powers of two in the sense of IsPowerOfTwo. */
  lemma {:induction false} Pow2IsPowerOfTwo(k: nat)
    ensures IsPowerOfTwo(Pow2(k))
  {
    if k > 0 {
      Pow2IsPowerOfTwo(k - 1);
      assert Pow2(k) / 2 == Pow2(k - 1);
    }
  }

  /** The seat `j` places after the initial dealer is the last bidder exactly when j is n - 1. */
  lemma {:induction false} LastBidderIsBeforeDealer(v: Variant, initialDealer: nat, j: nat)
    requires initialDealer < NumberOfPlayers(v) && j < NumberOfPlayers(v)
    ensures NextPlayer(v, Advance(v, initialDealer, j)) == Advance(v, initialDealer, j + 1)
    ensures NextPlayer(v, Advance(v, initialDealer, j)) == initialDealer <==> j + 1 == NumberOfPlayers(v)
  {
    FullRotationReturns(v, initialDealer);
  }

  /** Passing round the rest of the table, from the seat j places after the
      initial dealer, finishes with the contract unchanged. */
  lemma {:induction false} PassesFinish(c: Contract, v: Variant, initialDealer: nat, j: nat, k: nat)
    requires c.gameType == NonTriumph && initialDealer < NumberOfPlayers(v)
    requires k >= 1 && j + k == NumberOfPlayers(v)
    decreases k
    ensures RunBidding(InProgress(c, Advance(v, initialDealer, j)), Repeat(Pass, k), v, initialDealer)
      == Finished(c)
  {
    LastBidderIsBeforeDealer(v, initialDealer, j);
    var bids := Repeat(Pass, k);
    assert bids[1..] == Repeat(Pass, k - 1);
    if k > 1 {
      PassesFinish(c, v, initialDealer, j + 1, k - 1);
    }
  }

  /** Raising round the rest of the table doubles the stake once per seat and
      leaves the last seat as the dealer. */
  lemma {:induction false} RaisesFinish(c: Contract, v: Variant, initialDealer: nat, j: nat, k: nat)
    requires c.gameType == NonTriumph && initialDealer < NumberOfPlayers(v)
    requires k >= 1 && j + k == NumberOfPlayers(v)
    decreases k
    ensures RunBidding(InProgress(c, Advance(v, initialDealer, j)), Repeat(Raise, k), v, initialDealer)
      == Finished(Contract(NonTriumph, Advance(v, initialDealer, NumberOfPlayers(v) - 1), c.multiplier * Pow2(k)))
  {
    LastBidderIsBeforeDealer(v, initialDealer, j);
    var seat := Advance(v, initialDealer, j);
    var raised := c.(dealer := seat, multiplier := c.multiplier * 2);
    var bids := Repeat(Raise, k);
    assert bids[1..] == Repeat(Raise, k - 1);
    DoubledStake(c.multiplier, k);
    if k == 1 {
      assert Bidding(c, Raise, seat, v, initialDealer) == Ok(Finish(raised));
      assert RunBidding(InProgress(c, seat), bids, v, initialDealer)
        == RunBidding(Finished(raised), bids[1..], v, initialDealer);
    } else {
      assert Bidding(c, Raise, seat, v, initialDealer)
        == Ok(Continue(raised, Advance(v, initialDealer, j + 1)));
      assert RunBidding(InProgress(c, seat), bids, v, initialDealer)
        == RunBidding(InProgress(raised, Advance(v, initialDealer, j + 1)), bids[1..], v, initialDealer);
      RaisesFinish(raised, v, initialDealer, j + 1, k - 1);
    }
  }

  lemma DoubledStake(m: int, k: nat)
    requires k >= 1
    ensures m * 2 * Pow2(k - 1) == m * Pow2(k)
  {
    assert Pow2(k) == 2 * Pow2(k - 1);
    assert m * 2 * Pow2(k - 1) == m * (2 * Pow2(k - 1));
  }

  /** Every seat passing, from the initial dealer on, ends the bidding with the
      initial contract, for either table size. */
  lemma AllPassKeepsInitialContract(v: Variant, initialDealer: nat)
    requires initialDealer < NumberOfPlayers(v)
    ensures RunBidding(InProgress(Initial(initialDealer), initialDealer), Repeat(Pass, NumberOfPlayers(v)), v, initialDealer)
      == Finished(Contract(NonTriumph, initialDealer, 1))
  {
    PassesFinish(Initial(initialDealer), v, initialDealer, 0, NumberOfPlayers(v));
  }

  /** Every seat raising ends with stake 2^n and the seat before the initial dealer as dealer. */
  lemma AllRaiseDoublesPerSeat(v: Variant, initialDealer: nat)
    requires initialDealer < NumberOfPlayers(v)
    ensures var n := NumberOfPlayers(v);
      RunBidding(InProgress(Initial(initialDealer), initialDealer), Repeat(Raise, n), v, initialDealer)
      == Finished(Contract(NonTriumph, (initialDealer + n - 1) % n, Pow2(n)))
    ensures IsPowerOfTwo(Pow2(NumberOfPlayers(v)))
  {
    var n := NumberOfPlayers(v);
    RaisesFinish(Initial(initialDealer), v, initialDealer, 0, n);
    AdvanceIsModular(v, initialDealer, n - 1);
    Pow2IsPowerOfTwo(n);
  }

  /** Four seats, dealer 0: four raises end with seat 3 dealing at stake 16. */
  lemma FourRaises()
    ensures RunBidding(InProgress(Initial(0), 0), [Raise, Raise, Raise, Raise], FourPlayers, 0)
      == Finished(Contract(NonTriumph, 3, 16))
  {
    AllRaiseDoublesPerSeat(FourPlayers, 0);
    assert Repeat(Raise, 4) == [Raise, Raise, Raise, Raise];
    assert Pow2(4) == 16;
  }

  /** Three seats, dealer 0: pass, raise, pass ends with seat 1 dealing at stake 2. */
  lemma PassRaisePass()
    ensures RunBidding(InProgress(Initial(0), 0), [Pass, Raise, Pass], ThreePlayers, 0)
      == Finished(Contract(NonTriumph, 1, 2))
  {
    var bids := [Pass, Raise, Pass];
    assert bids[1..] == [Raise, Pass] && bids[1..][1..] == [Pass];
    assert RunBidding(InProgress(Initial(0), 0), bids, ThreePlayers, 0)
      == RunBidding(InProgress(Initial(0), 1), [Raise, Pass], ThreePlayers, 0);
    assert RunBidding(InProgress(Initial(0), 1), [Raise, Pass], ThreePlayers, 0)
      == RunBidding(InProgress(Contract(NonTriumph, 1, 2), 2), [Pass], ThreePlayers, 0);
  }
}
