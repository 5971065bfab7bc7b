/** The negotiated terms of a round: game type, dealer and stake multiplier. */
module Contracts {
  import opened Errors
  import opened Cards
  import opened Variants

  datatype GameType =
    | NonTriumph
    | AskingAbout(askSuit: Suit)
    | LookingFor(lookSuit: Suit)
    | Misery
    | Shower

  /** The trump suit the game type names, if any. */
  function Triumph(g: GameType): (r: Option<Suit>)
    ensures r.Some? <==> g.AskingAbout? || g.LookingFor?
  {
    match g
    case AskingAbout(s) => Some(s)
    case LookingFor(s) => Some(s)
    case _ => None
  }

  /** Only AskingAbout and LookingFor have a trump, and it is the suit they carry. */
  lemma TriumphExactly(g: GameType, s: Suit)
    ensures Triumph(g) == Some(s) <==> g == AskingAbout(s) || g == LookingFor(s)
    ensures Triumph(g).None? <==> g in {NonTriumph, Misery, Shower}
  {
  }

  /** The side that plays for one pot of won cards. */
  datatype Party = Dealers | NonDealers | SinglePlayer(seat: nat)

  datatype Contract = Contract(gameType: GameType, dealer: nat, multiplier: int)

  /** The contract a round starts from. */
  function Initial(dealer: nat): (c: Contract)
    ensures c.gameType == NonTriumph && Triumph(c.gameType).None?
    ensures c.dealer == dealer && c.multiplier == 1
  {
    Contract(NonTriumph, dealer, 1)
  }

  /** The seat opposite the dealer, in the four-seat variant only. */
  function DealersTeammate(c: Contract, v: Variant): (r: Option<nat>)
    ensures r.Some? <==> v == FourPlayers
    ensures r.Some? ==> r.value < NumberOfPlayers(v) && (c.dealer < NumberOfPlayers(v) ==> r.value != c.dealer)
  {
    match v
    case ThreePlayers => None
    case FourPlayers => Some((c.dealer + 2) % 4)
  }

  /** In Misery and Shower the dealer's teammate sits the tricks out. */
  function DealersTeammatePlays(c: Contract): (r: bool)
    ensures c.gameType == NonTriumph || Triumph(c.gameType).Some? ==> r
  {
    !(c.gameType == Misery || c.gameType == Shower)
  }

  /** With four seats the teammate is another valid seat, and the relation is
      symmetric: the teammate's teammate is the dealer. */
  lemma TeammateIsPartner(c: Contract)
    requires c.dealer < NumberOfPlayers(FourPlayers)
    ensures DealersTeammate(c, ThreePlayers).None?
    ensures DealersTeammate(c, FourPlayers).Some?
    ensures var t := DealersTeammate(c, FourPlayers).value;
      && t < NumberOfPlayers(FourPlayers)
      && t != c.dealer
      && DealersTeammate(c.(dealer := t), FourPlayers) == Some(c.dealer)
      && t == Advance(FourPlayers, c.dealer, 2)
  {
    AdvanceIsModular(FourPlayers, c.dealer, 2);
  }
}
