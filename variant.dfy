/** The two table sizes of the game and the seat arithmetic that depends on them. */
module Variants {

  datatype Variant = ThreePlayers | FourPlayers

  /** Size of the full deck, shared out among the seats. */
  const DeckSize: nat := 24

  function NumberOfPlayers(v: Variant): (n: nat)
    ensures n > 0
  {
    match v
    case ThreePlayers => 3
    case FourPlayers => 4
  }

  function CardsPerPlayer(v: Variant): (k: nat)
    ensures k > 0 && k * NumberOfPlayers(v) <= DeckSize
  {
    DeckSize / NumberOfPlayers(v)
  }

  /** The deck is shared out with nothing left over, in both variants. */
  lemma CardsShareDeckExactly(v: Variant)
    ensures CardsPerPlayer(v) * NumberOfPlayers(v) == DeckSize
    ensures CardsPerPlayer(v) == (if v == ThreePlayers then 8 else 6)
  {
  }

  /** The seat after `player`, wrapping round the table. */
  function NextPlayer(v: Variant, player: nat): (next: nat)
    ensures next < NumberOfPlayers(v)
    ensures player + 1 < NumberOfPlayers(v) ==> next == player + 1
  {
    (player + 1) % NumberOfPlayers(v)
  }

  /** The seat reached after `k` turns starting from `player`. */
  function Advance(v: Variant, player: nat, k: nat): nat {
    if k == 0 then player else NextPlayer(v, Advance(v, player, k - 1))
  }

  /** Adding one after reducing modulo a table size is adding one before it. */
  lemma ModSuccessor(a: nat, n: nat)
    requires n == 3 || n == 4
    ensures (a % n + 1) % n == (a + 1) % n
  {
    if n == 3 {
      var q := a / 3;
      assert a == 3 * q + a % 3;
      if a % 3 == 2 { assert a + 1 == 3 * (q + 1); }
      else { assert a + 1 == 3 * q + (a % 3 + 1); }
    } else {
      var q := a / 4;
      assert a == 4 * q + a % 4;
      if a % 4 == 3 { assert a + 1 == 4 * (q + 1); }
      else { assert a + 1 == 4 * q + (a % 4 + 1); }
    }
  }

  /** k turns from a seat land k seats further on, modulo the table size. */
  lemma {:induction false} AdvanceIsModular(v: Variant, player: nat, k: nat)
    requires player < NumberOfPlayers(v)
    ensures Advance(v, player, k) == (player + k) % NumberOfPlayers(v)
  {
    if k > 0 {
      AdvanceIsModular(v, player, k - 1);
      ModSuccessor(player + k - 1, NumberOfPlayers(v));
    }
  }

  /** A full rotation of the table comes back to the starting seat. */
  lemma FullRotationReturns(v: Variant, player: nat)
    requires player < NumberOfPlayers(v)
    ensures Advance(v, player, NumberOfPlayers(v)) == player
    ensures forall k :: 0 < k < NumberOfPlayers(v) ==> Advance(v, player, k) != player
  {
    var n := NumberOfPlayers(v);
    AdvanceIsModular(v, player, n);
    assert (player + n) % n == player;
    forall k | 0 < k < n ensures Advance(v, player, k) != player {
      AdvanceIsModular(v, player, k);
    }
  }
}
