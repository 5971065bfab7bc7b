/** One trick: who plays next, and the plays made so far. */
module Tables {
  import opened Errors
  import opened Cards
  import opened Variants
  import opened Contracts

  /** A seat that sits this trick out: the dealer's teammate in Misery or Shower. */
  predicate SitsOut(c: Contract, v: Variant, player: nat) {
    DealersTeammate(c, v) == Some(player) && !DealersTeammatePlays(c)
  }

  /** How many cards make a full trick: three in Misery and Shower, else one per seat. */
  function TrickSize(c: Contract, v: Variant): (k: nat)
    ensures 3 <= k <= NumberOfPlayers(v)
  {
    match c.gameType
    case Misery => 3
    case Shower => 3
    case _ => NumberOfPlayers(v)
  }

  /** The seats that take part in tricks under the contract. */
  function PlayingSeats(c: Contract, v: Variant): set<nat> {
    set p: nat | p < NumberOfPlayers(v) && !SitsOut(c, v, p)
  }

  /** A full trick has one card from every seat that takes part. */
  lemma TrickSizeCountsPlayingSeats(c: Contract, v: Variant)
    ensures TrickSize(c, v) == |PlayingSeats(c, v)|
    ensures TrickSize(c, v) <= NumberOfPlayers(v)
  {
    var seats := PlayingSeats(c, v);
    match v
    case ThreePlayers =>
      assert seats == {0, 1, 2};
    case FourPlayers =>
      var t := (c.dealer + 2) % 4;
      if DealersTeammatePlays(c) {
        assert seats == {0, 1, 2, 3};
      } else {
        assert seats == {0, 1, 2, 3} - {t};
        assert |{0, 1, 2, 3} - {t}| == |{0, 1, 2, 3}| - |{t}|;
      }
  }

  /** The seat that plays when `player` is in line: the next seat if `player` sits out. */
  function Turn(c: Contract, v: Variant, player: nat): (r: nat)
    ensures !SitsOut(c, v, r)
    ensures r == player || r == NextPlayer(v, player)
    ensures !SitsOut(c, v, player) ==> r == player
  {
    if SitsOut(c, v, player) then NextPlayer(v, player) else player
  }

  /** The seat making the i-th play (from 0) of a trick led from `first`. */
  function TrickSeat(c: Contract, v: Variant, first: nat, i: nat): (p: nat)
    ensures !SitsOut(c, v, p)
    ensures first < NumberOfPlayers(v) || i > 0 ==> p < NumberOfPlayers(v)
  {
    if i == 0 then Turn(c, v, first) else Turn(c, v, NextPlayer(v, TrickSeat(c, v, first, i - 1)))
  }

  /** When nobody sits out, the i-th play of a trick is made i seats after its leader. */
  lemma {:induction false} TrickSeatWithoutSkip(c: Contract, v: Variant, first: nat, i: nat)
    requires first < NumberOfPlayers(v) && TrickSize(c, v) == NumberOfPlayers(v)
    requires forall p :: !SitsOut(c, v, p)
    ensures TrickSeat(c, v, first, i) == (first + i) % NumberOfPlayers(v)
  {
    if i > 0 {
      TrickSeatWithoutSkip(c, v, first, i - 1);
      AdvanceIsModular(v, first, i - 1);
      AdvanceIsModular(v, first, i);
    }
  }

  /** When the dealer's teammate t sits out, each play moves one seat on, or two to step over t. */
  lemma TrickSeatStep(c: Contract, first: nat, i: nat)
    requires !DealersTeammatePlays(c)
    ensures var t, x := (c.dealer + 2) % 4, TrickSeat(c, FourPlayers, first, i);
      TrickSeat(c, FourPlayers, first, i + 1) == if (x + 1) % 4 == t then (x + 2) % 4 else (x + 1) % 4
  {
  }

  /** With the dealer's teammate sitting out, the three plays of a trick come from three different seats. */
  lemma SkippingTrickSeatsDiffer(c: Contract, first: nat)
    requires first < 4 && !DealersTeammatePlays(c)
    ensures TrickSeat(c, FourPlayers, first, 0) != TrickSeat(c, FourPlayers, first, 1)
    ensures TrickSeat(c, FourPlayers, first, 1) != TrickSeat(c, FourPlayers, first, 2)
    ensures TrickSeat(c, FourPlayers, first, 0) != TrickSeat(c, FourPlayers, first, 2)
  {
    var t := (c.dealer + 2) % 4;
    var s0, s1 := TrickSeat(c, FourPlayers, first, 0), TrickSeat(c, FourPlayers, first, 1);
    TrickSeatStep(c, first, 0);
    TrickSeatStep(c, first, 1);
    assert s0 < 4 && s1 < 4;
    assert !SitsOut(c, FourPlayers, s0) && !SitsOut(c, FourPlayers, s1);
    assert s0 != t && s1 != t;
  }

  /** Every play of a trick led from a valid seat is made by a seat that takes part. */
  lemma TrickSeatsTakePart(c: Contract, v: Variant, first: nat, i: nat)
    requires first < NumberOfPlayers(v)
    ensures TrickSeat(c, v, first, i) in PlayingSeats(c, v)
  {
    var s := TrickSeat(c, v, first, i);
    assert s < NumberOfPlayers(v) && !SitsOut(c, v, s);
  }

  /** When every seat plays, the plays of a trick come from different seats. */
  lemma FullTrickSeatsDiffer(c: Contract, v: Variant, first: nat)
    requires first < NumberOfPlayers(v)
    requires v == ThreePlayers || DealersTeammatePlays(c)
    ensures forall i, j :: 0 <= i < j < NumberOfPlayers(v) ==> TrickSeat(c, v, first, i) != TrickSeat(c, v, first, j)
  {
    var n := NumberOfPlayers(v);
    assert TrickSize(c, v) == n;
    forall i, j | 0 <= i < j < n ensures TrickSeat(c, v, first, i) != TrickSeat(c, v, first, j) {
      TrickSeatWithoutSkip(c, v, first, i);
      TrickSeatWithoutSkip(c, v, first, j);
    }
  }

  /** Seat p makes one of the first k plays of a trick led from `first`. */
  predicate PlaysIn(c: Contract, v: Variant, first: nat, k: nat, p: nat) {
    exists i :: 0 <= i < k && TrickSeat(c, v, first, i) == p
  }

  /** When every seat plays, every seat of the table makes one of the trick's plays. */
  lemma FullTrickCoversSeats(c: Contract, v: Variant, first: nat)
    requires first < NumberOfPlayers(v)
    requires v == ThreePlayers || DealersTeammatePlays(c)
    ensures forall p: nat :: p in PlayingSeats(c, v) ==> PlaysIn(c, v, first, NumberOfPlayers(v), p)
  {
    var n := NumberOfPlayers(v);
    assert TrickSize(c, v) == n;
    forall p: nat | p in PlayingSeats(c, v) ensures PlaysIn(c, v, first, n, p) {
      assert p < n;
      var i := if first <= p then p - first else p + n - first;
      TrickSeatWithoutSkip(c, v, first, i);
      assert first + i == p || first + i == p + n;
      assert (p + n) % n == p by {
        if v == ThreePlayers { assert n == 3; } else { assert n == 4; }
      }
      assert 0 <= i < n && TrickSeat(c, v, first, i) == p;
    }
  }

  /** With the dealer's teammate sitting out, the three plays of a trick come
      from the three other seats. */
  lemma SkippingTrickCoversSeats(c: Contract, first: nat)
    requires first < 4 && !DealersTeammatePlays(c)
    ensures forall p: nat :: p in PlayingSeats(c, FourPlayers) ==>
      p == TrickSeat(c, FourPlayers, first, 0) || p == TrickSeat(c, FourPlayers, first, 1)
      || p == TrickSeat(c, FourPlayers, first, 2)
  {
    SkippingTrickSeatsDiffer(c, first);
    var t := (c.dealer + 2) % 4;
    var s0, s1, s2 := TrickSeat(c, FourPlayers, first, 0), TrickSeat(c, FourPlayers, first, 1),
      TrickSeat(c, FourPlayers, first, 2);
    assert !SitsOut(c, FourPlayers, s0) && !SitsOut(c, FourPlayers, s1) && !SitsOut(c, FourPlayers, s2);
    assert s0 < 4 && s1 < 4 && s2 < 4;
    assert s0 != t && s1 != t && s2 != t;
    forall p: nat | p in PlayingSeats(c, FourPlayers) ensures p == s0 || p == s1 || p == s2 {
      assert p < 4 && !SitsOut(c, FourPlayers, p);
      assert p != t;
    }
  }

  /** In a trick led from a valid seat, the seats that make its plays are
      exactly the seats that take part, and no seat plays twice. */
  lemma EverySeatPlaysOnce(c: Contract, v: Variant, first: nat)
    requires first < NumberOfPlayers(v)
    ensures forall i :: 0 <= i < TrickSize(c, v) ==> TrickSeat(c, v, first, i) in PlayingSeats(c, v)
    ensures forall i, j :: 0 <= i < j < TrickSize(c, v) ==> TrickSeat(c, v, first, i) != TrickSeat(c, v, first, j)
    ensures forall p: nat :: p in PlayingSeats(c, v) ==> PlaysIn(c, v, first, TrickSize(c, v), p)
  {
    forall i | 0 <= i < TrickSize(c, v) ensures TrickSeat(c, v, first, i) in PlayingSeats(c, v) {
      TrickSeatsTakePart(c, v, first, i);
    }
    if v == FourPlayers && !DealersTeammatePlays(c) {
      SkippingTrickSeatsDiffer(c, first);
      SkippingTrickCoversSeats(c, first);
      assert TrickSize(c, v) == 3;
      forall p: nat | p in PlayingSeats(c, v) ensures PlaysIn(c, v, first, 3, p) {
        assert p < 4 && !SitsOut(c, v, p);
        if p == TrickSeat(c, v, first, 0) {
          assert TrickSeat(c, v, first, 0) == p;
        } else if p == TrickSeat(c, v, first, 1) {
          assert TrickSeat(c, v, first, 1) == p;
        } else {
          assert TrickSeat(c, v, first, 2) == p;
        }
      }
    } else {
      FullTrickSeatsDiffer(c, v, first);
      FullTrickCoversSeats(c, v, first);
      assert TrickSize(c, v) == NumberOfPlayers(v);
    }
  }

  class Table {
    const variant: Variant
    const contract: Contract
    const initialPlayer: nat
    var deals: seq<(nat, Card)>

    /** A trick never holds more plays than its size, and its plays were made
        by the trick's seats in order. */
    ghost predicate Valid()
      reads this
    {
      && |deals| <= Size()
      && forall i :: 0 <= i < |deals| ==> deals[i].0 == TrickSeat(contract, variant, initialPlayer, i)
    }

    constructor Empty(variant: Variant, contract: Contract, initialPlayer: nat)
      ensures this.variant == variant && this.contract == contract && this.initialPlayer == initialPlayer
      ensures deals == []
      ensures Valid()
    {
      this.variant := variant;
      this.contract := contract;
      this.initialPlayer := initialPlayer;
      deals := [];
    }

    function Size(): (k: nat)
      reads this
      ensures k == |PlayingSeats(contract, variant)|
    {
      TrickSizeCountsPlayingSeats(contract, variant);
      TrickSize(contract, variant)
    }

    /** The seat in line to play before the sitting-out rule is applied: the
        one after the last play, or the trick's initial seat. */
    function InLine(): (p: nat)
      reads this
      ensures deals == [] ==> p == initialPlayer
      ensures deals != [] ==> p < NumberOfPlayers(variant)
    {
      if deals == [] then initialPlayer else NextPlayer(variant, deals[|deals| - 1].0)
    }

    /** Who plays next: None once the trick is full; otherwise the seat in
        line, moved on by one seat if that seat sits the trick out. */
    function CurrentPlayer(): (r: Option<nat>)
      reads this
      ensures r.None? <==> |deals| == Size()
      ensures r.Some? ==> !SitsOut(contract, variant, r.value)
      ensures r.Some? ==> r.value == InLine() || r.value == NextPlayer(variant, InLine())
      ensures r.Some? && !SitsOut(contract, variant, InLine()) ==> r.value == InLine()
      ensures r.Some? && (deals != [] || initialPlayer < NumberOfPlayers(variant)) ==>
        r.value < NumberOfPlayers(variant)
      ensures r.Some? && Valid() ==> r.value == TrickSeat(contract, variant, initialPlayer, |deals|)
    {
      if Size() == |deals| then None
      else
        var next := InLine();
        if DealersTeammate(contract, variant) == Some(next) && !DealersTeammatePlays(contract)
        then Some(NextPlayer(variant, next))
        else Some(next)
    }

    /** Plays a card for the current seat, or reports FullTable and changes nothing. */
    method PlayCard(card: Card) returns (r: Result<()>)
      requires Valid()
      modifies this
      ensures Valid()
      ensures old(CurrentPlayer()).Some? ==> r.Ok? && deals == old(deals) + [(old(CurrentPlayer()).value, card)]
      ensures old(CurrentPlayer()).None? ==> r == Err(FullTable) && deals == old(deals)
      ensures r.Err? <==> old(|deals|) == Size()
    {
      var player := CurrentPlayer();
      if player.Some? {
        deals := deals + [(player.value, card)];
        r := Ok(());
      } else {
        r := Err(FullTable);
      }
    }
  }

  /** Three seats, NonTriumph, first seat 0: seats 0, 1 and 2 play, then the trick is full. */
  method ThreeSeatTrick(card: Card) returns (seen: seq<Option<nat>>)
    ensures seen == [Some(0), Some(1), Some(2), None]
  {
    var table := new Table.Empty(ThreePlayers, Contract(NonTriumph, 0, 1), 0);
    seen := [table.CurrentPlayer()];
    for i := 0 to 3
      invariant table.Valid() && |table.deals| == i && |seen| == i + 1
      invariant table.variant == ThreePlayers && table.contract == Contract(NonTriumph, 0, 1)
      invariant table.initialPlayer == 0
      invariant forall k :: 0 <= k < i ==> table.deals[k].0 == k
      invariant forall k :: 0 <= k <= i ==> seen[k] == (if k < 3 then Some(k) else None)
    {
      var _ := table.PlayCard(card);
      seen := seen + [table.CurrentPlayer()];
    }
  }

  /** Four seats, NonTriumph, first seat 0: all four seats play in turn. */
  method FourSeatTrick(card: Card) returns (seen: seq<Option<nat>>)
    ensures seen == [Some(0), Some(1), Some(2), Some(3), None]
  {
    var table := new Table.Empty(FourPlayers, Contract(NonTriumph, 0, 1), 0);
    seen := [table.CurrentPlayer()];
    var r := table.PlayCard(card);
    seen := seen + [table.CurrentPlayer()];
    r := table.PlayCard(card);
    seen := seen + [table.CurrentPlayer()];
    r := table.PlayCard(card);
    seen := seen + [table.CurrentPlayer()];
    r := table.PlayCard(card);
    seen := seen + [table.CurrentPlayer()];
  }

  /** Four seats, Misery, dealer 0: the dealer's teammate (seat 2) is skipped
      and the trick is full after three cards. */
  method MiseryTrickSkipsTeammate(card: Card) returns (seen: seq<Option<nat>>)
    ensures seen == [Some(0), Some(1), Some(3), None]
  {
    var table := new Table.Empty(FourPlayers, Contract(Misery, 0, 1), 0);
    seen := [table.CurrentPlayer()];
    var r := table.PlayCard(card);
    seen := seen + [table.CurrentPlayer()];
    r := table.PlayCard(card);
    seen := seen + [table.CurrentPlayer()];
    r := table.PlayCard(card);
    seen := seen + [table.CurrentPlayer()];
  }
}
