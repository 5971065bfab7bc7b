/** What each party has won during a round: the cards of its tricks and the
    marriages it declared, with the points they are worth. */
module Stashing {
  import opened Errors
  import opened Cards
  import opened Contracts

  const DeclarationPoints: nat := 20
  const TriumphDeclarationPoints: nat := 40

  /** A declaration is worth 40 in the trump suit and 20 in any other. */
  function DeclarationValue(suit: Suit, triumph: Option<Suit>): nat {
    if Some(suit) == triumph then TriumphDeclarationPoints else DeclarationPoints
  }

  function DeclarationsValue(ds: seq<Suit>, triumph: Option<Suit>): nat {
    if ds == [] then 0 else DeclarationValue(ds[0], triumph) + DeclarationsValue(ds[1..], triumph)
  }

  /** How many declarations are in the given suit. */
  function CountSuit(ds: seq<Suit>, suit: Suit): (n: nat)
    ensures n <= |ds|
  {
    if ds == [] then 0 else (if ds[0] == suit then 1 else 0) + CountSuit(ds[1..], suit)
  }

  /** 40 for each declaration in the trump suit and 20 for each other one. */
  lemma {:induction false} DeclarationsValueByCount(ds: seq<Suit>, triumph: Option<Suit>)
    ensures triumph.None? ==> DeclarationsValue(ds, triumph) == 20 * |ds|
    ensures triumph.Some? ==>
      DeclarationsValue(ds, triumph) == 40 * CountSuit(ds, triumph.value) + 20 * (|ds| - CountSuit(ds, triumph.value))
  {
    if ds != [] {
      DeclarationsValueByCount(ds[1..], triumph);
    }
  }

  lemma {:induction false} DeclarationsValueAppend(ds: seq<Suit>, suit: Suit, triumph: Option<Suit>)
    ensures DeclarationsValue(ds + [suit], triumph) == DeclarationsValue(ds, triumph) + DeclarationValue(suit, triumph)
  {
    if ds == [] {
      assert ds + [suit] == [suit];
    } else {
      assert (ds + [suit])[1..] == ds[1..] + [suit];
      DeclarationsValueAppend(ds[1..], suit, triumph);
    }
  }

  /** What a stash holding these cards and declarations is worth. */
  function StashValue(cards: seq<Card>, declarations: seq<Suit>, triumph: Option<Suit>): (n: nat)
    ensures CardPoints(cards) + 20 * |declarations| <= n <= CardPoints(cards) + 40 * |declarations|
  {
    DeclarationsValueByCount(declarations, triumph);
    DeclarationsValue(declarations, triumph) + CardPoints(cards)
  }

  class Stash {
    var cards: seq<Card>
    var declarations: seq<Suit>

    constructor Empty()
      ensures cards == [] && declarations == []
      ensures forall triumph :: Points(triumph) == 0
    {
      cards, declarations := [], [];
    }

    /** The card points won plus the declaration bonuses, given the trump suit. */
    function Points(triumph: Option<Suit>): (n: nat)
      reads this
      ensures n >= CardPoints(cards)
      ensures declarations == [] ==> n == CardPoints(cards)
    {
      StashValue(cards, declarations, triumph)
    }

    method Declare(suit: Suit)
      modifies this
      ensures declarations == old(declarations) + [suit]
      ensures cards == old(cards)
      ensures forall triumph ::
        Points(triumph) == StashValue(old(cards), old(declarations), triumph) + DeclarationValue(suit, triumph)
    {
      declarations := declarations + [suit];
      forall triumph
        ensures Points(triumph) == StashValue(old(cards), old(declarations), triumph) + DeclarationValue(suit, triumph)
      {
        DeclarationsValueAppend(old(declarations), suit, triumph);
      }
    }

    /** Adds won cards one by one, in the order given. */
    method AddCards(won: seq<Card>)
      modifies this
      ensures cards == old(cards) + won
      ensures declarations == old(declarations)
      ensures forall triumph :: Points(triumph) == StashValue(old(cards), old(declarations), triumph) + CardPoints(won)
    {
      for i := 0 to |won|
        invariant cards == old(cards) + won[..i]
        invariant declarations == old(declarations)
      {
        cards := cards + [won[i]];
        assert won[..i + 1] == won[..i] + [won[i]];
      }
      assert won[..|won|] == won;
      CardPointsAppend(old(cards), won);
    }
  }

  /** The points formula, stated per declaration: card points, plus 40 for every
      declaration in the trump suit and 20 for every other one. */
  lemma StashPoints(stash: Stash, triumph: Option<Suit>)
    ensures triumph.None? ==> stash.Points(triumph) == CardPoints(stash.cards) + 20 * |stash.declarations|
    ensures triumph.Some? ==>
      stash.Points(triumph) == CardPoints(stash.cards)
        + 40 * CountSuit(stash.declarations, triumph.value)
        + 20 * (|stash.declarations| - CountSuit(stash.declarations, triumph.value))
  {
    DeclarationsValueByCount(stash.declarations, triumph);
  }

  /** One stash per party of the round. */
  class Stashes {
    /** The map itself is never replaced; only the stashes in it change. */
    const entries: map<Party, Stash>

    /** One new stash per party; no two parties share a stash object. */
    constructor Empty(parties: seq<Party>)
      ensures forall p, q :: p in entries && q in entries && p != q ==> entries[p] != entries[q]
      ensures forall p :: p in entries <==> p in parties
      ensures forall p :: p in entries ==> fresh(entries[p])
      ensures forall p :: p in entries ==> entries[p].cards == [] && entries[p].declarations == []
    {
      var m: map<Party, Stash> := map[];
      for i := 0 to |parties|
        invariant forall p :: p in m <==> p in parties[..i]
        invariant forall p :: p in m ==> fresh(m[p])
        invariant forall p :: p in m ==> m[p].cards == [] && m[p].declarations == []
        invariant forall p, q :: p in m && q in m && p != q ==> m[p] != m[q]
      {
        var stash := new Stash.Empty();
        m := m[parties[i] := stash];
        assert parties[..i + 1] == parties[..i] + [parties[i]];
      }
      assert parties[..|parties|] == parties;
      entries := m;
    }

    /** The stash of a party, or InvaildParty. */
    method GetStash(party: Party) returns (r: Result<Stash>)
      ensures r.Ok? <==> party in entries
      ensures r.Ok? ==> r.value == entries[party]
      ensures r.Err? ==> r.error == InvaildParty
    {
      if party in entries {
        r := Ok(entries[party]);
      } else {
        r := Err(InvaildParty);
      }
    }

    /** The stash of a party, handed out for updating, or InvaildPlayer. */
    method StashMut(party: Party) returns (r: Result<Stash>)
      ensures r.Ok? <==> party in entries
      ensures r.Ok? ==> r.value == entries[party]
      ensures r.Err? ==> r.error == InvaildPlayer
    {
      if party in entries {
        r := Ok(entries[party]);
      } else {
        r := Err(InvaildPlayer);
      }
    }
  }
}
