/** The teams that keep a running score across rounds, and their seats. */
module Teams {
  import opened Variants

  datatype Team = Team(id: nat, variant: Variant)

  function TeamCount(v: Variant): nat {
    match v
    case ThreePlayers => 3
    case FourPlayers => 2
  }

  /** The teams of a variant, numbered from 0. */
  function AllTeams(v: Variant): (ts: seq<Team>)
    ensures |ts| == TeamCount(v)
    ensures forall i :: 0 <= i < |ts| ==> ts[i] == Team(i, v)
  {
    seq(TeamCount(v), i requires 0 <= i < TeamCount(v) => Team(i, v))
  }

  /** A team that exists in its own variant. */
  predicate ValidTeam(t: Team) {
    t.id < TeamCount(t.variant)
  }

  /** The seats of a team: each seat alone with three seats, opposite seats together with four. */
  function Players(t: Team): (ps: seq<nat>)
    requires ValidTeam(t)
    ensures |ps| == NumberOfPlayers(t.variant) / TeamCount(t.variant)
    ensures forall i :: 0 <= i < |ps| ==> ps[i] < NumberOfPlayers(t.variant) && TeamOf(t.variant, ps[i]) == t
  {
    match t
    case Team(id, ThreePlayers) => [id]
    case Team(0, FourPlayers) => [0, 2]
    case Team(1, FourPlayers) => [1, 3]
  }

  /** The team a seat plays for: its own with three seats, the seat's parity with four. */
  function TeamOf(v: Variant, seat: nat): (t: Team)
    requires seat < NumberOfPlayers(v)
    ensures ValidTeam(t) && t.variant == v
  {
    match v
    case ThreePlayers => Team(seat, v)
    case FourPlayers => Team(seat % 2, v)
  }

  /** The teams of a variant split its seats: every team listed is valid, and
      a seat belongs to a team exactly when that team is the seat's team, so
      each seat is in exactly one team and no team holds a seat outside the table. */
  lemma TeamsPartitionSeats(v: Variant)
    ensures forall t :: t in AllTeams(v) <==> ValidTeam(t) && t.variant == v
    ensures forall t, seat: nat :: t in AllTeams(v) && seat in Players(t) ==> seat < NumberOfPlayers(v)
    ensures forall t, seat: nat :: t in AllTeams(v) && seat < NumberOfPlayers(v) ==>
      (seat in Players(t) <==> t == TeamOf(v, seat))
  {
    forall t | ValidTeam(t) && t.variant == v ensures t in AllTeams(v) {
      assert AllTeams(v)[t.id] == t;
    }
    forall t, seat: nat | t in AllTeams(v) && seat < NumberOfPlayers(v)
      ensures seat in Players(t) <==> t == TeamOf(v, seat)
    {
      assert ValidTeam(t);
      if v == FourPlayers {
        assert t.id == 0 || t.id == 1;
      }
    }
  }

  /** The seat lists as the game gives them. */
  lemma TeamSeats()
    ensures Players(Team(0, ThreePlayers)) == [0]
    ensures Players(Team(1, ThreePlayers)) == [1]
    ensures Players(Team(2, ThreePlayers)) == [2]
    ensures Players(Team(0, FourPlayers)) == [0, 2]
    ensures Players(Team(1, FourPlayers)) == [1, 3]
  {
  }
}
