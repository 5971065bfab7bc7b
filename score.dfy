/** Running totals per team across rounds, and the first-to-66 winner rule. */
module Scores {
  import opened Errors
  import opened Variants
  import opened Teams

  /** The total a team has to reach to win. */
  const MaxPoints: int := 66

  /** One entry per team of the variant, every total 0. */
  function ZeroScores(v: Variant): (m: map<Team, int>)
    ensures forall t :: t in m <==> t in AllTeams(v)
    ensures forall t :: t in m ==> m[t] == 0
    ensures |m| == TeamCount(v)
  {
    var m := map t | t in AllTeams(v) :: 0;
    assert m.Keys == set i | 0 <= i < TeamCount(v) :: Team(i, v);
    DistinctTeamCount(v);
    m
  }

  lemma DistinctTeamCount(v: Variant)
    ensures |set i | 0 <= i < TeamCount(v) :: Team(i, v)| == TeamCount(v)
  {
    if v == ThreePlayers {
      assert (set i | 0 <= i < 3 :: Team(i, v)) == {Team(0, v), Team(1, v), Team(2, v)};
    } else {
      assert (set i | 0 <= i < 2 :: Team(i, v)) == {Team(0, v), Team(1, v)};
    }
  }

  class Score {
    var scores: map<Team, int>

    constructor Empty(v: Variant)
      ensures scores == ZeroScores(v)
    {
      scores := ZeroScores(v);
    }

    /** Adds to one team's total; the team must be on the board. */
    method AddPoints(team: Team, points: int)
      requires team in scores
      modifies this
      ensures scores == old(scores)[team := old(scores)[team] + points]
      ensures scores.Keys == old(scores).Keys
    {
      scores := scores[team := scores[team] + points];
    }

    /** A team that has reached 66 with no team ahead of it; None while nobody
        has reached 66. Teams are looked at in no particular order, and a later
        team with an equal total replaces an earlier one. */
    method Winner() returns (winner: Option<Team>)
      ensures winner.None? <==> forall t :: t in scores ==> scores[t] < MaxPoints
      ensures winner.Some? ==> winner.value in scores && scores[winner.value] >= MaxPoints
      ensures winner.Some? ==> forall t :: t in scores ==> scores[t] <= scores[winner.value]
    {
      winner := None;
      var rest := scores.Keys;
      while rest != {}
        invariant rest <= scores.Keys
        invariant winner.None? ==> forall t :: t in scores && t !in rest ==> scores[t] < MaxPoints
        invariant winner.Some? ==> winner.value in scores && scores[winner.value] >= MaxPoints
        invariant winner.Some? ==> forall t :: t in scores && t !in rest ==> scores[t] <= scores[winner.value]
        decreases rest
      {
        var t :| t in rest;
        rest := rest - {t};
        if scores[t] >= MaxPoints && (winner.None? || scores[t] >= scores[winner.value]) {
          winner := Some(t);
        }
      }
    }
  }

  /** A fresh score board has no winner; one team reaching 66 alone makes it the winner. */
  method FirstToReachThreshold() returns (before: Option<Team>, after: Option<Team>)
    ensures before == None
    ensures after == Some(Team(0, ThreePlayers))
  {
    var score := new Score.Empty(ThreePlayers);
    before := score.Winner();
    score.AddPoints(Team(0, ThreePlayers), MaxPoints);
    after := score.Winner();
  }
}
