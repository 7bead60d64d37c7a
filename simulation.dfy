/** `simulateMatch` of utils/tournamentLogic.ts: a best-of-3 series between
    two computer teams, decided by their strength difference and by the
    `Math.random()` draws, given here as `rolls` (one per game played) and
    `tie` (the knockout tie-break). */
module Simulation {
  import opened Types
  import opened Tournament
  import opened Knockout

  /** One game: the roll, shifted by five per point of strength difference,
      above 60 is a win for side A, below 40 a win for side B, and anything
      between a drawn game. */
  function Game(diff: int, roll: real, w: (nat, nat)): (nat, nat) {
    var x := roll * 100.0 + (diff * 5) as real;
    if x > 60.0 then (w.0 + 1, w.1) else if x < 40.0 then (w.0, w.1 + 1) else w
  }

  /** The wins after the first `games` passes of the loop: once a side has
      two wins the loop has stopped. */
  function Series(diff: int, rolls: seq<real>, games: nat): (nat, nat)
    requires games <= |rolls|
  {
    if games == 0 then (0, 0)
    else
      var w := Series(diff, rolls, games - 1);
      if w.0 == 2 || w.1 == 2 then w else Game(diff, rolls[games - 1], w)
  }

  /** The knockout tie-break: from round 2 on a level score gets one more
      win, for side A when the draw exceeds 0.5. */
  function TieBreak(round: int, w: (nat, nat), tie: real): (nat, nat) {
    if round >= 2 && w.0 == w.1 then (if tie > 0.5 then (w.0 + 1, w.1) else (w.0, w.1 + 1)) else w
  }

  /** The played match `simulateMatch` returns; it throws when either team
      is missing (`teamA.strength` of `undefined`). */
  function Simulated(m: Match, teams: seq<Team>, rolls: seq<real>, tie: real): Result<Match>
    requires |rolls| >= 3
  {
    match (FindTeam(teams, m.teamAId), FindTeam(teams, m.teamBId))
    case (Some(a), Some(b)) =>
      var w := TieBreak(m.round, Series(a.strength - b.strength, rolls, 3), tie);
      Ok(m.(scoreA := Some(w.0), scoreB := Some(w.1), isPlayed := true))
    case _ => Throws
  }

  /** A stopped series stays stopped. */
  lemma {:induction false} SeriesStops(diff: int, rolls: seq<real>, games: nat, later: nat)
    requires games <= later <= |rolls|
    requires Series(diff, rolls, games).0 == 2 || Series(diff, rolls, games).1 == 2
    ensures Series(diff, rolls, later) == Series(diff, rolls, games)
    decreases later - games
  {
    if games < later {
      SeriesStops(diff, rolls, games, later - 1);
    }
  }

  method SimulateMatch(m: Match, teams: seq<Team>, rolls: seq<real>, tie: real) returns (r: Result<Match>)
    requires |rolls| >= 3
    ensures r == Simulated(m, teams, rolls, tie)
  {
    var teamA := FindTeam(teams, m.teamAId);
    var teamB := FindTeam(teams, m.teamBId);
    if teamA.None? || teamB.None? {
      return Throws;
    }
    var diff := teamA.value.strength - teamB.value.strength;
    var winsA, winsB := 0, 0;
    var game := 0;
    while game < 3
      invariant 0 <= game <= 3 && (winsA, winsB) == Series(diff, rolls, game)
    {
      if winsA == 2 || winsB == 2 {
        SeriesStops(diff, rolls, game, 3);
        break;
      }
      var roll := rolls[game] * 100.0 + (diff * 5) as real;
      if roll > 60.0 {
        winsA := winsA + 1;
      } else if roll < 40.0 {
        winsB := winsB + 1;
      }
      game := game + 1;
    }
    if m.round >= 2 && winsA == winsB {
      if tie > 0.5 {
        winsA := winsA + 1;
      } else {
        winsB := winsB + 1;
      }
    }
    r := Ok(m.(scoreA := Some(winsA), scoreB := Some(winsB), isPlayed := true));
  }

  // Properties

  /** Neither side passes two wins, both never reach two, and every win
      took a game. */
  lemma {:induction false} SeriesBounds(diff: int, rolls: seq<real>, games: nat)
    requires games <= |rolls|
    ensures var w := Series(diff, rolls, games);
      w.0 <= 2 && w.1 <= 2 && !(w.0 == 2 && w.1 == 2) && w.0 + w.1 <= games
    decreases games
  {
    if games > 0 {
      SeriesBounds(diff, rolls, games - 1);
    }
  }

  /** A larger strength difference never gives side A fewer wins or side B
      more, for the same draws. */
  lemma {:induction false} SeriesMonotone(d1: int, d2: int, rolls: seq<real>, games: nat)
    requires d1 <= d2 && games <= |rolls|
    ensures Series(d1, rolls, games).0 <= Series(d2, rolls, games).0
    ensures Series(d1, rolls, games).1 >= Series(d2, rolls, games).1
    decreases games
  {
    if games > 0 {
      SeriesMonotone(d1, d2, rolls, games - 1);
      SeriesBounds(d1, rolls, games - 1);
      SeriesBounds(d2, rolls, games - 1);
    }
  }

  /** `simulateMatch` throws exactly when a team is missing; otherwise it
      returns the match with both scores set and `isPlayed` true, every
      other field unchanged, each side with at most two wins, not both with
      two, and no draw from round 2 on. */
  lemma SimulatedOutcome(m: Match, teams: seq<Team>, rolls: seq<real>, tie: real)
    requires |rolls| >= 3
    ensures Simulated(m, teams, rolls, tie).Throws? <==> FindTeam(teams, m.teamAId).None? || FindTeam(teams, m.teamBId).None?
    ensures Simulated(m, teams, rolls, tie).Ok? ==>
      exists a: nat, b: nat | a <= 2 && b <= 2 && !(a == 2 && b == 2) && (m.round >= 2 ==> a != b) ::
        Simulated(m, teams, rolls, tie).value == m.(scoreA := Some(a), scoreB := Some(b), isPlayed := true)
  {
    var ta, tb := FindTeam(teams, m.teamAId), FindTeam(teams, m.teamBId);
    if ta.Some? && tb.Some? {
      SeriesBounds(ta.value.strength - tb.value.strength, rolls, 3);
    }
  }

  /** A simulated knockout match has a winner: the side with more wins. */
  lemma KnockoutDecided(m: Match, teams: seq<Team>, rolls: seq<real>, tie: real)
    requires |rolls| >= 3 && m.round >= 2 && Simulated(m, teams, rolls, tie).Ok?
    ensures var p := Simulated(m, teams, rolls, tie).value;
      p.scoreA.Some? && p.scoreB.Some? && p.scoreA.value != p.scoreB.value
      && Winner(p) == (if p.scoreA.value > p.scoreB.value then m.teamAId else m.teamBId)
  {
  }
}
