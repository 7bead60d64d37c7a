/** `updateStandings` of utils/tournamentLogic.ts: every team's record is
    rebuilt from zero out of the played group-stage matches, and the teams
    are then ordered by points. */
module Standings {
  import opened Types
  import opened Decimal
  import opened Sorting
  import opened Tournament

  /** Only matches whose stage name contains this count. */
  const GROUP_MARK := "Bảng"

  /** `p` occurs in `s` at position `i`. */
  predicate OccursAt(s: string, p: string, i: int) {
    0 <= i <= |s| - |p| && s[i..i + |p|] == p
  }

  /** `String.prototype.includes`. */
  predicate Contains(s: string, p: string) {
    exists i | 0 <= i <= |s| - |p| :: OccursAt(s, p, i)
  }

  /** A match that changes the table: played, both scores set, and a
      group-stage name. */
  predicate Counts(m: Match) {
    m.isPlayed && m.scoreA.Some? && m.scoreB.Some? && m.stageName.Some? && Contains(m.stageName.value, GROUP_MARK)
  }

  /** `newTeams.find(t => t.id === id)`, as a position. */
  function FindIndex(teams: seq<Team>, id: string): (r: Option<nat>)
    ensures r.Some? ==> r.value < |teams| && teams[r.value].id == id
    ensures r.Some? ==> forall j | 0 <= j < r.value :: teams[j].id != id
    ensures r.None? <==> forall j | 0 <= j < |teams| :: teams[j].id != id
  {
    if |teams| == 0 then None
    else if teams[0].id == id then Some(0)
    else match FindIndex(teams[1..], id)
      case Some(i) => Some(i + 1)
      case None => None
  }

  /** The four in-place updates of a team's record. */
  datatype Change = Play | Win | Lose | Draw

  function Apply(s: Stats, c: Change): Stats {
    match c
    case Play => s.(played := s.played + 1)
    case Win => s.(won := s.won + 1, points := s.points + WIN_POINTS)
    case Lose => s.(lost := s.lost + 1)
    case Draw => s.(drawn := s.drawn + 1, points := s.points + DRAW_POINTS)
  }

  /** Applies `c` to the record of the team at position `i`. */
  function Bump(teams: seq<Team>, i: nat, c: Change): seq<Team>
    requires i < |teams|
  {
    teams[i := teams[i].(stats := Apply(teams[i].stats, c))]
  }

  /** One pass of the `forEach` body. A match of a team against itself
      finds the same object twice, and both sides' updates land on it. */
  function Record(teams: seq<Team>, m: Match): seq<Team> {
    match (FindIndex(teams, m.teamAId), FindIndex(teams, m.teamBId))
    case (Some(a), Some(b)) =>
      if Counts(m) then Counted(teams, a, b, VerdictOf(m)) else teams
    case _ => teams
  }

  /** Who took the match, tested in the order of `updateStandings`: side A
      at two games first, then side B, otherwise a draw. */
  datatype Verdict = AWins | BWins | Level

  function VerdictOf(m: Match): Verdict
    requires m.scoreA.Some? && m.scoreB.Some?
  {
    if m.scoreA.value >= 2 then AWins else if m.scoreB.value >= 2 then BWins else Level
  }

  /** The updates of a counted match between the teams at `a` and `b`, in
      the order `updateStandings` makes them. */
  function Counted(teams: seq<Team>, a: nat, b: nat, v: Verdict): seq<Team>
    requires a < |teams| && b < |teams|
  {
    var t := Bump(Bump(teams, a, Play), b, Play);
    match v
    case AWins => Bump(Bump(t, a, Win), b, Lose)
    case BWins => Bump(Bump(t, b, Win), a, Lose)
    case Level => Bump(Bump(t, a, Draw), b, Draw)
  }

  /** The records after the matches, in order. */
  function Tally(teams: seq<Team>, matches: seq<Match>): seq<Team>
    decreases |matches|
  {
    if |matches| == 0 then teams
    else Record(Tally(teams, matches[..|matches| - 1]), matches[|matches| - 1])
  }

  /** The `teams.map` that copies every team with a zero record. */
  function Reset(teams: seq<Team>): seq<Team> {
    seq(|teams|, k requires 0 <= k < |teams| => teams[k].(stats := ZERO_STATS))
  }

  /** `(a, b) => b.stats.points - a.stats.points`: more points first. */
  function ByPoints(t: Team): (int, int) {
    (t.stats.points, 0)
  }

  /** `updateStandings`. */
  function Standings(teams: seq<Team>, matches: seq<Match>): seq<Team> {
    StableSort(Tally(Reset(teams), matches), ByPoints)
  }

  method RecordMatch(teams: seq<Team>, m: Match) returns (r: seq<Team>)
    ensures r == Record(teams, m)
  {
    r := teams;
    if m.isPlayed && m.scoreA.Some? && m.scoreB.Some? {
      var a := FindIndex(teams, m.teamAId);
      var b := FindIndex(teams, m.teamBId);
      if a.Some? && b.Some? && m.stageName.Some? && Contains(m.stageName.value, GROUP_MARK) {
        var ia, ib := a.value, b.value;
        r := Bump(r, ia, Play);
        r := Bump(r, ib, Play);
        if m.scoreA.value >= 2 {
          r := Bump(r, ia, Win);
          r := Bump(r, ib, Lose);
        } else if m.scoreB.value >= 2 {
          r := Bump(r, ib, Win);
          r := Bump(r, ia, Lose);
        } else {
          r := Bump(r, ia, Draw);
          r := Bump(r, ib, Draw);
        }
      }
    }
  }

  method UpdateStandings(teams: seq<Team>, matches: seq<Match>) returns (result: seq<Team>)
    ensures result == Standings(teams, matches)
  {
    var newTeams := Reset(teams);
    var i := 0;
    while i < |matches|
      invariant 0 <= i <= |matches| && newTeams == Tally(Reset(teams), matches[..i])
    {
      assert matches[..i + 1][..i] == matches[..i];
      newTeams := RecordMatch(newTeams, matches[i]);
      i := i + 1;
    }
    assert matches[..|matches|] == matches;
    result := StableSort(newTeams, ByPoints);
  }

  // ---------------------------------------------------------------------
  // Properties
  // ---------------------------------------------------------------------

  /** A consistent record: games add up and points are three per win and
      one per draw. */
  predicate Balanced(s: Stats) {
    s.played == s.won + s.drawn + s.lost && s.points == WIN_POINTS * s.won + DRAW_POINTS * s.drawn
    && s.won >= 0 && s.drawn >= 0 && s.lost >= 0
  }

  predicate AllBalanced(teams: seq<Team>) {
    forall k | 0 <= k < |teams| :: Balanced(teams[k].stats)
  }

  /** What one side's record gains from a counted match. */
  function Gain(v: Verdict, sideA: bool): Stats {
    if v == Level then Stats(1, 0, 1, 0, DRAW_POINTS)
    else if (v == AWins) == sideA then Stats(1, 1, 0, 0, WIN_POINTS)
    else Stats(1, 0, 0, 1, LOSS_POINTS)
  }

  lemma GainBalanced(v: Verdict, sideA: bool)
    ensures Balanced(Gain(v, sideA)) && Gain(v, sideA).played == 1
  {
  }

  function Plus(s: Stats, d: Stats): Stats {
    Stats(s.played + d.played, s.won + d.won, s.drawn + d.drawn, s.lost + d.lost, s.points + d.points)
  }

  lemma BumpAt(teams: seq<Team>, i: nat, c: Change, k: nat)
    requires i < |teams| && k < |teams|
    ensures |Bump(teams, i, c)| == |teams|
    ensures Bump(teams, i, c)[k] == teams[k].(stats := if k == i then Apply(teams[k].stats, c) else teams[k].stats)
  {
  }

  /** Each side's team gains its share, a team on both sides both
      shares; every other team and every field but the record stay. */
  lemma CountedAt(teams: seq<Team>, a: nat, b: nat, v: Verdict, k: nat)
    requires a < |teams| && b < |teams| && k < |teams|
    ensures |Counted(teams, a, b, v)| == |teams|
    ensures Counted(teams, a, b, v)[k].stats == Plus(Plus(teams[k].stats,
      if k == a then Gain(v, true) else ZERO_STATS), if k == b then Gain(v, false) else ZERO_STATS)
    ensures Counted(teams, a, b, v)[k].(stats := teams[k].stats) == teams[k]
  {
    var t1 := Bump(teams, a, Play);
    var t := Bump(t1, b, Play);
    BumpAt(teams, a, Play, k);
    BumpAt(t1, b, Play, k);
    match v
    case AWins =>
      BumpAt(t, a, Win, k);
      BumpAt(Bump(t, a, Win), b, Lose, k);
    case BWins =>
      BumpAt(t, b, Win, k);
      BumpAt(Bump(t, b, Win), a, Lose, k);
    case Level =>
      BumpAt(t, a, Draw, k);
      BumpAt(Bump(t, a, Draw), b, Draw, k);
  }

  /** A counted match adds its gain to each side's first team with that id
      (both gains to a team playing itself) and changes nothing else; any
      other match changes nothing. */
  lemma RecordEffect(teams: seq<Team>, m: Match, k: nat)
    requires k < |teams|
    ensures |Record(teams, m)| == |teams|
    ensures Record(teams, m)[k].(stats := teams[k].stats) == teams[k]
    ensures var a, b := FindIndex(teams, m.teamAId), FindIndex(teams, m.teamBId);
      Record(teams, m)[k].stats ==
        if Counts(m) && a.Some? && b.Some? then
          Plus(Plus(teams[k].stats,
            if k == a.value then Gain(VerdictOf(m), true) else ZERO_STATS),
            if k == b.value then Gain(VerdictOf(m), false) else ZERO_STATS)
        else teams[k].stats
  {
    var a, b := FindIndex(teams, m.teamAId), FindIndex(teams, m.teamBId);
    if Counts(m) && a.Some? && b.Some? {
      CountedAt(teams, a.value, b.value, VerdictOf(m), k);
    }
  }

  /** A match changes records only. */
  lemma RecordKeeps(teams: seq<Team>, m: Match)
    ensures |Record(teams, m)| == |teams|
    ensures forall k | 0 <= k < |teams| :: Record(teams, m)[k].(stats := teams[k].stats) == teams[k]
  {
    forall k | 0 <= k < |teams| ensures Record(teams, m)[k].(stats := teams[k].stats) == teams[k] {
      RecordEffect(teams, m, k);
    }
  }

  /** The matches leave every team's id, name, flag and strength alone. */
  lemma {:induction false} TallyKeeps(teams: seq<Team>, matches: seq<Match>)
    ensures |Tally(teams, matches)| == |teams|
    ensures forall k | 0 <= k < |teams| :: Tally(teams, matches)[k].(stats := teams[k].stats) == teams[k]
    decreases |matches|
  {
    if |matches| > 0 {
      var prev := Tally(teams, matches[..|matches| - 1]);
      TallyKeeps(teams, matches[..|matches| - 1]);
      RecordKeeps(prev, matches[|matches| - 1]);
    }
  }

  /** A match keeps every record consistent, also a team playing itself. */
  lemma RecordBalanced(teams: seq<Team>, m: Match)
    requires AllBalanced(teams)
    ensures AllBalanced(Record(teams, m))
  {
    forall k | 0 <= k < |Record(teams, m)| ensures Balanced(Record(teams, m)[k].stats) {
      RecordEffect(teams, m, k);
      if m.scoreA.Some? && m.scoreB.Some? {
        GainBalanced(VerdictOf(m), true);
        GainBalanced(VerdictOf(m), false);
      }
    }
  }

  /** The rebuilt records are consistent, whatever the matches. */
  lemma {:induction false} TallyBalanced(teams: seq<Team>, matches: seq<Match>)
    requires AllBalanced(teams)
    ensures AllBalanced(Tally(teams, matches))
    decreases |matches|
  {
    if |matches| > 0 {
      TallyBalanced(teams, matches[..|matches| - 1]);
      RecordBalanced(Tally(teams, matches[..|matches| - 1]), matches[|matches| - 1]);
    }
  }

  lemma ResetBalanced(teams: seq<Team>)
    ensures |Reset(teams)| == |teams| && AllBalanced(Reset(teams))
  {
  }

  lemma {:induction false} IdsAppend(s: seq<Team>, t: seq<Team>)
    ensures Ids(s + t) == Ids(s) + Ids(t)
  {
  }

  /** Inserting a team adds its id. */
  lemma {:induction false} InsertIds(x: Team, s: seq<Team>)
    ensures multiset(Ids(Insert(x, s, ByPoints))) == multiset(Ids(s)) + multiset{x.id}
    decreases |s|
  {
    if |s| == 0 {
    } else if Ahead(ByPoints(x), ByPoints(s[0])) {
      IdsAppend([x], s);
    } else {
      InsertIds(x, s[1..]);
      IdsAppend([s[0]], Insert(x, s[1..], ByPoints));
      IdsAppend([s[0]], s[1..]);
      assert [s[0]] + s[1..] == s;
    }
  }

  lemma SortLast(s: seq<Team>)
    requires |s| > 0
    ensures StableSort(s, ByPoints) == Insert(s[|s| - 1], StableSort(s[..|s| - 1], ByPoints), ByPoints)
  {
  }

  lemma IdsLast(s: seq<Team>)
    requires |s| > 0
    ensures multiset(Ids(s)) == multiset(Ids(s[..|s| - 1])) + multiset{s[|s| - 1].id}
  {
    assert s[..|s| - 1] + [s[|s| - 1]] == s;
    IdsAppend(s[..|s| - 1], [s[|s| - 1]]);
  }

  /** Sorting by points keeps the ids. */
  lemma {:induction false} SortIds(s: seq<Team>)
    ensures multiset(Ids(StableSort(s, ByPoints))) == multiset(Ids(s))
    decreases |s|
  {
    if |s| > 0 {
      var init, x := s[..|s| - 1], s[|s| - 1];
      SortLast(s);
      InsertIds(x, StableSort(init, ByPoints));
      SortIds(init);
      IdsLast(s);
    }
  }

  /** The ids of the rebuilt, unsorted records are the input's, position by
      position. */
  lemma TalliedIds(teams: seq<Team>, matches: seq<Match>)
    ensures Ids(Tally(Reset(teams), matches)) == Ids(teams)
  {
    TallyKeeps(Reset(teams), matches);
  }

  /** The result holds the rebuilt records, each once, ordered by points,
      highest first; its ids are those of the input, each as often. */
  lemma StandingsOrder(teams: seq<Team>, matches: seq<Match>)
    ensures var r := Standings(teams, matches);
      multiset(r) == multiset(Tally(Reset(teams), matches))
      && multiset(Ids(r)) == multiset(Ids(teams))
      && forall i, j | 0 <= i < j < |r| :: r[i].stats.points >= r[j].stats.points
  {
    StableSortSorted(Tally(Reset(teams), matches), ByPoints);
    SortIds(Tally(Reset(teams), matches));
    TalliedIds(teams, matches);
  }

  /** Every record in the result is consistent. */
  lemma StandingsBalanced(teams: seq<Team>, matches: seq<Match>)
    ensures AllBalanced(Standings(teams, matches))
  {
    var t := Tally(Reset(teams), matches);
    ResetBalanced(teams);
    TallyBalanced(Reset(teams), matches);
    forall k | 0 <= k < |Standings(teams, matches)|
      ensures Balanced(Standings(teams, matches)[k].stats)
    {
      var x := Standings(teams, matches)[k];
      assert x in multiset(t);
      var j :| 0 <= j < |t| && t[j] == x;
    }
  }

  /** Matches that do not count leave the table as it was. */
  lemma {:induction false} TallyIdle(teams: seq<Team>, matches: seq<Match>)
    requires forall j | 0 <= j < |matches| :: !Counts(matches[j])
    ensures Tally(teams, matches) == teams
    decreases |matches|
  {
    if |matches| > 0 {
      TallyIdle(teams, matches[..|matches| - 1]);
    }
  }

  /** Without a counted match every team has a zero record and the input
      order is kept. */
  lemma StandingsIdle(teams: seq<Team>, matches: seq<Match>)
    requires forall j | 0 <= j < |matches| :: !Counts(matches[j])
    ensures Standings(teams, matches) == Reset(teams)
  {
    TallyIdle(Reset(teams), matches);
    StableSortIdentity(Reset(teams), ByPoints);
  }

  /** A name without a capital B has no group marker. */
  lemma NoMark(s: string)
    requires forall i | 0 <= i < |s| :: s[i] != 'B'
    ensures !Contains(s, GROUP_MARK)
  {
    forall i | 0 <= i <= |s| - |GROUP_MARK| ensures !OccursAt(s, GROUP_MARK, i) {
      assert s[i..i + |GROUP_MARK|][0] == s[i];
    }
  }

  /** A league stage name "Vòng n" is not a group stage. */
  lemma LeagueStageIdle(n: nat)
    ensures !Contains("Vòng " + NatToString(n), GROUP_MARK)
  {
    var s := "Vòng " + NatToString(n);
    NatToStringDigits(n);
    forall i | 0 <= i < |s| ensures s[i] != 'B' {
      if i >= 5 {
        assert s[i] == NatToString(n)[i - 5];
      }
    }
    NoMark(s);
  }

  /** The league's matches are not group matches, however they are
      played: league standings stay at zero in the order given, so the
      first team given heads them whatever the results. */
  lemma LeagueStandingsIdle(teams: seq<Team>, matches: seq<Match>)
    requires |matches| == |LeagueSchedule(Ids(teams))|
    requires forall j | 0 <= j < |matches| :: matches[j].stageName == LeagueSchedule(Ids(teams))[j].stageName
    ensures Standings(teams, matches) == Reset(teams)
    ensures |teams| > 0 ==> Standings(teams, matches)[0].id == teams[0].id
  {
    forall j | 0 <= j < |matches| ensures !Counts(matches[j]) {
      LeagueStage(Ids(teams), j);
      LeagueStageIdle(LeagueSchedule(Ids(teams))[j].round);
    }
    StandingsIdle(teams, matches);
  }
}
