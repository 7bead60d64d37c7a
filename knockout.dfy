/** `generateKnockoutBracket` of utils/tournamentLogic.ts: the round of 16
    from the group tables, then each knockout round from the winners of the
    last one. */
module Knockout {
  import opened Types
  import opened Decimal
  import opened Sorting
  import opened Tournament
  import opened Cup
  import Folds

  // ---------------------------------------------------------------------
  // generateKnockoutBracket
  // ---------------------------------------------------------------------

  /** `(a, b) => b.round - a.round`: later rounds first. */
  function ByRoundDesc(m: Match): (int, int) {
    (m.round, 0)
  }

  predicate IsPlayed(m: Match) {
    m.isPlayed
  }

  /** `maxRound`: the round of the first played match once sorted latest
      round first, or 1 when nothing has been played. */
  function MaxRound(matches: seq<Match>): int {
    var last := StableSort(Folds.Filter(matches, IsPlayed), ByRoundDesc);
    if |last| > 0 then last[0].round else 1
  }

  /** No played match is later than `maxRound`, ... */
  lemma MaxRoundUpper(matches: seq<Match>, m: Match)
    requires m in matches && m.isPlayed
    ensures m.round <= MaxRound(matches)
  {
    var played := Folds.Filter(matches, IsPlayed);
    var last := StableSort(played, ByRoundDesc);
    Folds.FilterMember(matches, IsPlayed, m);
    assert m in played;
    assert m in multiset(played);
    assert m in multiset(last);
    var k :| 0 <= k < |last| && last[k] == m;
    if k > 0 {
      StableSortSorted(played, ByRoundDesc);
      assert !Ahead(ByRoundDesc(last[k]), ByRoundDesc(last[0]));
    }
  }

  /** ... some played match is of round `maxRound`, ... */
  lemma MaxRoundAttained(matches: seq<Match>, p: Match) returns (m: Match)
    requires p in matches && p.isPlayed
    ensures m in matches && m.isPlayed && m.round == MaxRound(matches)
  {
    var played := Folds.Filter(matches, IsPlayed);
    var last := StableSort(played, ByRoundDesc);
    Folds.FilterMember(matches, IsPlayed, p);
    assert p in played;
    assert p in multiset(played);
    assert |last| > 0;
    m := last[0];
    assert m in multiset(played);
    assert m in played;
    Folds.FilterMember(matches, IsPlayed, m);
  }

  /** ... and it is 1 when nothing has been played. */
  lemma MaxRoundDefault(matches: seq<Match>)
    requires forall m | m in matches :: !m.isPlayed
    ensures MaxRound(matches) == 1
  {
    Folds.FilterNone(matches, IsPlayed);
  }

  /** A null score compares as 0. */
  function ScoreValue(s: Option<int>): int {
    if s.Some? then s.value else 0
  }

  /** `getWinner`: side A when its score is higher, side B otherwise. */
  function Winner(m: Match): string {
    if ScoreValue(m.scoreA) > ScoreValue(m.scoreB) then m.teamAId else m.teamBId
  }

  /** The group's ids looked up in `teams`, in group order, missing ones
      dropped: `sort` moves `undefined` entries to the end without calling
      the comparator, so only the found teams are ranked. */
  function Found(teams: seq<Team>, ids: seq<string>): seq<Team> {
    if |ids| == 0 then []
    else (match FindTeam(teams, ids[0]) case Some(t) => [t] case None => []) + Found(teams, ids[1..])
  }

  /** Points first, then won minus lost, larger first. */
  function RankKey(t: Team): (int, int) {
    (t.stats.points, t.stats.won - t.stats.lost)
  }

  /** The sorted group table. */
  function Ranking(teams: seq<Team>, ids: seq<string>): seq<Team> {
    StableSort(Found(teams, ids), RankKey)
  }

  /** `qualified[grp]`: the ids of the first two of the table. It throws
      when the group is missing or fewer than two of its teams are found
      (`sorted[1].id` of `undefined`). */
  function Qualified(groups: map<string, seq<string>>, teams: seq<Team>, name: string): Result<(string, string)> {
    if name !in groups then Throws
    else
      var sorted := Ranking(teams, groups[name]);
      if |sorted| < 2 then Throws else Ok((sorted[0].id, sorted[1].id))
  }

  /** The qualifiers of the first `k` groups. */
  function QualifiedAll(groups: map<string, seq<string>>, teams: seq<Team>, k: nat): (r: Result<seq<(string, string)>>)
    requires k <= GROUP_COUNT
    ensures r.Ok? ==> |r.value| == k && forall x | 0 <= x < k :: Qualified(groups, teams, GroupName(x)) == Ok(r.value[x])
    ensures r.Throws? <==> exists x | 0 <= x < k :: Qualified(groups, teams, GroupName(x)).Throws?
  {
    if k == 0 then Ok([])
    else
      match QualifiedAll(groups, teams, k - 1)
      case Throws => Throws
      case Ok(q) =>
        match Qualified(groups, teams, GroupName(k - 1))
        case Throws => Throws
        case Ok(p) => Ok(q + [p])
  }

  /** A new, unplayed knockout match. */
  function KnockoutMatch(id: string, round: int, a: string, b: string, stage: string): Match {
    Match(id, round, a, b, None, None, false, Some(stage))
  }

  /** The group of the winner and of the runner-up of each round-of-16
      match: A1-B2, C1-D2, E1-F2, G1-H2, B1-A2, D1-C2, F1-E2, H1-G2. */
  const R16_FIRST: seq<nat> := [0, 2, 4, 6, 1, 3, 5, 7]
  const R16_SECOND: seq<nat> := [1, 3, 5, 7, 0, 2, 4, 6]

  /** `r16_1` .. `r16_8` from the qualifiers of groups A to H. */
  function RoundOf16(q: seq<(string, string)>): seq<Match>
    requires |q| == GROUP_COUNT
  {
    seq(8, k requires 0 <= k < 8 =>
      KnockoutMatch("r16_" + NatToString(k + 1), 2, q[R16_FIRST[k]].0, q[R16_SECOND[k]].1, "Vòng 1/8"))
  }

  /** `count` matches of round `round` between the winners of consecutive
      matches of `prev`; it throws when `prev` has fewer than `2 * count`
      matches (`getWinner(undefined)`). */
  function NextRound(prev: seq<Match>, count: nat, round: int, prefix: string, stage: string): Result<seq<Match>> {
    if |prev| < 2 * count then Throws
    else Ok(seq(count, k requires 0 <= k < count =>
      KnockoutMatch(prefix + NatToString(k + 1), round, Winner(prev[2 * k]), Winner(prev[2 * k + 1]), stage)))
  }

  /** The final between the winners of the two semi-finals. */
  function FinalRound(prev: seq<Match>): Result<seq<Match>> {
    if |prev| < 2 then Throws
    else Ok([KnockoutMatch("final", 5, Winner(prev[0]), Winner(prev[1]), "Chung Kết")])
  }

  /** The matches of round `r`, in order. */
  function OfRound(matches: seq<Match>, r: int): seq<Match> {
    Folds.Filter(matches, (m: Match) => m.round == r)
  }

  /** `generateKnockoutBracket`. */
  function GenerateKnockoutBracket(state: TournamentState, matches: seq<Match>, teams: seq<Team>): Result<seq<Match>> {
    var maxRound := MaxRound(matches);
    if state.phase == Some(GroupPhase) then
      if state.groups.None? then Throws
      else
        match QualifiedAll(state.groups.value, teams, GROUP_COUNT)
        case Throws => Throws
        case Ok(q) => Ok(RoundOf16(q))
    else if state.phase == Some(KnockoutPhase) && maxRound == 2 then NextRound(OfRound(matches, 2), 4, 3, "qf_", "Tứ Kết")
    else if state.phase == Some(KnockoutPhase) && maxRound == 3 then NextRound(OfRound(matches, 3), 2, 4, "sf_", "Bán Kết")
    else if state.phase == Some(KnockoutPhase) && maxRound == 4 then FinalRound(OfRound(matches, 4))
    else Ok([])
  }

  // Knockout bracket: properties

  /** The group table ranks the found teams: nobody is ahead of the first,
      and only the first can be ahead of the second. */
  lemma RankingOrder(teams: seq<Team>, ids: seq<string>)
    ensures multiset(Ranking(teams, ids)) == multiset(Found(teams, ids))
    ensures forall k | 0 <= k < |Ranking(teams, ids)| :: !Ahead(RankKey(Ranking(teams, ids)[k]), RankKey(Ranking(teams, ids)[0]))
    ensures forall k | 1 <= k < |Ranking(teams, ids)| :: !Ahead(RankKey(Ranking(teams, ids)[k]), RankKey(Ranking(teams, ids)[1]))
  {
    StableSortSorted(Found(teams, ids), RankKey);
  }

  /** The teams ranked are those of the group's ids found in `teams`; when
      every id is found, all of them. */
  lemma {:induction false} FoundMembers(teams: seq<Team>, ids: seq<string>, t: Team)
    ensures t in Found(teams, ids) <==> exists i | 0 <= i < |ids| :: FindTeam(teams, ids[i]) == Some(t)
    ensures (forall i | 0 <= i < |ids| :: FindTeam(teams, ids[i]).Some?) ==> |Found(teams, ids)| == |ids|
    decreases |ids|
  {
    if |ids| > 0 {
      FoundMembers(teams, ids[1..], t);
      assert forall i | 1 <= i < |ids| :: ids[1..][i - 1] == ids[i];
      if (forall i | 0 <= i < |ids| :: FindTeam(teams, ids[i]).Some?) {
        assert forall i | 0 <= i < |ids[1..]| :: FindTeam(teams, ids[1..][i]).Some? by {
          forall i | 0 <= i < |ids[1..]| ensures FindTeam(teams, ids[1..][i]).Some? {
            assert ids[1..][i] == ids[i + 1];
          }
        }
      }
    }
  }

  /** A group's qualifiers are the first two of its table. */
  lemma QualifiedTop(groups: map<string, seq<string>>, teams: seq<Team>, name: string)
    ensures Qualified(groups, teams, name).Ok? <==> name in groups && |Ranking(teams, groups[name])| >= 2
    ensures Qualified(groups, teams, name).Ok? ==>
      Qualified(groups, teams, name).value == (Ranking(teams, groups[name])[0].id, Ranking(teams, groups[name])[1].id)
  {
  }

  /** The round of 16: eight unplayed round-2 matches staged "Vòng 1/8";
      match `p` and match `p + 4` pair groups `2p` and `2p + 1`, each
      group's winner against the other's runner-up. */
  lemma RoundOf16Shape(q: seq<(string, string)>)
    requires |q| == GROUP_COUNT
    ensures |RoundOf16(q)| == 8
    ensures forall k | 0 <= k < 8 ::
      var m := RoundOf16(q)[k];
      m.round == 2 && !m.isPlayed && m.scoreA.None? && m.scoreB.None? && m.stageName == Some("Vòng 1/8")
    ensures forall p | 0 <= p < 4 ::
      && q[2 * p] == (RoundOf16(q)[p].teamAId, RoundOf16(q)[p + 4].teamBId)
      && q[2 * p + 1] == (RoundOf16(q)[p + 4].teamAId, RoundOf16(q)[p].teamBId)
  {
    forall p | 0 <= p < 4
      ensures && q[2 * p] == (RoundOf16(q)[p].teamAId, RoundOf16(q)[p + 4].teamBId)
              && q[2 * p + 1] == (RoundOf16(q)[p + 4].teamAId, RoundOf16(q)[p].teamBId)
    {
      R16Tables(p);
    }
  }

  /** After the group phase the bracket throws exactly when the groups are
      missing or some group cannot name two qualifiers, ... */
  lemma KnockoutAfterGroupsThrows(state: TournamentState, matches: seq<Match>, teams: seq<Team>)
    requires state.phase == Some(GroupPhase)
    ensures GenerateKnockoutBracket(state, matches, teams).Throws? <==>
      state.groups.None? || exists x | 0 <= x < GROUP_COUNT :: Qualified(state.groups.value, teams, GroupName(x)).Throws?
  {
  }

  /** ... and otherwise it is the round of 16 on the qualifiers of groups
      A to H: A1-B2, C1-D2, E1-F2, G1-H2, B1-A2, D1-C2, F1-E2, H1-G2. */
  lemma KnockoutAfterGroups(state: TournamentState, matches: seq<Match>, teams: seq<Team>)
    requires state.phase == Some(GroupPhase) && GenerateKnockoutBracket(state, matches, teams).Ok?
    ensures state.groups.Some?
    ensures var q := QualifiedAll(state.groups.value, teams, GROUP_COUNT);
      && q.Ok? && GenerateKnockoutBracket(state, matches, teams).value == RoundOf16(q.value)
      && forall x | 0 <= x < GROUP_COUNT :: Qualified(state.groups.value, teams, GroupName(x)) == Ok(q.value[x])
  {
  }

  /** The pairing tables: match `p` and match `p + 4` share groups `2p`
      and `2p + 1` the other way round. */
  lemma R16Tables(p: nat)
    requires p < 4
    ensures R16_FIRST[p] == 2 * p && R16_SECOND[p] == 2 * p + 1
    ensures R16_FIRST[p + 4] == 2 * p + 1 && R16_SECOND[p + 4] == 2 * p
  {
  }

  /** The size of the round after `maxRound`. */
  function RoundSize(maxRound: int): nat {
    if maxRound == 2 then 4 else if maxRound == 3 then 2 else 1
  }

  /** A round built by `NextRound` or `FinalRound` from `prev`. */
  predicate PairsWinners(prev: seq<Match>, next: seq<Match>, count: nat, round: int)
  {
    && |next| == count && 2 * count <= |prev|
    && forall k | 0 <= k < count ::
         && next[k].round == round && !next[k].isPlayed && next[k].scoreA.None? && next[k].scoreB.None?
         && next[k].teamAId == Winner(prev[2 * k]) && next[k].teamBId == Winner(prev[2 * k + 1])
  }

  lemma NextRoundShape(prev: seq<Match>, count: nat, round: int, prefix: string, stage: string)
    ensures NextRound(prev, count, round, prefix, stage).Throws? <==> |prev| < 2 * count
    ensures NextRound(prev, count, round, prefix, stage).Ok? ==>
      PairsWinners(prev, NextRound(prev, count, round, prefix, stage).value, count, round)
  {
  }

  lemma FinalRoundShape(prev: seq<Match>)
    ensures FinalRound(prev).Throws? <==> |prev| < 2
    ensures FinalRound(prev).Ok? ==> PairsWinners(prev, FinalRound(prev).value, 1, 5)
  {
  }

  /** In the knockout phase, after round 2, 3 or 4: one match per two
      matches of that round, between the winners of consecutive matches,
      in the next round; it throws when that round has too few matches. */
  lemma KnockoutNextRound(state: TournamentState, matches: seq<Match>, teams: seq<Team>)
    requires state.phase == Some(KnockoutPhase) && 2 <= MaxRound(matches) <= 4
    ensures var r := GenerateKnockoutBracket(state, matches, teams);
      var prev := OfRound(matches, MaxRound(matches));
      && (r.Throws? <==> |prev| < 2 * RoundSize(MaxRound(matches)))
      && (r.Ok? ==> PairsWinners(prev, r.value, RoundSize(MaxRound(matches)), MaxRound(matches) + 1))
  {
    var R := MaxRound(matches);
    var prev := OfRound(matches, R);
    if R == 4 {
      FinalRoundShape(prev);
    } else if R == 3 {
      NextRoundShape(prev, 2, 4, "sf_", "Bán Kết");
    } else {
      NextRoundShape(prev, 4, 3, "qf_", "Tứ Kết");
    }
  }

  /** Any other state yields no matches. */
  lemma KnockoutIdle(state: TournamentState, matches: seq<Match>, teams: seq<Team>)
    requires state.phase != Some(GroupPhase)
    requires state.phase != Some(KnockoutPhase) || MaxRound(matches) < 2 || MaxRound(matches) > 4
    ensures GenerateKnockoutBracket(state, matches, teams) == Ok([])
  {
  }

  /** The earlier round's matches are exactly the matches of that round,
      in order of appearance. */
  lemma OfRoundMembers(matches: seq<Match>, r: int, m: Match)
    ensures m in OfRound(matches, r) <==> m in matches && m.round == r
  {
    Folds.FilterMember(matches, (m: Match) => m.round == r, m);
  }
}
