/** utils/tournamentLogic.ts, first part: the scoring constants, team
    creation and the league round robin. The cup groups, the knockout
    bracket, the match simulation and the standings follow in their own
    modules. Every `Math.random()` draw is an input. */
module Tournament {
  import opened Types
  import opened Decimal
  import opened RoundRobin
  import opened Sorting

  const WIN_POINTS := 3
  const DRAW_POINTS := 1
  const LOSS_POINTS := 0

  const AI_NAMES: seq<string> := [
    "Ngọa Long", "Mãnh Hổ", "Phượng Hoàng", "Bạch Liên",
    "Ngọc Hoàng", "Thiết Pháo", "Phong Thần", "Giang Thần",
    "Kim Mã", "Ám Tốt", "Hồng Bá", "Thần Tượng",
    "Ngân Xa", "Lôi Thủ", "Vô Danh Tăng", "Thanh Long",
    "Đoản Kiếm", "Túy Quyền", "Bắc Lang", "Nam Hạc",
    "Thiên Vệ", "Cấm Vệ Quân", "Hô Phong", "Hỏa Tâm",
    "Hư Không", "Trúc Tiên", "Huyết Triều", "Đỉnh Sơn",
    "Hàn Băng", "Ám Quyền", "Thần Phong", "Bàn Thạch"
  ]

  const ZERO_STATS := Stats(0, 0, 0, 0, 0)

  // ---------------------------------------------------------------------
  // createTeams
  // ---------------------------------------------------------------------

  function PlayerTeam(): Team {
    Team("player", "Bạn (Người chơi)", true, ZERO_STATS, 10)
  }

  /** The strength drawn from two `Math.random()` values: weak 1-4 with
      probability 0.2, average 5-7 with 0.5, strong 8-10 with 0.3. */
  function Strength(roll: (real, real)): int {
    if roll.0 < 0.2 then (roll.1 * 4.0).Floor + 1
    else if roll.0 < 0.7 then (roll.1 * 3.0).Floor + 5
    else (roll.1 * 3.0).Floor + 8
  }

  predicate IsRandom(x: real) {
    0.0 <= x < 1.0
  }

  lemma StrengthRange(roll: (real, real))
    requires IsRandom(roll.0) && IsRandom(roll.1)
    ensures 1 <= Strength(roll) <= 10
    ensures roll.0 < 0.2 ==> Strength(roll) <= 4
    ensures 0.2 <= roll.0 < 0.7 ==> 5 <= Strength(roll) <= 7
    ensures 0.7 <= roll.0 ==> 8 <= Strength(roll)
  {
  }

  function AiId(i: nat): string {
    "ai_" + NatToString(i)
  }

  /** `AI_NAMES[i % AI_NAMES.length]`. */
  function AiName(i: nat): string {
    AI_NAMES[i % |AI_NAMES|]
  }
  /** The `i`-th computer team. */
  function AiTeam(i: nat, roll: (real, real)): Team {
    Team(AiId(i), AiName(i), false, ZERO_STATS, Strength(roll))
  }

  /** Team ids are unique: AI ids differ from each other and from
      "player". */
  lemma AiIdsDistinct(i: nat, j: nat)
    ensures AiId(i) != PlayerTeam().id
    ensures i != j ==> AiId(i) != AiId(j)
  {
    assert AiId(i)[0] == 'a';
    if AiId(i) == AiId(j) {
      assert NatToString(i) == AiId(i)[3..] == AiId(j)[3..] == NatToString(j);
      NatToStringInjective(i, j);
    }
  }


  /** The teams `createTeams(count)` builds from `rolls`. */
  predicate CreatedFrom(teams: seq<Team>, count: int, rolls: seq<(real, real)>) {
    && |teams| == (if count >= 1 then count else 1)
    && |teams| - 1 <= |rolls|
    && teams[0] == PlayerTeam()
    && forall k | 1 <= k < |teams| :: teams[k] == AiTeam(k - 1, rolls[k - 1])
  }

  /** `createTeams(count)`: the player's team, then `count - 1` computer
      teams (none when `count <= 1`), drawing the strengths from `rolls`. */
  method CreateTeams(count: int, rolls: seq<(real, real)>) returns (teams: seq<Team>)
    requires count - 1 <= |rolls|
    ensures CreatedFrom(teams, count, rolls)
  {
    teams := [PlayerTeam()];
    var i := 0;
    while i < count - 1
      invariant 0 <= i && |teams| == i + 1 && (i > 0 ==> i <= count - 1)
      invariant teams[0] == PlayerTeam()
      invariant forall k | 1 <= k < |teams| :: teams[k] == AiTeam(k - 1, rolls[k - 1])
    {
      teams := teams + [AiTeam(i, rolls[i])];
      i := i + 1;
    }
  }

  /** Created teams have unique ids, and every computer team has a
      strength in 1..10. */
  lemma CreatedTeams(teams: seq<Team>, count: int, rolls: seq<(real, real)>)
    requires CreatedFrom(teams, count, rolls)
    requires forall k | 0 <= k < |rolls| :: IsRandom(rolls[k].0) && IsRandom(rolls[k].1)
    ensures forall k | 1 <= k < |teams| :: 1 <= teams[k].strength <= 10 && !teams[k].isPlayer
    ensures Distinct(Ids(teams))
  {
    forall k | 1 <= k < |teams| ensures 1 <= teams[k].strength <= 10 {
      StrengthRange(rolls[k - 1]);
    }
    forall k | 1 <= k < |teams| ensures teams[k].id == AiId(k - 1) {
      assert teams[k] == AiTeam(k - 1, rolls[k - 1]);
    }
    forall k, k' | 0 <= k < |teams| && 0 <= k' < |teams| ensures DiffAt(Ids(teams), k, k') {
      CreatedIdsDiffer(teams, k, k');
    }
  }

  lemma CreatedIdsDiffer(teams: seq<Team>, k: nat, k': nat)
    requires 1 <= |teams| && teams[0].id == PlayerTeam().id
    requires forall k | 1 <= k < |teams| :: teams[k].id == AiId(k - 1)
    requires k < |teams| && k' < |teams|
    ensures DiffAt(Ids(teams), k, k')
  {
    if k != k' {
      var lo, hi := if k < k' then k else k', if k < k' then k' else k;
      AiIdsDistinct(hi - 1, 0);
      if lo > 0 {
        AiIdsDistinct(hi - 1, lo - 1);
      }
      assert Ids(teams)[k] == teams[k].id && Ids(teams)[k'] == teams[k'].id;
    }
  }

  // ---------------------------------------------------------------------
  // generateLeagueSchedule
  // ---------------------------------------------------------------------

  function Ids(teams: seq<Team>): seq<string> {
    seq(|teams|, k requires 0 <= k < |teams| => teams[k].id)
  }

  /** `teams.find(t => t.id === id)`: the first team with that id. */
  function FindTeam(teams: seq<Team>, id: string): (r: Option<Team>)
    ensures r.Some? ==> r.value in teams && r.value.id == id
    ensures r.None? ==> forall t | t in teams :: t.id != id
  {
    if |teams| == 0 then None
    else if teams[0].id == id then Some(teams[0])
    else FindTeam(teams[1..], id)
  }

  /** `splice(1, 0, pop())`: the last id moves to position 1. */
  function Rotate(ids: seq<string>): seq<string>
    requires |ids| >= 2
  {
    var init := ids[..|ids| - 1];
    init[..1] + [ids[|ids| - 1]] + init[1..]
  }

  /** The match of round `round` (0-based) between `t1` and `t2`. */
  function LeagueMatch(round: nat, t1: string, t2: string): Match {
    Match("rnd" + NatToString(round) + "_" + t1 + "_vs_" + t2, round + 1, t1, t2,
      None, None, false, Some("Vòng " + NatToString(round + 1)))
  }

  /** How many `i` satisfy `i < n / 2` in real arithmetic. */
  function Half(n: nat): nat {
    (n + 1) / 2
  }

  /** Slot `i` of round `r`: the ids at positions `i` and `n - 1 - i` after
      `r` rotations. */
  function Fixture(ids: seq<string>, r: nat, i: nat): Match
    requires |ids| >= 2 && r <= |ids| - 1 && i < Half(|ids|)
  {
    var n := |ids|;
    SeatRange(n, r, i);
    SeatRange(n, r, n - 1 - i);
    LeagueMatch(r, ids[Seat(n, r, i)], ids[Seat(n, r, n - 1 - i)])
  }

  function RoundFixtures(ids: seq<string>, r: nat): seq<Match>
    requires |ids| >= 2 && r <= |ids| - 1
  {
    seq(Half(|ids|), i requires 0 <= i < Half(|ids|) => Fixture(ids, r, i))
  }

  /** The matches of the first `rounds` rounds, in the order they are
      pushed. */
  function Fixtures(ids: seq<string>, rounds: nat): seq<Match>
    requires |ids| >= 2 && rounds <= |ids| - 1
  {
    if rounds == 0 then [] else Fixtures(ids, rounds - 1) + RoundFixtures(ids, rounds - 1)
  }

  /** `(a, b) => a.round - b.round`: earlier rounds first. */
  function ByRound(m: Match): (int, int) {
    (-m.round, 0)
  }

  /** `generateLeagueSchedule`, stated on the team ids. */
  function LeagueSchedule(ids: seq<string>): seq<Match> {
    StableSort(if |ids| >= 2 then Fixtures(ids, |ids| - 1) else [], ByRound)
  }

  /** `ids` after `r` rotations. */
  predicate Seated(ids: seq<string>, teamIds: seq<string>, r: nat)
    requires |ids| >= 2 && r <= |ids| - 1
  {
    |teamIds| == |ids| && forall k | 0 <= k < |ids| :: SeatRange(|ids|, r, k); teamIds[k] == ids[Seat(|ids|, r, k)]
  }

  /** The match pushed for slot `i` is the slot's fixture. */
  lemma SeatedFixture(ids: seq<string>, teamIds: seq<string>, r: nat, i: nat)
    requires |ids| >= 2 && r <= |ids| - 1 && i < Half(|ids|) && Seated(ids, teamIds, r)
    ensures LeagueMatch(r, teamIds[i], teamIds[|ids| - 1 - i]) == Fixture(ids, r, i)
    ensures RoundFixtures(ids, r)[..i + 1] == RoundFixtures(ids, r)[..i] + [Fixture(ids, r, i)]
  {
  }

  /** `Rotate` advances the seating by one round. */
  lemma SeatedRotate(ids: seq<string>, teamIds: seq<string>, r: nat)
    requires |ids| >= 2 && r < |ids| - 1 && Seated(ids, teamIds, r)
    ensures Seated(ids, Rotate(teamIds), r + 1)
  {
    var n := |ids|;
    forall k | 0 <= k < n ensures Rotate(teamIds)[k] == ids[Seat(n, r + 1, k)] {
      SeatRotate(n, r, k);
      SeatRange(n, r, k);
      SeatRange(n, r + 1, k);
    }
  }

  lemma SeatedStart(ids: seq<string>)
    requires |ids| >= 2
    ensures Seated(ids, ids, 0)
  {
    forall k | 0 <= k < |ids| ensures ids[k] == ids[Seat(|ids|, 0, k)] {
      SeatStart(|ids|, k);
    }
  }

  lemma LeagueScheduleOf(ids: seq<string>, matches: seq<Match>)
    requires matches == if |ids| >= 2 then Fixtures(ids, |ids| - 1) else []
    ensures StableSort(matches, ByRound) == LeagueSchedule(ids)
  {
  }

  /** The inner loop of `generateLeagueSchedule`: one match per slot of
      round `round`, appended to `matches0`. */
  method PushRound(ghost ids: seq<string>, teamIds: seq<string>, round: nat, matches0: seq<Match>) returns (matches: seq<Match>)
    requires |ids| >= 2 && round < |ids| - 1 && Seated(ids, teamIds, round)
    ensures matches == matches0 + RoundFixtures(ids, round)
  {
    var n := |teamIds|;
    matches := matches0;
    var i := 0;
    while 2 * i < n
      invariant 0 <= i <= Half(n)
      invariant matches == matches0 + RoundFixtures(ids, round)[..i]
    {
      SeatedFixture(ids, teamIds, round, i);
      matches := matches + [LeagueMatch(round, teamIds[i], teamIds[n - 1 - i])];
      i := i + 1;
    }
    assert RoundFixtures(ids, round)[..i] == RoundFixtures(ids, round);
  }

  method GenerateLeagueSchedule(teams: seq<Team>) returns (matches: seq<Match>)
    ensures matches == LeagueSchedule(Ids(teams))
  {
    var n := |teams|;
    var numRounds := n - 1;
    var teamIds := Ids(teams);
    ghost var ids := teamIds;
    if n >= 2 {
      SeatedStart(ids);
    }
    matches := [];
    var round := 0;
    while round < numRounds
      invariant 0 <= round && (n >= 2 ==> round <= n - 1) && (n < 2 ==> round == 0 && matches == [])
      invariant |ids| == n
      invariant n >= 2 ==> Seated(ids, teamIds, round) && matches == Fixtures(ids, round)
    {
      matches := PushRound(ids, teamIds, round, matches);
      SeatedRotate(ids, teamIds, round);
      teamIds := Rotate(teamIds);
      round := round + 1;
    }
    LeagueScheduleOf(ids, matches);
    matches := StableSort(matches, ByRound);
  }

  // League schedule: properties

  /** Positions `k` and `k'` hold different ids unless they are one
      position. */
  predicate DiffAt(ids: seq<string>, k: int, k': int)
    requires 0 <= k < |ids| && 0 <= k' < |ids|
  {
    k == k' || ids[k] != ids[k']
  }

  /** No id occurs twice. */
  predicate Distinct(ids: seq<string>) {
    forall k, k' | 0 <= k < |ids| && 0 <= k' < |ids| :: DiffAt(ids, k, k')
  }

  /** `m` is a match between `x` and `y`, either way round. */
  predicate Meets(m: Match, x: string, y: string) {
    (m.teamAId == x && m.teamBId == y) || (m.teamAId == y && m.teamBId == x)
  }

  predicate Plays(m: Match, x: string) {
    m.teamAId == x || m.teamBId == x
  }

  lemma {:induction false} FixturesLength(ids: seq<string>, rounds: nat)
    requires |ids| >= 2 && rounds <= |ids| - 1
    ensures |Fixtures(ids, rounds)| == rounds * Half(|ids|)
    decreases rounds
  {
    if rounds > 0 {
      FixturesLength(ids, rounds - 1);
      assert (rounds - 1) * Half(|ids|) + Half(|ids|) == rounds * Half(|ids|);
    }
  }

  /** Later rounds only append. */
  lemma {:induction false} FixturesPrefix(ids: seq<string>, r: nat, rounds: nat)
    requires |ids| >= 2 && r <= rounds <= |ids| - 1
    ensures |Fixtures(ids, r)| <= |Fixtures(ids, rounds)|
    ensures forall k | 0 <= k < |Fixtures(ids, r)| :: Fixtures(ids, rounds)[k] == Fixtures(ids, r)[k]
    decreases rounds - r
  {
    if r < rounds {
      FixturesPrefix(ids, r, rounds - 1);
    }
  }

  /** Slot `i` of round `r` follows the matches of the earlier rounds. */
  lemma FixturesAt(ids: seq<string>, rounds: nat, r: nat, i: nat)
    requires |ids| >= 2 && rounds <= |ids| - 1 && r < rounds && i < Half(|ids|)
    ensures |Fixtures(ids, r)| + i < |Fixtures(ids, rounds)|
    ensures Fixtures(ids, rounds)[|Fixtures(ids, r)| + i] == Fixture(ids, r, i)
  {
    FixturesPrefix(ids, r + 1, rounds);
    assert Fixtures(ids, r + 1)[|Fixtures(ids, r)| + i] == RoundFixtures(ids, r)[i];
  }

  /** ... and every match is some slot. */
  lemma {:induction false} FixturesIndex(ids: seq<string>, rounds: nat, j: nat) returns (r: nat, i: nat)
    requires |ids| >= 2 && rounds <= |ids| - 1 && j < |Fixtures(ids, rounds)|
    ensures r < rounds && i < Half(|ids|) && j == |Fixtures(ids, r)| + i
    ensures Fixtures(ids, rounds)[j] == Fixture(ids, r, i)
    decreases rounds
  {
    if j < |Fixtures(ids, rounds - 1)| {
      r, i := FixturesIndex(ids, rounds - 1, j);
    } else {
      r, i := rounds - 1, j - |Fixtures(ids, rounds - 1)|;
    }
  }

  /** The first `rounds` rounds: rounds 1..rounds in order, nothing played
      and no score. */
  lemma {:induction false} FixturesRounds(ids: seq<string>, rounds: nat)
    requires |ids| >= 2 && rounds <= |ids| - 1
    ensures forall j | 0 <= j < |Fixtures(ids, rounds)| ::
      var m := Fixtures(ids, rounds)[j];
      1 <= m.round <= rounds && !m.isPlayed && m.scoreA.None? && m.scoreB.None?
    ensures SortedBy(Fixtures(ids, rounds), ByRound)
    decreases rounds
  {
    if rounds > 0 {
      FixturesRounds(ids, rounds - 1);
      var f, g := Fixtures(ids, rounds - 1), RoundFixtures(ids, rounds - 1);
      assert forall j | 0 <= j < |g| :: g[j] == Fixture(ids, rounds - 1, j);
      AppendRound(f, g, rounds);
    }
  }

  /** Appending a round after the earlier ones keeps the order by round. */
  lemma AppendRound(f: seq<Match>, g: seq<Match>, round: int)
    requires SortedBy(f, ByRound) && forall j | 0 <= j < |f| :: f[j].round < round
    requires forall j | 0 <= j < |g| :: g[j].round == round
    ensures SortedBy(f + g, ByRound)
  {
    var all := f + g;
    forall j, j' | 0 <= j < j' < |all| ensures !Ahead(ByRound(all[j']), ByRound(all[j])) {
      if j' < |f| {
        assert all[j] == f[j] && all[j'] == f[j'];
      } else if j >= |f| {
        assert all[j] == g[j - |f|] && all[j'] == g[j' - |f|];
      } else {
        assert all[j] == f[j] && all[j'] == g[j' - |f|];
      }
    }
  }

  /** The final sort by round leaves the schedule as pushed. */
  lemma LeagueInPushOrder(ids: seq<string>)
    requires |ids| >= 2
    ensures LeagueSchedule(ids) == Fixtures(ids, |ids| - 1)
  {
    FixturesSorted(ids);
    StableSortIdentity(Fixtures(ids, |ids| - 1), ByRound);
  }

  lemma FixturesSorted(ids: seq<string>)
    requires |ids| >= 2
    ensures SortedBy(Fixtures(ids, |ids| - 1), ByRound)
  {
    FixturesRounds(ids, |ids| - 1);
  }

  /** `n - 1` rounds of `n / 2` (rounded up) matches, in round order, none
      played; fewer than two teams get no matches. */
  lemma LeagueShape(ids: seq<string>)
    ensures |ids| < 2 ==> LeagueSchedule(ids) == []
    ensures |ids| >= 2 ==> |LeagueSchedule(ids)| == (|ids| - 1) * Half(|ids|)
    ensures forall j | 0 <= j < |LeagueSchedule(ids)| ::
      var m := LeagueSchedule(ids)[j];
      1 <= m.round <= |ids| - 1 && !m.isPlayed && m.scoreA.None? && m.scoreB.None?
    ensures forall j, j' | 0 <= j < j' < |LeagueSchedule(ids)| :: LeagueSchedule(ids)[j].round <= LeagueSchedule(ids)[j'].round
  {
    if |ids| >= 2 {
      LeagueInPushOrder(ids);
      FixturesLength(ids, |ids| - 1);
      FixturesRounds(ids, |ids| - 1);
    }
  }

  lemma SlotHalf(n: int, r: int, i: int)
    requires Slot(n, r, i)
    ensures 0 <= i < Half(n) && r < n - 1
  {
  }

  /** Every slot appears in the pushed schedule. */
  lemma SlotInSchedule(ids: seq<string>, r: nat, i: nat) returns (j: nat)
    requires |ids| >= 2 && Slot(|ids|, r, i)
    ensures i < Half(|ids|) && j < |Fixtures(ids, |ids| - 1)| && Fixtures(ids, |ids| - 1)[j] == Fixture(ids, r, i)
  {
    SlotHalf(|ids|, r, i);
    var rounds := |ids| - 1;
    j := |Fixtures(ids, r)| + i;
    FixturesAt(ids, rounds, r, i);
  }

  /** The sides of a fixture are the ids at its seats. */
  lemma FixtureSides(ids: seq<string>, r: nat, i: nat)
    requires |ids| >= 2 && Slot(|ids|, r, i)
    ensures 0 <= SideA(|ids|, r, i) < |ids| && 0 <= SideB(|ids|, r, i) < |ids|
    ensures Fixture(ids, r, i).teamAId == ids[SideA(|ids|, r, i)]
    ensures Fixture(ids, r, i).teamBId == ids[SideB(|ids|, r, i)]
    ensures Fixture(ids, r, i).round == r + 1
  {
    SlotDistinct(|ids|, r, i);
  }

  lemma DistinctIndex(ids: seq<string>, x: int, a: int)
    requires Distinct(ids) && 0 <= x < |ids| && 0 <= a < |ids| && ids[x] == ids[a]
    ensures x == a
  {
    assert DiffAt(ids, x, a);
  }

  /** For an even number of distinct teams no team plays itself. */
  lemma LeagueNoSelfMatch(ids: seq<string>)
    requires |ids| >= 2 && |ids| % 2 == 0 && Distinct(ids)
    ensures forall j | 0 <= j < |LeagueSchedule(ids)| :: LeagueSchedule(ids)[j].teamAId != LeagueSchedule(ids)[j].teamBId
  {
    LeagueInPushOrder(ids);
    var f := Fixtures(ids, |ids| - 1);
    forall j | 0 <= j < |f| ensures f[j].teamAId != f[j].teamBId {
      FixtureNotSelf(ids, j);
    }
  }

  lemma FixtureNotSelf(ids: seq<string>, j: nat)
    requires |ids| >= 2 && |ids| % 2 == 0 && Distinct(ids) && j < |Fixtures(ids, |ids| - 1)|
    ensures Fixtures(ids, |ids| - 1)[j].teamAId != Fixtures(ids, |ids| - 1)[j].teamBId
  {
    var r, i := FixturesIndex(ids, |ids| - 1, j);
    FixtureSides(ids, r, i);
    SlotDistinct(|ids|, r, i);
    if ids[SideA(|ids|, r, i)] == ids[SideB(|ids|, r, i)] {
      DistinctIndex(ids, SideA(|ids|, r, i), SideB(|ids|, r, i));
    }
  }

  lemma FixtureSeatsMeet(ids: seq<string>, r: nat, i: nat, a: nat, b: nat)
    requires |ids| >= 2 && |ids| % 2 == 0 && Distinct(ids) && Slot(|ids|, r, i) && a < |ids| && b < |ids|
    requires Meets(Fixture(ids, r, i), ids[a], ids[b])
    ensures Pairs(|ids|, r, i, a, b)
  {
    FixtureSides(ids, r, i);
    var x, y := SideA(|ids|, r, i), SideB(|ids|, r, i);
    if ids[x] == ids[a] {
      DistinctIndex(ids, x, a);
      DistinctIndex(ids, y, b);
    } else {
      DistinctIndex(ids, x, b);
      DistinctIndex(ids, y, a);
    }
  }

  lemma FixtureSeatPlays(ids: seq<string>, r: nat, i: nat, a: nat)
    requires |ids| >= 2 && |ids| % 2 == 0 && Distinct(ids) && Slot(|ids|, r, i) && a < |ids|
    requires Plays(Fixture(ids, r, i), ids[a])
    ensures SideA(|ids|, r, i) == a || SideB(|ids|, r, i) == a
  {
    FixtureSides(ids, r, i);
    if ids[SideA(|ids|, r, i)] == ids[a] {
      DistinctIndex(ids, SideA(|ids|, r, i), a);
    } else {
      DistinctIndex(ids, SideB(|ids|, r, i), a);
    }
  }

  /** Two matches of the pushed schedule between the same two teams are
      the same match. */
  lemma FixturesMeetOnce(ids: seq<string>, a: nat, b: nat, j: nat, j': nat)
    requires |ids| >= 2 && |ids| % 2 == 0 && Distinct(ids) && a < b < |ids|
    requires j < |Fixtures(ids, |ids| - 1)| && Meets(Fixtures(ids, |ids| - 1)[j], ids[a], ids[b])
    requires j' < |Fixtures(ids, |ids| - 1)| && Meets(Fixtures(ids, |ids| - 1)[j'], ids[a], ids[b])
    ensures j == j'
  {
    var r1, i1 := FixturesIndex(ids, |ids| - 1, j);
    var r2, i2 := FixturesIndex(ids, |ids| - 1, j');
    FixtureSeatsMeet(ids, r1, i1, a, b);
    FixtureSeatsMeet(ids, r2, i2, a, b);
    PairUnique(|ids|, r1, i1, r2, i2, a, b);
  }

  /** The match of the pushed schedule between two given teams. */
  lemma FixturesMeet(ids: seq<string>, a: nat, b: nat) returns (j: nat)
    requires |ids| >= 2 && |ids| % 2 == 0 && a < b < |ids|
    ensures j < |Fixtures(ids, |ids| - 1)| && Meets(Fixtures(ids, |ids| - 1)[j], ids[a], ids[b])
  {
    var r, i := PairExists(|ids|, a, b);
    j := SlotInSchedule(ids, r, i);
    FixtureSides(ids, r, i);
  }

  /** The circle method: for an even number of distinct teams, every two
      teams meet in exactly one match. */
  lemma LeaguePairsMeetOnce(ids: seq<string>, a: nat, b: nat)
    requires |ids| >= 2 && |ids| % 2 == 0 && Distinct(ids) && a < b < |ids|
    ensures exists j :: 0 <= j < |LeagueSchedule(ids)| && Meets(LeagueSchedule(ids)[j], ids[a], ids[b])
    ensures forall j, j' |
      && 0 <= j < |LeagueSchedule(ids)| && Meets(LeagueSchedule(ids)[j], ids[a], ids[b])
      && 0 <= j' < |LeagueSchedule(ids)| && Meets(LeagueSchedule(ids)[j'], ids[a], ids[b])
      :: j == j'
  {
    LeagueInPushOrder(ids);
    var f := Fixtures(ids, |ids| - 1);
    var j := FixturesMeet(ids, a, b);
    forall j, j' | 0 <= j < |f| && Meets(f[j], ids[a], ids[b]) && 0 <= j' < |f| && Meets(f[j'], ids[a], ids[b])
      ensures j == j'
    {
      FixturesMeetOnce(ids, a, b, j, j');
    }
  }

  /** Two matches of one round of the pushed schedule that a team plays
      are the same match. */
  lemma FixturesPlayOnce(ids: seq<string>, round: int, a: nat, j: nat, j': nat)
    requires |ids| >= 2 && |ids| % 2 == 0 && Distinct(ids) && 1 <= round <= |ids| - 1 && a < |ids|
    requires j < |Fixtures(ids, |ids| - 1)| && Fixtures(ids, |ids| - 1)[j].round == round
    requires Plays(Fixtures(ids, |ids| - 1)[j], ids[a])
    requires j' < |Fixtures(ids, |ids| - 1)| && Fixtures(ids, |ids| - 1)[j'].round == round
    requires Plays(Fixtures(ids, |ids| - 1)[j'], ids[a])
    ensures j == j'
  {
    var i1 := FixturesSeat(ids, round, a, j);
    var i2 := FixturesSeat(ids, round, a, j');
    SlotOfIndexUnique(|ids|, round - 1, a, i1, i2);
  }

  /** A match of round `round` that a team plays sits in the slot of that
      round holding the team's seat. */
  lemma FixturesSeat(ids: seq<string>, round: int, a: nat, j: nat) returns (i: nat)
    requires |ids| >= 2 && |ids| % 2 == 0 && Distinct(ids) && 1 <= round <= |ids| - 1 && a < |ids|
    requires j < |Fixtures(ids, |ids| - 1)| && Fixtures(ids, |ids| - 1)[j].round == round
    requires Plays(Fixtures(ids, |ids| - 1)[j], ids[a])
    ensures Slot(|ids|, round - 1, i) && (SideA(|ids|, round - 1, i) == a || SideB(|ids|, round - 1, i) == a)
    ensures j == |Fixtures(ids, round - 1)| + i
  {
    var r;
    r, i := FixturesIndex(ids, |ids| - 1, j);
    FixtureSides(ids, r, i);
    FixtureSeatPlays(ids, r, i, a);
  }

  /** The match a team plays in a round of the pushed schedule. */
  lemma FixturesPlay(ids: seq<string>, round: int, a: nat) returns (j: nat)
    requires |ids| >= 2 && |ids| % 2 == 0 && 1 <= round <= |ids| - 1 && a < |ids|
    ensures j < |Fixtures(ids, |ids| - 1)| && Fixtures(ids, |ids| - 1)[j].round == round
    ensures Plays(Fixtures(ids, |ids| - 1)[j], ids[a])
  {
    var i := SlotOfIndex(|ids|, round - 1, a);
    j := SlotInSchedule(ids, round - 1, i);
    FixtureSides(ids, round - 1, i);
  }

  /** For an even number of distinct teams, every team plays exactly one
      match in every round. */
  lemma LeagueOncePerRound(ids: seq<string>, round: int, a: nat)
    requires |ids| >= 2 && |ids| % 2 == 0 && Distinct(ids) && 1 <= round <= |ids| - 1 && a < |ids|
    ensures exists j :: 0 <= j < |LeagueSchedule(ids)| && LeagueSchedule(ids)[j].round == round && Plays(LeagueSchedule(ids)[j], ids[a])
    ensures forall j, j' |
      && 0 <= j < |LeagueSchedule(ids)| && LeagueSchedule(ids)[j].round == round && Plays(LeagueSchedule(ids)[j], ids[a])
      && 0 <= j' < |LeagueSchedule(ids)| && LeagueSchedule(ids)[j'].round == round && Plays(LeagueSchedule(ids)[j'], ids[a])
      :: j == j'
  {
    LeagueInPushOrder(ids);
    var f := Fixtures(ids, |ids| - 1);
    var j := FixturesPlay(ids, round, a);
    forall j, j' |
      && 0 <= j < |f| && f[j].round == round && Plays(f[j], ids[a])
      && 0 <= j' < |f| && f[j'].round == round && Plays(f[j'], ids[a])
      ensures j == j'
    {
      FixturesPlayOnce(ids, round, a, j, j');
    }
  }

  /** Every league match is named after its round: "Vòng n". */
  lemma LeagueStage(ids: seq<string>, j: nat)
    requires j < |LeagueSchedule(ids)|
    ensures var m := LeagueSchedule(ids)[j];
      m.round >= 1 && m.stageName == Some("Vòng " + NatToString(m.round))
  {
    LeagueShape(ids);
    LeagueInPushOrder(ids);
    var r, i := FixturesIndex(ids, |ids| - 1, j);
  }

  /** For an odd number of teams the middle slot pairs a position with
      itself: in every round one team is scheduled against itself. */
  lemma LeagueOddSelfMatch(ids: seq<string>, r: nat)
    requires |ids| >= 3 && |ids| % 2 == 1 && r < |ids| - 1
    ensures exists j | 0 <= j < |LeagueSchedule(ids)| ::
      LeagueSchedule(ids)[j].round == r + 1 && LeagueSchedule(ids)[j].teamAId == LeagueSchedule(ids)[j].teamBId
  {
    LeagueInPushOrder(ids);
    var i := Middle(|ids|);
    MiddleFixture(ids, r, i);
    FixturesAt(ids, |ids| - 1, r, i);
    var j := |Fixtures(ids, r)| + i;
    assert LeagueSchedule(ids)[j] == Fixture(ids, r, i);
  }

  lemma Middle(n: int) returns (i: nat)
    requires n >= 1 && n % 2 == 1
    ensures 2 * i + 1 == n && i < Half(n)
  {
    i := (n - 1) / 2;
  }

  lemma MiddleFixture(ids: seq<string>, r: nat, i: nat)
    requires |ids| >= 2 && r <= |ids| - 1 && 2 * i + 1 == |ids| && i < Half(|ids|)
    ensures Fixture(ids, r, i).teamAId == Fixture(ids, r, i).teamBId && Fixture(ids, r, i).round == r + 1
  {
    assert |ids| - 1 - i == i;
  }
}
