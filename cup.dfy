/** The group stage of the cup in utils/tournamentLogic.ts:
    `generateCupGroups` cuts the shuffled teams into eight groups of four
    and schedules every group as a single round robin. */
module Cup {
  import opened Types
  import opened Tournament

  /** The number of groups, named A to H. */
  const GROUP_COUNT := 8

  /** `groupNames[idx]`: the letter `idx` places after A. */
  function GroupName(idx: nat): string
    requires idx < GROUP_COUNT
  {
    [('A' as int + idx) as char]
  }

  /** `slice(lo, hi)` with `lo <= hi`: bounds past the end are clamped. */
  function Slice<T>(s: seq<T>, lo: nat, hi: nat): seq<T>
    requires lo <= hi
  {
    if hi <= |s| then s[lo..hi] else if lo <= |s| then s[lo..] else []
  }

  /** The ids of group `idx`: the teams at positions `4 * idx` up to
      `4 * idx + 4` of the shuffled order, where there are any. */
  function GroupOf(shuffled: seq<Team>, idx: nat): seq<string> {
    Ids(Slice(shuffled, 4 * idx, 4 * idx + 4))
  }

  /** The group match between `a` and `b` of group `name`. */
  function GroupMatch(name: string, a: string, b: string): Match {
    Match("grp" + name + "_" + a + "_" + b, 1, a, b, None, None, false, Some("Bảng " + name))
  }

  /** The matches the inner loop pushes for team `i` of group `g`: against
      every later team. */
  function Row(name: string, g: seq<string>, i: nat): seq<Match>
    requires i < |g|
  {
    seq(|g| - 1 - i, k requires 0 <= k < |g| - 1 - i => GroupMatch(name, g[i], g[i + 1 + k]))
  }

  /** The rows of the first `i` teams of group `g`. */
  function Triangle(name: string, g: seq<string>, i: nat): seq<Match>
    requires i <= |g|
  {
    if i == 0 then [] else Triangle(name, g, i - 1) + Row(name, g, i - 1)
  }

  function GroupMatches(name: string, g: seq<string>): seq<Match> {
    Triangle(name, g, |g|)
  }

  /** The matches of the first `k` groups, in the order they are pushed. */
  function CupMatches(shuffled: seq<Team>, k: nat): seq<Match>
    requires k <= GROUP_COUNT
  {
    if k == 0 then [] else CupMatches(shuffled, k - 1) + GroupMatches(GroupName(k - 1), GroupOf(shuffled, k - 1))
  }

  /** The `groups` record after the first `k` groups. */
  function CupGroups(shuffled: seq<Team>, k: nat): map<string, seq<string>>
    requires k <= GROUP_COUNT
  {
    if k == 0 then map[] else CupGroups(shuffled, k - 1)[GroupName(k - 1) := GroupOf(shuffled, k - 1)]
  }

  // ---------------------------------------------------------------------
  // generateCupGroups
  // ---------------------------------------------------------------------

  /** The inner loop: team `i` of the group against every later team. */
  method PushRow(name: string, g: seq<string>, i: nat, matches0: seq<Match>) returns (matches: seq<Match>)
    requires i < |g|
    ensures matches == matches0 + Row(name, g, i)
  {
    matches := matches0;
    var j := i + 1;
    while j < |g|
      invariant i + 1 <= j <= |g|
      invariant matches == matches0 + Row(name, g, i)[..j - i - 1]
    {
      assert Row(name, g, i)[..j - i] == Row(name, g, i)[..j - i - 1] + [GroupMatch(name, g[i], g[j])];
      matches := matches + [GroupMatch(name, g[i], g[j])];
      j := j + 1;
    }
    assert Row(name, g, i)[..j - i - 1] == Row(name, g, i);
  }

  /** Both loops for one group. */
  method PushGroup(name: string, g: seq<string>, matches0: seq<Match>) returns (matches: seq<Match>)
    ensures matches == matches0 + GroupMatches(name, g)
  {
    matches := matches0;
    var i := 0;
    while i < |g|
      invariant 0 <= i <= |g|
      invariant matches == matches0 + Triangle(name, g, i)
    {
      matches := PushRow(name, g, i, matches);
      Regroup(matches0, Triangle(name, g, i), Row(name, g, i));
      i := i + 1;
    }
  }

  /** One group of the `forEach`: record its ids and push its matches. */
  method AddGroup(shuffled: seq<Team>, idx: nat, groups0: map<string, seq<string>>, matches0: seq<Match>)
    returns (groups: map<string, seq<string>>, matches: seq<Match>)
    requires idx < GROUP_COUNT && groups0 == CupGroups(shuffled, idx) && matches0 == CupMatches(shuffled, idx)
    ensures groups == CupGroups(shuffled, idx + 1) && matches == CupMatches(shuffled, idx + 1)
  {
    var name := GroupName(idx);
    var groupTeams := GroupOf(shuffled, idx);
    groups := groups0[name := groupTeams];
    matches := PushGroup(name, groupTeams, matches0);
  }

  /** `generateCupGroups`, with the random shuffle given as `shuffled`, a
      reordering of `teams`. */
  method GenerateCupGroups(teams: seq<Team>, shuffled: seq<Team>) returns (groups: map<string, seq<string>>, matches: seq<Match>)
    requires multiset(shuffled) == multiset(teams)
    ensures groups == CupGroups(shuffled, GROUP_COUNT)
    ensures matches == CupMatches(shuffled, GROUP_COUNT)
  {
    groups := map[];
    matches := [];
    var idx := 0;
    while idx < GROUP_COUNT
      invariant 0 <= idx <= GROUP_COUNT
      invariant groups == CupGroups(shuffled, idx) && matches == CupMatches(shuffled, idx)
    {
      groups, matches := AddGroup(shuffled, idx, groups, matches);
      idx := idx + 1;
    }
  }

  // Group stage: properties

  /** Row `i` holds the matches of team `i` against every later team. */
  lemma RowMembers(name: string, g: seq<string>, i: nat, m: Match)
    requires i < |g|
    ensures m in Row(name, g, i) <==> exists b | i < b < |g| :: m == GroupMatch(name, g[i], g[b])
  {
    if m in Row(name, g, i) {
      var k :| 0 <= k < |Row(name, g, i)| && Row(name, g, i)[k] == m;
      assert m == GroupMatch(name, g[i], g[i + 1 + k]);
    }
    if b :| i < b < |g| && m == GroupMatch(name, g[i], g[b]) {
      assert Row(name, g, i)[b - i - 1] == m;
    }
  }

  /** The first `i` rows hold exactly the pairs `a < b` with `a < i`. */
  lemma {:induction false} TriangleMembers(name: string, g: seq<string>, i: nat, m: Match)
    requires i <= |g|
    ensures m in Triangle(name, g, i) <==> exists a, b | 0 <= a < b < |g| && a < i :: m == GroupMatch(name, g[a], g[b])
    decreases i
  {
    if i > 0 {
      TriangleMembers(name, g, i - 1, m);
      RowMembers(name, g, i - 1, m);
    }
  }

  /** A group's matches are its pairs `i < j`, each once as `grp<name>`
      with the ids in group order. */
  lemma GroupMatchesMembers(name: string, g: seq<string>, m: Match)
    ensures m in GroupMatches(name, g) <==> exists a, b | 0 <= a < b < |g| :: m == GroupMatch(name, g[a], g[b])
  {
    TriangleMembers(name, g, |g|, m);
  }

  /** A group of four plays six matches. */
  lemma GroupOfFourLength(name: string, g: seq<string>)
    requires |g| == 4
    ensures |GroupMatches(name, g)| == 6
  {
    assert |Triangle(name, g, 1)| == 3;
    assert |Triangle(name, g, 2)| == 5;
    assert |Triangle(name, g, 3)| == 6;
  }

  /** With enough teams, group `idx` holds the four ids at positions
      `4 * idx .. 4 * idx + 3`. */
  lemma GroupOfFull(shuffled: seq<Team>, idx: nat)
    requires 4 * idx + 4 <= |shuffled|
    ensures |GroupOf(shuffled, idx)| == 4
    ensures forall y | 0 <= y < 4 :: GroupOf(shuffled, idx)[y] == shuffled[4 * idx + y].id
  {
  }

  /** With 32 teams the first `k` groups schedule `6 * k` matches. */
  lemma {:induction false} CupMatchesLength(shuffled: seq<Team>, k: nat)
    requires |shuffled| == 32 && k <= GROUP_COUNT
    ensures |CupMatches(shuffled, k)| == 6 * k
    decreases k
  {
    if k > 0 {
      CupMatchesLength(shuffled, k - 1);
      GroupOfFull(shuffled, k - 1);
      GroupOfFourLength(GroupName(k - 1), GroupOf(shuffled, k - 1));
    }
  }

  /** `m` is the match of a pair `a < b` of group `x`. */
  predicate InGroup(shuffled: seq<Team>, x: nat, m: Match)
    requires x < GROUP_COUNT
  {
    var g := GroupOf(shuffled, x);
    exists a, b | 0 <= a < b < |g| :: m == GroupMatch(GroupName(x), g[a], g[b])
  }

  /** Every match of the cup schedule is a pair of some group, ... */
  lemma {:induction false} CupMatchGroup(shuffled: seq<Team>, k: nat, m: Match) returns (x: nat)
    requires k <= GROUP_COUNT && m in CupMatches(shuffled, k)
    ensures x < k && InGroup(shuffled, x, m)
    decreases k
  {
    var gm := GroupMatches(GroupName(k - 1), GroupOf(shuffled, k - 1));
    if m in gm {
      GroupMatchesMembers(GroupName(k - 1), GroupOf(shuffled, k - 1), m);
      x := k - 1;
    } else {
      x := CupMatchGroup(shuffled, k - 1, m);
    }
  }

  /** Later groups only append. */
  lemma {:induction false} CupMatchesGrow(shuffled: seq<Team>, j: nat, k: nat)
    requires j <= k <= GROUP_COUNT
    ensures forall m | m in CupMatches(shuffled, j) :: m in CupMatches(shuffled, k)
    decreases k - j
  {
    if j < k {
      CupMatchesGrow(shuffled, j, k - 1);
    }
  }

  /** ... and every pair of every group is scheduled. */
  lemma GroupPairScheduled(shuffled: seq<Team>, k: nat, x: nat, a: nat, b: nat)
    requires x < k <= GROUP_COUNT && a < b < |GroupOf(shuffled, x)|
    ensures GroupMatch(GroupName(x), GroupOf(shuffled, x)[a], GroupOf(shuffled, x)[b]) in CupMatches(shuffled, k)
  {
    var g := GroupOf(shuffled, x);
    var m := GroupMatch(GroupName(x), g[a], g[b]);
    GroupMatchesMembers(GroupName(x), g, m);
    assert m in CupMatches(shuffled, x + 1);
    CupMatchesGrow(shuffled, x + 1, k);
  }

  /** The cup schedule is exactly the pairs `i < j` of every group. */
  lemma CupMatchesMembers(shuffled: seq<Team>, m: Match)
    ensures m in CupMatches(shuffled, GROUP_COUNT) <==> exists x | 0 <= x < GROUP_COUNT :: InGroup(shuffled, x, m)
  {
    if m in CupMatches(shuffled, GROUP_COUNT) {
      var x := CupMatchGroup(shuffled, GROUP_COUNT, m);
    }
    if x :| 0 <= x < GROUP_COUNT && InGroup(shuffled, x, m) {
      var g := GroupOf(shuffled, x);
      var a, b :| 0 <= a < b < |g| && m == GroupMatch(GroupName(x), g[a], g[b]);
      GroupPairScheduled(shuffled, GROUP_COUNT, x, a, b);
    }
  }

  /** With 32 teams: 48 matches, all of round 1, unplayed, without scores
      and staged as "Bảng" and a group name. */
  lemma CupSchedule(shuffled: seq<Team>)
    requires |shuffled| == 32
    ensures |CupMatches(shuffled, GROUP_COUNT)| == 48
    ensures forall m | m in CupMatches(shuffled, GROUP_COUNT) ::
      && m.round == 1 && !m.isPlayed && m.scoreA.None? && m.scoreB.None?
      && exists x | 0 <= x < GROUP_COUNT :: m.stageName == Some("Bảng " + GroupName(x))
  {
    CupMatchesLength(shuffled, GROUP_COUNT);
    forall m | m in CupMatches(shuffled, GROUP_COUNT)
      ensures && m.round == 1 && !m.isPlayed && m.scoreA.None? && m.scoreB.None?
              && exists x | 0 <= x < GROUP_COUNT :: m.stageName == Some("Bảng " + GroupName(x))
    {
      var x := CupMatchGroup(shuffled, GROUP_COUNT, m);
    }
  }

  /** Group names differ. */
  lemma GroupNamesDiffer(x: nat, y: nat)
    requires x < GROUP_COUNT && y < GROUP_COUNT && x != y
    ensures GroupName(x) != GroupName(y)
  {
    assert GroupName(x)[0] != GroupName(y)[0];
  }

  /** Group `x` of the `groups` record is group `x` of the shuffled order. */
  lemma {:induction false} CupGroupsAt(shuffled: seq<Team>, k: nat, x: nat)
    requires x < k <= GROUP_COUNT
    ensures GroupName(x) in CupGroups(shuffled, k) && CupGroups(shuffled, k)[GroupName(x)] == GroupOf(shuffled, x)
    decreases k
  {
    if x < k - 1 {
      CupGroupsAt(shuffled, k - 1, x);
      GroupNamesDiffer(x, k - 1);
    }
  }

  /** ... and the record has no other key. */
  lemma {:induction false} CupGroupsKeys(shuffled: seq<Team>, k: nat, name: string)
    requires 1 <= k <= GROUP_COUNT && name in CupGroups(shuffled, k)
    ensures exists x | 0 <= x < k :: name == GroupName(x)
    decreases k
  {
    if k > 1 && name != GroupName(k - 1) {
      CupGroupsKeys(shuffled, k - 1, name);
    }
  }

  /** With 32 teams every team lands in the group of its position in the
      shuffled order, as one of its four ids. */
  lemma CupGroupsCover(teams: seq<Team>, shuffled: seq<Team>, t: Team)
    requires multiset(shuffled) == multiset(teams) && |teams| == 32 && t in teams
    ensures exists x, y | 0 <= x < GROUP_COUNT && 0 <= y < 4 ::
      var groups := CupGroups(shuffled, GROUP_COUNT);
      GroupName(x) in groups && y < |groups[GroupName(x)]| && groups[GroupName(x)][y] == t.id
  {
    assert |shuffled| == 32 by {
      assert |multiset(shuffled)| == |multiset(teams)|;
    }
    assert t in multiset(shuffled);
    var k :| 0 <= k < |shuffled| && shuffled[k] == t;
    var x, y := k / 4, k % 4;
    CupGroupsAt(shuffled, GROUP_COUNT, x);
    GroupOfFull(shuffled, x);
    assert GroupOf(shuffled, x)[y] == t.id;
  }
}
