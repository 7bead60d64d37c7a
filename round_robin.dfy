/** The index arithmetic behind the circle method of
    `generateLeagueSchedule` (utils/tournamentLogic.ts): position 0 stays
    fixed and every round moves the last entry to position 1, so after `r`
    rotations each position holds a known original index. Round `r` pairs
    positions `i` and `n - 1 - i`. */
module RoundRobin {

  /** The original index found at position `k` after `r` rotations of a
      list of `n` entries (valid for up to a full turn, `r <= n - 1`). */
  function Seat(n: int, r: int, k: int): int {
    if k == 0 then 0 else if k > r then k - r else k - r + (n - 1)
  }

  /** A valid rotation count and position. */
  predicate InRange(n: int, r: int, k: int) {
    2 <= n && 0 <= r <= n - 1 && 0 <= k < n
  }

  /** The position an original index occupies after `r` rotations. */
  function SeatOf(n: int, r: int, a: int): int {
    if a == 0 then 0 else if a + r <= n - 1 then a + r else a + r - (n - 1)
  }

  lemma SeatRange(n: int, r: int, k: int)
    requires InRange(n, r, k)
    ensures 0 <= Seat(n, r, k) < n
    ensures Seat(n, r, k) == 0 <==> k == 0
  {
  }

  /** Each position holds a different original index. */
  lemma SeatInjective(n: int, r: int, k: int, k': int)
    requires InRange(n, r, k) && InRange(n, r, k')
    requires Seat(n, r, k) == Seat(n, r, k')
    ensures k == k'
  {
  }

  /** `SeatOf` undoes `Seat`. */
  lemma SeatOfInverse(n: int, r: int, a: int)
    requires InRange(n, r, a)
    ensures InRange(n, r, SeatOf(n, r, a)) && Seat(n, r, SeatOf(n, r, a)) == a
  {
  }

  /** Moving the last entry to position 1 advances every position by one
      rotation. */
  lemma SeatRotate(n: int, r: int, k: int)
    requires 2 <= n && 0 <= r < n - 1 && 0 <= k < n
    ensures Seat(n, r + 1, k) == if k == 0 then Seat(n, r, 0) else if k == 1 then Seat(n, r, n - 1) else Seat(n, r, k - 1)
  {
  }

  /** No rotation yet: every entry is where it started. */
  lemma SeatStart(n: int, k: int)
    requires 2 <= n && 0 <= k < n
    ensures Seat(n, 0, k) == k
  {
  }

  // ---------------------------------------------------------------------
  // Slots: the pairs of one round
  // ---------------------------------------------------------------------

  /** Slot `i` of round `r` pairs positions `i` and `n - 1 - i`. */
  predicate Slot(n: int, r: int, i: int) {
    2 <= n && n % 2 == 0 && 0 <= r < n - 1 && 0 <= i && 2 * i < n
  }

  function SideA(n: int, r: int, i: int): int {
    Seat(n, r, i)
  }

  function SideB(n: int, r: int, i: int): int {
    Seat(n, r, n - 1 - i)
  }

  /** The slot holds two different original indices. */
  lemma SlotDistinct(n: int, r: int, i: int)
    requires Slot(n, r, i)
    ensures 0 <= SideA(n, r, i) < n && 0 <= SideB(n, r, i) < n
    ensures SideA(n, r, i) != SideB(n, r, i)
  {
    SeatRange(n, r, i);
    SeatRange(n, r, n - 1 - i);
    if SideA(n, r, i) == SideB(n, r, i) {
      SeatInjective(n, r, i, n - 1 - i);
    }
  }

  /** Every index plays in some slot of every round. */
  lemma SlotOfIndex(n: int, r: int, a: int) returns (i: int)
    requires 2 <= n && n % 2 == 0 && 0 <= r < n - 1 && 0 <= a < n
    ensures Slot(n, r, i) && (SideA(n, r, i) == a || SideB(n, r, i) == a)
  {
    var k := SeatOf(n, r, a);
    SeatOfInverse(n, r, a);
    if 2 * k < n {
      i := k;
    } else {
      i := n - 1 - k;
    }
  }

  /** ... and in only one. */
  lemma SlotOfIndexUnique(n: int, r: int, a: int, i: int, i': int)
    requires Slot(n, r, i) && Slot(n, r, i')
    requires SideA(n, r, i) == a || SideB(n, r, i) == a
    requires SideA(n, r, i') == a || SideB(n, r, i') == a
    ensures i == i'
  {
    var k := if SideA(n, r, i) == a then i else n - 1 - i;
    var k' := if SideA(n, r, i') == a then i' else n - 1 - i';
    SeatInjective(n, r, k, k');
  }

  /** The slot's two indices, unordered. */
  predicate Pairs(n: int, r: int, i: int, a: int, b: int) {
    (SideA(n, r, i) == a && SideB(n, r, i) == b) || (SideA(n, r, i) == b && SideB(n, r, i) == a)
  }

  /** A sum that identifies the round of a pair without the fixed entry. */
  lemma SlotSum(n: int, r: int, i: int)
    requires Slot(n, r, i) && i > 0
    ensures var s := SideA(n, r, i) + SideB(n, r, i) + 2 * r;
      s == n - 1 || s == 2 * (n - 1) || s == 3 * (n - 1)
  {
  }

  /** The fixed entry plays only in slot 0, against the entry that
      identifies the round. */
  lemma FixedSlot(n: int, r: int, i: int)
    requires Slot(n, r, i) && (SideA(n, r, i) == 0 || SideB(n, r, i) == 0)
    ensures i == 0 && SideB(n, r, i) == n - 1 - r
  {
    SeatRange(n, r, i);
    SeatRange(n, r, n - 1 - i);
  }

  /** With an odd number of rounds, a sum with a double round count fixes
      the round. */
  lemma RoundOfSum(n: int, s: int, r: int, r': int)
    requires 2 <= n && n % 2 == 0 && 0 <= r < n - 1 && 0 <= r' < n - 1
    requires s + 2 * r == n - 1 || s + 2 * r == 2 * (n - 1) || s + 2 * r == 3 * (n - 1)
    requires s + 2 * r' == n - 1 || s + 2 * r' == 2 * (n - 1) || s + 2 * r' == 3 * (n - 1)
    ensures r == r'
  {
    var h := n / 2;
    assert n == 2 * h;
  }

  /** The same pair never comes up in two slots. */
  lemma PairUnique(n: int, r: int, i: int, r': int, i': int, a: int, b: int)
    requires Slot(n, r, i) && Slot(n, r', i')
    requires Pairs(n, r, i, a, b) && Pairs(n, r', i', a, b)
    ensures r == r' && i == i'
  {
    if a == 0 || b == 0 {
      FixedSlot(n, r, i);
      FixedSlot(n, r', i');
    } else {
      SeatRange(n, r, i);
      SeatRange(n, r', i');
      SlotSum(n, r, i);
      SlotSum(n, r', i');
      RoundOfSum(n, a + b, r, r');
      SlotOfIndexUnique(n, r, a, i, i');
    }
  }

  /** The round in which two non-fixed indices with sum `s` meet. */
  function RoundFor(n: int, s: int): (r: int)
    requires 2 <= n && n % 2 == 0 && 2 < s < 2 * (n - 1)
    ensures 0 <= r < n - 1
    ensures s + 2 * r == n - 1 || s + 2 * r == 2 * (n - 1) || s + 2 * r == 3 * (n - 1)
  {
    var m := n - 1;
    if s % 2 == 0 then m - s / 2
    else if s <= m then (m - s) / 2
    else (3 * m - s) / 2
  }

  /** In that round the two indices sit at mirrored positions. */
  lemma MirroredPositions(n: int, r: int, a: int, b: int)
    requires 2 <= n && 0 <= r < n - 1 && 0 < a < b < n
    requires var s := a + b + 2 * r; s == n - 1 || s == 2 * (n - 1) || s == 3 * (n - 1)
    ensures SeatOf(n, r, a) + SeatOf(n, r, b) == n - 1
  {
  }

  /** Every pair of different indices comes up in some slot. */
  lemma PairExists(n: int, a: int, b: int) returns (r: int, i: int)
    requires 2 <= n && n % 2 == 0 && 0 <= a < b < n
    ensures Slot(n, r, i) && Pairs(n, r, i, a, b)
  {
    if a == 0 {
      r, i := n - 1 - b, 0;
    } else {
      r := RoundFor(n, a + b);
      var ka, kb := SeatOf(n, r, a), SeatOf(n, r, b);
      SeatOfInverse(n, r, a);
      SeatOfInverse(n, r, b);
      MirroredPositions(n, r, a, b);
      i := if ka < kb then ka else kb;
    }
  }
}
