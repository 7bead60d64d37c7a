/** What the move rules of utils/gameLogic.ts mean, proved about the
    specification `GameLogic.ValidMoves`: for each piece kind, an exact
    characterisation of its destinations (both directions), and from those
    the facts the engine relies on. */
module MoveRules {
  import opened Types
  import opened GameLogic

  function Abs(x: int): nat {
    if x < 0 then -x else x
  }

  predicate StepTo(p: Piece, d: (int, int), t: Pos) {
    t == Pos(p.pos.r + d.0, p.pos.c + d.1)
  }

  // ---------------------------------------------------------------------
  // General and Advisor
  // ---------------------------------------------------------------------

  lemma {:induction false} PalaceMovesMember(g: Grid, p: Piece, steps: seq<(int, int)>, t: Pos)
    ensures t in PalaceMoves(g, p, steps) <==>
      (exists k :: 0 <= k < |steps| && StepTo(p, steps[k], t)) && InPalace(p.color, t.r, t.c) && IsTarget(g, p.color, t.r, t.c)
    decreases |steps|
  {
    if steps != [] {
      var n := |steps| - 1;
      var init := steps[..n];
      PalaceMovesMember(g, p, init, t);
      assert forall k :: 0 <= k < n ==> init[k] == steps[k];
      if exists k :: 0 <= k < |steps| && StepTo(p, steps[k], t) {
        var k :| 0 <= k < |steps| && StepTo(p, steps[k], t);
        if k < n {
          assert StepTo(p, init[k], t);
        }
      }
    }
  }

  /** General: exactly the orthogonal single steps that stay in the palace
      and do not land on an own piece. */
  lemma GeneralRule(g: Grid, p: Piece, t: Pos)
    requires p.kind == General
    ensures t in ValidMoves(g, p) <==>
      Abs(t.r - p.pos.r) + Abs(t.c - p.pos.c) == 1 && InPalace(p.color, t.r, t.c) && IsTarget(g, p.color, t.r, t.c)
  {
    PalaceMovesMember(g, p, GENERAL_STEPS, t);
    var dr, dc := t.r - p.pos.r, t.c - p.pos.c;
    if Abs(dr) + Abs(dc) == 1 {
      var k := if dr == -1 then 0 else if dr == 1 then 1 else if dc == -1 then 2 else 3;
      assert StepTo(p, GENERAL_STEPS[k], t);
    }
  }

  /** Advisor: exactly the diagonal single steps that stay in the palace and
      do not land on an own piece. */
  lemma AdvisorRule(g: Grid, p: Piece, t: Pos)
    requires p.kind == Advisor
    ensures t in ValidMoves(g, p) <==>
      Abs(t.r - p.pos.r) == 1 && Abs(t.c - p.pos.c) == 1 && InPalace(p.color, t.r, t.c) && IsTarget(g, p.color, t.r, t.c)
  {
    PalaceMovesMember(g, p, ADVISOR_STEPS, t);
    var dr, dc := t.r - p.pos.r, t.c - p.pos.c;
    if Abs(dr) == 1 && Abs(dc) == 1 {
      var k := if dr == -1 && dc == -1 then 0 else if dr == -1 then 1 else if dc == -1 then 2 else 3;
      assert StepTo(p, ADVISOR_STEPS[k], t);
    }
  }

  // ---------------------------------------------------------------------
  // Elephant
  // ---------------------------------------------------------------------

  /** The elephant's own half of the board: rows 5..9 for Red, 0..4 for Black. */
  predicate OwnSide(color: Color, r: int) {
    if color == Red then r >= 5 else r <= 4
  }

  predicate ElephantOk(g: Grid, p: Piece, d: (int, int), t: Pos) {
    var eyeR, eyeC := p.pos.r + d.0 / 2, p.pos.c + d.1 / 2;
    StepTo(p, d, t) && OwnSide(p.color, t.r) && IsValidPos(eyeR, eyeC) && g[eyeR][eyeC].None?
    && IsTarget(g, p.color, t.r, t.c)
  }

  lemma ElephantStepMember(g: Grid, p: Piece, moves: seq<Pos>, d: (int, int), t: Pos)
    ensures t in ElephantStep(g, p, moves, d) <==> t in moves || ElephantOk(g, p, d, t)
  {
  }

  lemma {:induction false} ElephantMovesMember(g: Grid, p: Piece, steps: seq<(int, int)>, t: Pos)
    ensures t in ElephantMoves(g, p, steps) <==> exists k :: 0 <= k < |steps| && ElephantOk(g, p, steps[k], t)
    decreases |steps|
  {
    if steps != [] {
      var n := |steps| - 1;
      var init := steps[..n];
      ElephantMovesMember(g, p, init, t);
      ElephantStepMember(g, p, ElephantMoves(g, p, init), steps[n], t);
      assert forall k :: 0 <= k < n ==> init[k] == steps[k];
      if exists k :: 0 <= k < |steps| && ElephantOk(g, p, steps[k], t) {
        var k :| 0 <= k < |steps| && ElephantOk(g, p, steps[k], t);
        if k < n {
          assert ElephantOk(g, p, init[k], t);
        }
      }
    }
  }

  /** The elephant's destinations in closed form: a (+-2, +-2) step whose eye
      (the midpoint) is on the board and empty, that stays on the own side of
      the river and does not land on an own piece. */
  predicate ElephantTarget(g: Grid, p: Piece, t: Pos) {
    Abs(t.r - p.pos.r) == 2 && Abs(t.c - p.pos.c) == 2 && OwnSide(p.color, t.r)
    && IsValidPos((p.pos.r + t.r) / 2, (p.pos.c + t.c) / 2) && g[(p.pos.r + t.r) / 2][(p.pos.c + t.c) / 2].None?
    && IsTarget(g, p.color, t.r, t.c)
  }

  /** The entry of ELEPHANT_STEPS that leads from p to t. */
  function ElephantIndex(p: Piece, t: Pos): (k: nat)
    ensures k < 4
  {
    var dr, dc := t.r - p.pos.r, t.c - p.pos.c;
    if dr == -2 && dc == -2 then 0 else if dr == -2 then 1 else if dc == -2 then 2 else 3
  }

  lemma ElephantOkSound(g: Grid, p: Piece, k: int, t: Pos)
    requires 0 <= k < 4 && ElephantOk(g, p, ELEPHANT_STEPS[k], t)
    ensures ElephantTarget(g, p, t)
  {
    assert p.pos.r + ELEPHANT_STEPS[k].0 / 2 == (p.pos.r + t.r) / 2;
    assert p.pos.c + ELEPHANT_STEPS[k].1 / 2 == (p.pos.c + t.c) / 2;
  }

  lemma ElephantOkComplete(g: Grid, p: Piece, t: Pos)
    requires ElephantTarget(g, p, t)
    ensures ElephantOk(g, p, ELEPHANT_STEPS[ElephantIndex(p, t)], t)
  {
    var k := ElephantIndex(p, t);
    assert StepTo(p, ELEPHANT_STEPS[k], t);
    assert p.pos.r + ELEPHANT_STEPS[k].0 / 2 == (p.pos.r + t.r) / 2;
    assert p.pos.c + ELEPHANT_STEPS[k].1 / 2 == (p.pos.c + t.c) / 2;
  }

  /** Elephant: exactly the (+-2, +-2) steps whose eye (the midpoint) is on the
      board and empty, that stay on the own side of the river and do not land
      on an own piece. */
  lemma ElephantRule(g: Grid, p: Piece, t: Pos)
    requires p.kind == Elephant
    ensures t in ValidMoves(g, p) <==> ElephantTarget(g, p, t)
  {
    assert ValidMoves(g, p) == ElephantMoves(g, p, ELEPHANT_STEPS);
    ElephantMovesMember(g, p, ELEPHANT_STEPS, t);
    if t in ValidMoves(g, p) {
      var k :| 0 <= k < |ELEPHANT_STEPS| && ElephantOk(g, p, ELEPHANT_STEPS[k], t);
      ElephantOkSound(g, p, k, t);
    }
    if ElephantTarget(g, p, t) {
      ElephantOkComplete(g, p, t);
    }
  }

  // ---------------------------------------------------------------------
  // Horse
  // ---------------------------------------------------------------------

  predicate HorseOk(g: Grid, p: Piece, j: Jump, t: Pos) {
    var legR, legC := p.pos.r + j.legR, p.pos.c + j.legC;
    t == Pos(p.pos.r + j.dr, p.pos.c + j.dc) && IsValidPos(legR, legC) && g[legR][legC].None?
    && IsTarget(g, p.color, t.r, t.c)
  }

  lemma {:induction false} HorseMovesMember(g: Grid, p: Piece, jumps: seq<Jump>, t: Pos)
    ensures t in HorseMoves(g, p, jumps) <==> exists k :: 0 <= k < |jumps| && HorseOk(g, p, jumps[k], t)
    decreases |jumps|
  {
    if jumps != [] {
      var n := |jumps| - 1;
      var init := jumps[..n];
      HorseMovesMember(g, p, init, t);
      assert forall k :: 0 <= k < n ==> init[k] == jumps[k];
      if exists k :: 0 <= k < |jumps| && HorseOk(g, p, jumps[k], t) {
        var k :| 0 <= k < |jumps| && HorseOk(g, p, jumps[k], t);
        if k < n {
          assert HorseOk(g, p, init[k], t);
        }
      }
    }
  }

  /** The horse's leg: the cell next to the horse along the jump's long axis. */
  function HorseLeg(p: Piece, t: Pos): Pos {
    if Abs(t.r - p.pos.r) == 2 then Pos((p.pos.r + t.r) / 2, p.pos.c)
    else Pos(p.pos.r, (p.pos.c + t.c) / 2)
  }

  /** The horse's destinations in closed form: one of the eight L-jumps whose
      leg cell is on the board and empty, not landing on an own piece. */
  predicate HorseTarget(g: Grid, p: Piece, t: Pos) {
    ((Abs(t.r - p.pos.r) == 2 && Abs(t.c - p.pos.c) == 1) || (Abs(t.r - p.pos.r) == 1 && Abs(t.c - p.pos.c) == 2))
    && OnBoard(HorseLeg(p, t)) && At(g, HorseLeg(p, t)).None?
    && IsTarget(g, p.color, t.r, t.c)
  }

  /** The entry of HORSE_JUMPS that leads from p to t. */
  function HorseIndex(p: Piece, t: Pos): (k: nat)
    ensures k < 8
  {
    var dr, dc := t.r - p.pos.r, t.c - p.pos.c;
    if dr == -2 then (if dc == -1 then 0 else 1)
    else if dr == 2 then (if dc == -1 then 2 else 3)
    else if dr == -1 then (if dc == -2 then 4 else 5)
    else (if dc == -2 then 6 else 7)
  }

  lemma HorseOkSound(g: Grid, p: Piece, k: int, t: Pos)
    requires 0 <= k < 8 && HorseOk(g, p, HORSE_JUMPS[k], t)
    ensures HorseTarget(g, p, t)
  {
    assert HorseLeg(p, t) == Pos(p.pos.r + HORSE_JUMPS[k].legR, p.pos.c + HORSE_JUMPS[k].legC);
  }

  lemma HorseOkComplete(g: Grid, p: Piece, t: Pos)
    requires HorseTarget(g, p, t)
    ensures HorseOk(g, p, HORSE_JUMPS[HorseIndex(p, t)], t)
  {
    var k := HorseIndex(p, t);
    assert t == Pos(p.pos.r + HORSE_JUMPS[k].dr, p.pos.c + HORSE_JUMPS[k].dc);
    assert HorseLeg(p, t) == Pos(p.pos.r + HORSE_JUMPS[k].legR, p.pos.c + HORSE_JUMPS[k].legC);
  }

  /** Horse: exactly the eight L-jumps whose leg cell is on the board and
      empty, and that do not land on an own piece. */
  lemma HorseRule(g: Grid, p: Piece, t: Pos)
    requires p.kind == Horse
    ensures t in ValidMoves(g, p) <==> HorseTarget(g, p, t)
  {
    assert ValidMoves(g, p) == HorseMoves(g, p, HORSE_JUMPS);
    HorseMovesMember(g, p, HORSE_JUMPS, t);
    if t in ValidMoves(g, p) {
      var k :| 0 <= k < |HORSE_JUMPS| && HorseOk(g, p, HORSE_JUMPS[k], t);
      HorseOkSound(g, p, k, t);
    }
    if HorseTarget(g, p, t) {
      HorseOkComplete(g, p, t);
    }
  }

  // ---------------------------------------------------------------------
  // Rays: Chariot and Cannon
  // ---------------------------------------------------------------------

  /** The k-th cell of the ray that starts at (r, c) and steps by (dr, dc). */
  function RayCell(r: int, c: int, dr: int, dc: int, k: int): Pos {
    Pos(r + k * dr, c + k * dc)
  }

  /** Cells lo..hi-1 of the ray are on the board and empty. */
  predicate Clear(g: Grid, r: int, c: int, dr: int, dc: int, lo: int, hi: int) {
    forall j :: lo <= j < hi ==> OnBoard(RayCell(r, c, dr, dc, j)) && At(g, RayCell(r, c, dr, dc, j)).None?
  }

  predicate IsEnemyAt(g: Grid, color: Color, t: Pos) {
    OnBoard(t) && At(g, t).Some? && At(g, t).value.color != color
  }

  lemma RayCellShift(r: int, c: int, dr: int, dc: int, k: int)
    ensures RayCell(r, c, dr, dc, k + 1) == RayCell(r + dr, c + dc, dr, dc, k)
  {
    assert (k + 1) * dr == k * dr + dr;
    assert (k + 1) * dc == k * dc + dc;
  }

  lemma ClearShift(g: Grid, r: int, c: int, dr: int, dc: int, lo: int, hi: int)
    ensures Clear(g, r, c, dr, dc, lo + 1, hi + 1) <==> Clear(g, r + dr, c + dc, dr, dc, lo, hi)
  {
    if Clear(g, r + dr, c + dc, dr, dc, lo, hi) {
      forall j | lo + 1 <= j < hi + 1
        ensures OnBoard(RayCell(r, c, dr, dc, j)) && At(g, RayCell(r, c, dr, dc, j)).None?
      {
        RayCellShift(r, c, dr, dc, j - 1);
      }
    }
    var r1, c1 := r + dr, c + dc;
    if Clear(g, r, c, dr, dc, lo + 1, hi + 1) {
      forall j | lo <= j < hi
        ensures OnBoard(RayCell(r1, c1, dr, dc, j)) && At(g, RayCell(r1, c1, dr, dc, j)).None?
      {
        RayCellShift(r, c, dr, dc, j);
      }
    }
  }

  /** A capture target further along the ray: every cell before the k-th is
      empty and the k-th holds an enemy. */
  ghost predicate RayCapture(g: Grid, color: Color, r: int, c: int, dr: int, dc: int, t: Pos) {
    exists k :: 0 <= k && t == RayCell(r, c, dr, dc, k) && Clear(g, r, c, dr, dc, 0, k) && IsEnemyAt(g, color, t)
  }

  /** A quiet target further along the ray: the k-th cell and every cell
      before it are on the board and empty. */
  ghost predicate RayQuiet(g: Grid, r: int, c: int, dr: int, dc: int, t: Pos) {
    exists k :: 0 <= k && t == RayCell(r, c, dr, dc, k) && Clear(g, r, c, dr, dc, 0, k + 1)
  }

  lemma {:induction false} RayCaptureStep(g: Grid, color: Color, r: int, c: int, dr: int, dc: int, t: Pos)
    requires IsValidPos(r, c) && g[r][c].None?
    ensures RayCapture(g, color, r, c, dr, dc, t) <==> RayCapture(g, color, r + dr, c + dc, dr, dc, t)
  {
    if RayCapture(g, color, r, c, dr, dc, t) {
      var k :| 0 <= k && t == RayCell(r, c, dr, dc, k) && Clear(g, r, c, dr, dc, 0, k) && IsEnemyAt(g, color, t);
      assert k != 0;
      RayCellShift(r, c, dr, dc, k - 1);
      ClearShift(g, r, c, dr, dc, 0, k - 1);
      assert Clear(g, r, c, dr, dc, 1, k);
      assert t == RayCell(r + dr, c + dc, dr, dc, k - 1);
    }
    if RayCapture(g, color, r + dr, c + dc, dr, dc, t) {
      var k :| 0 <= k && t == RayCell(r + dr, c + dc, dr, dc, k) && Clear(g, r + dr, c + dc, dr, dc, 0, k) && IsEnemyAt(g, color, t);
      RayCellShift(r, c, dr, dc, k);
      ClearShift(g, r, c, dr, dc, 0, k);
      assert RayCell(r, c, dr, dc, 0) == Pos(r, c);
      assert Clear(g, r, c, dr, dc, 0, k + 1);
    }
  }

  lemma {:induction false} RayQuietStep(g: Grid, r: int, c: int, dr: int, dc: int, t: Pos)
    requires IsValidPos(r, c) && g[r][c].None?
    ensures RayQuiet(g, r, c, dr, dc, t) <==> t == Pos(r, c) || RayQuiet(g, r + dr, c + dc, dr, dc, t)
  {
    assert RayCell(r, c, dr, dc, 0) == Pos(r, c);
    if RayQuiet(g, r, c, dr, dc, t) && t != Pos(r, c) {
      var k :| 0 <= k && t == RayCell(r, c, dr, dc, k) && Clear(g, r, c, dr, dc, 0, k + 1);
      assert k != 0;
      RayCellShift(r, c, dr, dc, k - 1);
      ClearShift(g, r, c, dr, dc, 0, k);
      assert Clear(g, r, c, dr, dc, 1, k + 1);
      assert t == RayCell(r + dr, c + dc, dr, dc, k - 1);
    }
    if t == Pos(r, c) {
      assert Clear(g, r, c, dr, dc, 0, 1);
    }
    if RayQuiet(g, r + dr, c + dc, dr, dc, t) {
      var k :| 0 <= k && t == RayCell(r + dr, c + dc, dr, dc, k) && Clear(g, r + dr, c + dc, dr, dc, 0, k + 1);
      RayCellShift(r, c, dr, dc, k);
      ClearShift(g, r, c, dr, dc, 0, k + 1);
      assert Clear(g, r, c, dr, dc, 0, k + 2);
    }
  }

  lemma RayBlocked(g: Grid, color: Color, r: int, c: int, dr: int, dc: int, t: Pos)
    requires IsValidPos(r, c) && g[r][c].Some?
    ensures RayQuiet(g, r, c, dr, dc, t) == false
    ensures RayCapture(g, color, r, c, dr, dc, t) <==> t == Pos(r, c) && g[r][c].value.color != color
  {
    assert RayCell(r, c, dr, dc, 0) == Pos(r, c);
    ClearNeedsFirst(g, r, c, dr, dc);
    if RayCapture(g, color, r, c, dr, dc, t) {
      var k :| 0 <= k && t == RayCell(r, c, dr, dc, k) && Clear(g, r, c, dr, dc, 0, k) && IsEnemyAt(g, color, t);
      assert k == 0;
    }
    if t == Pos(r, c) && g[r][c].value.color != color {
      assert Clear(g, r, c, dr, dc, 0, 0);
    }
  }

  lemma RayOff(g: Grid, color: Color, r: int, c: int, dr: int, dc: int, t: Pos)
    requires !IsValidPos(r, c)
    ensures !RayQuiet(g, r, c, dr, dc, t) && !RayCapture(g, color, r, c, dr, dc, t)
  {
    assert RayCell(r, c, dr, dc, 0) == Pos(r, c);
    ClearNeedsFirst(g, r, c, dr, dc);
  }

  /** A ray whose first cell is off the board or occupied has no clear
      stretch of length one or more. */
  lemma ClearNeedsFirst(g: Grid, r: int, c: int, dr: int, dc: int)
    requires !(IsValidPos(r, c) && g[r][c].None?)
    ensures forall k | 1 <= k :: !Clear(g, r, c, dr, dc, 0, k)
  {
    assert RayCell(r, c, dr, dc, 0) == Pos(r, c);
  }

  /** One chariot ray: the empty cells before the first occupied cell, plus
      that cell when it holds an enemy. */
  lemma {:induction false} ChariotRayMember(g: Grid, color: Color, r: int, c: int, dr: int, dc: int, t: Pos)
    requires IsDir(dr, dc)
    ensures t in ChariotRay(g, color, r, c, dr, dc) <==> RayQuiet(g, r, c, dr, dc, t) || RayCapture(g, color, r, c, dr, dc, t)
    decreases RayRoom(r, c, dr, dc)
  {
    if !IsValidPos(r, c) {
      RayOff(g, color, r, c, dr, dc, t);
    } else if g[r][c].None? {
      ChariotRayMember(g, color, r + dr, c + dc, dr, dc, t);
      RayQuietStep(g, r, c, dr, dc, t);
      RayCaptureStep(g, color, r, c, dr, dc, t);
      assert !IsEnemyAt(g, color, Pos(r, c));
      if t == Pos(r, c) {
        assert !RayCapture(g, color, r + dr, c + dc, dr, dc, t) || RayCapture(g, color, r, c, dr, dc, t);
      }
    } else {
      RayBlocked(g, color, r, c, dr, dc, t);
    }
  }

  /** One cannon ray once the screen has been passed: only the first
      occupied cell, and only if it holds an enemy. */
  lemma {:induction false} CannonJumpedMember(g: Grid, color: Color, r: int, c: int, dr: int, dc: int, t: Pos)
    requires IsDir(dr, dc)
    ensures t in CannonRay(g, color, r, c, dr, dc, true) <==> RayCapture(g, color, r, c, dr, dc, t)
    decreases RayRoom(r, c, dr, dc)
  {
    if !IsValidPos(r, c) {
      RayOff(g, color, r, c, dr, dc, t);
    } else if g[r][c].None? {
      CannonJumpedMember(g, color, r + dr, c + dc, dr, dc, t);
      RayCaptureStep(g, color, r, c, dr, dc, t);
    } else {
      RayBlocked(g, color, r, c, dr, dc, t);
    }
  }

  /** A capture over exactly one screen: the s-th cell is the first
      occupied one and `t` is a capture target of the ray beyond it. */
  ghost predicate ScreenCapture(g: Grid, color: Color, r: int, c: int, dr: int, dc: int, t: Pos) {
    exists s :: 0 <= s && Clear(g, r, c, dr, dc, 0, s) && OnBoard(RayCell(r, c, dr, dc, s))
      && At(g, RayCell(r, c, dr, dc, s)).Some?
      && RayCapture(g, color, RayCell(r, c, dr, dc, s + 1).r, RayCell(r, c, dr, dc, s + 1).c, dr, dc, t)
  }

  lemma {:induction false} ScreenCaptureStep(g: Grid, color: Color, r: int, c: int, dr: int, dc: int, t: Pos)
    requires IsValidPos(r, c) && g[r][c].None?
    ensures ScreenCapture(g, color, r, c, dr, dc, t) <==> ScreenCapture(g, color, r + dr, c + dc, dr, dc, t)
  {
    if ScreenCapture(g, color, r, c, dr, dc, t) {
      var s :| 0 <= s && Clear(g, r, c, dr, dc, 0, s) && OnBoard(RayCell(r, c, dr, dc, s))
        && At(g, RayCell(r, c, dr, dc, s)).Some?
        && RayCapture(g, color, RayCell(r, c, dr, dc, s + 1).r, RayCell(r, c, dr, dc, s + 1).c, dr, dc, t);
      assert RayCell(r, c, dr, dc, 0) == Pos(r, c);
      assert s != 0;
      RayCellShift(r, c, dr, dc, s - 1);
      RayCellShift(r, c, dr, dc, s);
      ClearShift(g, r, c, dr, dc, 0, s - 1);
      assert Clear(g, r, c, dr, dc, 1, s);
      assert ScreenCapture(g, color, r + dr, c + dc, dr, dc, t) by {
        var s' := s - 1;
        assert RayCell(r + dr, c + dc, dr, dc, s' + 1) == RayCell(r, c, dr, dc, s + 1) by {
          RayCellShift(r, c, dr, dc, s' + 1);
        }
        assert Clear(g, r + dr, c + dc, dr, dc, 0, s') && OnBoard(RayCell(r + dr, c + dc, dr, dc, s'))
          && At(g, RayCell(r + dr, c + dc, dr, dc, s')).Some?;
      }
    }
    if ScreenCapture(g, color, r + dr, c + dc, dr, dc, t) {
      var s :| 0 <= s && Clear(g, r + dr, c + dc, dr, dc, 0, s) && OnBoard(RayCell(r + dr, c + dc, dr, dc, s))
        && At(g, RayCell(r + dr, c + dc, dr, dc, s)).Some?
        && RayCapture(g, color, RayCell(r + dr, c + dc, dr, dc, s + 1).r, RayCell(r + dr, c + dc, dr, dc, s + 1).c, dr, dc, t);
      assert RayCell(r, c, dr, dc, 0) == Pos(r, c);
      RayCellShift(r, c, dr, dc, s);
      RayCellShift(r, c, dr, dc, s + 1);
      ClearShift(g, r, c, dr, dc, 0, s);
      assert Clear(g, r, c, dr, dc, 0, s + 1);
      assert RayCell(r, c, dr, dc, s + 1) == RayCell(r + dr, c + dc, dr, dc, s);
      assert RayCell(r, c, dr, dc, s + 2) == RayCell(r + dr, c + dc, dr, dc, s + 1);
    }
  }

  lemma ScreenHere(g: Grid, color: Color, r: int, c: int, dr: int, dc: int, t: Pos)
    requires IsValidPos(r, c) && g[r][c].Some?
    ensures ScreenCapture(g, color, r, c, dr, dc, t) <==> RayCapture(g, color, r + dr, c + dc, dr, dc, t)
  {
    assert RayCell(r, c, dr, dc, 0) == Pos(r, c);
    RayCellShift(r, c, dr, dc, 0);
    assert RayCell(r, c, dr, dc, 1) == Pos(r + dr, c + dc);
    if ScreenCapture(g, color, r, c, dr, dc, t) {
      var s :| 0 <= s && Clear(g, r, c, dr, dc, 0, s) && OnBoard(RayCell(r, c, dr, dc, s))
        && At(g, RayCell(r, c, dr, dc, s)).Some?
        && RayCapture(g, color, RayCell(r, c, dr, dc, s + 1).r, RayCell(r, c, dr, dc, s + 1).c, dr, dc, t);
      assert s == 0;
    }
    if RayCapture(g, color, r + dr, c + dc, dr, dc, t) {
      assert Clear(g, r, c, dr, dc, 0, 0);
    }
  }

  /** One cannon ray: the empty cells before the screen (the first occupied
      cell), plus the first occupied cell beyond the screen when it holds an
      enemy. */
  lemma {:induction false} CannonRayMember(g: Grid, color: Color, r: int, c: int, dr: int, dc: int, t: Pos)
    requires IsDir(dr, dc)
    ensures t in CannonRay(g, color, r, c, dr, dc, false) <==> RayQuiet(g, r, c, dr, dc, t) || ScreenCapture(g, color, r, c, dr, dc, t)
    decreases RayRoom(r, c, dr, dc)
  {
    if !IsValidPos(r, c) {
      RayOff(g, color, r, c, dr, dc, t);
      ScreenOff(g, color, r, c, dr, dc, t);
    } else if g[r][c].None? {
      var rest := CannonRay(g, color, r + dr, c + dc, dr, dc, false);
      assert CannonRay(g, color, r, c, dr, dc, false) == [Pos(r, c)] + rest;
      CannonRayMember(g, color, r + dr, c + dc, dr, dc, t);
      RayQuietStep(g, r, c, dr, dc, t);
      ScreenCaptureStep(g, color, r, c, dr, dc, t);
      if t == Pos(r, c) {
        assert RayQuiet(g, r, c, dr, dc, t);
      }
    } else {
      assert CannonRay(g, color, r, c, dr, dc, false) == CannonRay(g, color, r + dr, c + dc, dr, dc, true);
      RayBlocked(g, color, r, c, dr, dc, t);
      ScreenHere(g, color, r, c, dr, dc, t);
      CannonJumpedMember(g, color, r + dr, c + dc, dr, dc, t);
    }
  }

  /** A ray that starts off the board has no screen. */
  lemma ScreenOff(g: Grid, color: Color, r: int, c: int, dr: int, dc: int, t: Pos)
    requires !IsValidPos(r, c)
    ensures !ScreenCapture(g, color, r, c, dr, dc, t)
  {
    assert RayCell(r, c, dr, dc, 0) == Pos(r, c);
    ClearNeedsFirst(g, r, c, dr, dc);
  }

  lemma RayCellInjective(r: int, c: int, dr: int, dc: int, j: int, k: int)
    requires IsDir(dr, dc) && RayCell(r, c, dr, dc, j) == RayCell(r, c, dr, dc, k)
    ensures j == k
  {
    assert (j - k) * dr == 0 && (j - k) * dc == 0;
  }

  /** Two "first occupied cell" indexes of one ray are the same index. */
  lemma FirstOccupiedUnique(g: Grid, r: int, c: int, dr: int, dc: int, s: int, s': int)
    requires 0 <= s && 0 <= s'
    requires Clear(g, r, c, dr, dc, 0, s) && OnBoard(RayCell(r, c, dr, dc, s)) && At(g, RayCell(r, c, dr, dc, s)).Some?
    requires Clear(g, r, c, dr, dc, 0, s') && OnBoard(RayCell(r, c, dr, dc, s')) && At(g, RayCell(r, c, dr, dc, s')).Some?
    ensures s == s'
  {
  }

  /** The screen itself is never a destination of its ray. */
  lemma CannonScreenNotTarget(g: Grid, color: Color, r: int, c: int, dr: int, dc: int, s: int)
    requires IsDir(dr, dc) && 0 <= s
    requires Clear(g, r, c, dr, dc, 0, s) && OnBoard(RayCell(r, c, dr, dc, s)) && At(g, RayCell(r, c, dr, dc, s)).Some?
    ensures RayCell(r, c, dr, dc, s) !in CannonRay(g, color, r, c, dr, dc, false)
  {
    var t := RayCell(r, c, dr, dc, s);
    CannonRayMember(g, color, r, c, dr, dc, t);
    ScreenNotQuiet(g, r, c, dr, dc, s);
    ScreenNotCaptured(g, color, r, c, dr, dc, s);
  }

  lemma ScreenNotQuiet(g: Grid, r: int, c: int, dr: int, dc: int, s: int)
    requires IsDir(dr, dc) && 0 <= s
    requires OnBoard(RayCell(r, c, dr, dc, s)) && At(g, RayCell(r, c, dr, dc, s)).Some?
    ensures !RayQuiet(g, r, c, dr, dc, RayCell(r, c, dr, dc, s))
  {
    var t := RayCell(r, c, dr, dc, s);
    if RayQuiet(g, r, c, dr, dc, t) {
      assert false;
    }
  }

  lemma ScreenNotCaptured(g: Grid, color: Color, r: int, c: int, dr: int, dc: int, s: int)
    requires IsDir(dr, dc) && 0 <= s
    requires Clear(g, r, c, dr, dc, 0, s) && OnBoard(RayCell(r, c, dr, dc, s)) && At(g, RayCell(r, c, dr, dc, s)).Some?
    ensures !ScreenCapture(g, color, r, c, dr, dc, RayCell(r, c, dr, dc, s))
  {
    var t := RayCell(r, c, dr, dc, s);
    if ScreenCapture(g, color, r, c, dr, dc, t) {
      var s' :| 0 <= s' && Clear(g, r, c, dr, dc, 0, s') && OnBoard(RayCell(r, c, dr, dc, s'))
        && At(g, RayCell(r, c, dr, dc, s')).Some?
        && RayCapture(g, color, RayCell(r, c, dr, dc, s' + 1).r, RayCell(r, c, dr, dc, s' + 1).c, dr, dc, t);
      FirstOccupiedUnique(g, r, c, dr, dc, s, s');
      var r1, c1 := RayCell(r, c, dr, dc, s + 1).r, RayCell(r, c, dr, dc, s + 1).c;
      var k :| 0 <= k && t == RayCell(r1, c1, dr, dc, k) && Clear(g, r1, c1, dr, dc, 0, k) && IsEnemyAt(g, color, t);
      RayCellAdd(r, c, dr, dc, s + 1, k);
      RayCellInjective(r, c, dr, dc, s + 1 + k, s);
      assert false;
    }
  }

  lemma RayCellAdd(r: int, c: int, dr: int, dc: int, a: int, k: int)
    ensures RayCell(RayCell(r, c, dr, dc, a).r, RayCell(r, c, dr, dc, a).c, dr, dc, k) == RayCell(r, c, dr, dc, a + k)
  {
    assert (a + k) * dr == a * dr + k * dr;
    assert (a + k) * dc == a * dc + k * dc;
  }

  lemma {:induction false} ChariotMovesMember(g: Grid, p: Piece, dirs: seq<(int, int)>, t: Pos)
    requires AllDirs(dirs)
    ensures t in ChariotMoves(g, p, dirs) <==>
      exists d :: d in dirs && t in ChariotRay(g, p.color, p.pos.r + d.0, p.pos.c + d.1, d.0, d.1)
    decreases |dirs|
  {
    if dirs != [] {
      var n := |dirs| - 1;
      var init, last := dirs[..n], dirs[n];
      ChariotMovesMember(g, p, init, t);
      assert dirs == init + [last];
      if t in ChariotRay(g, p.color, p.pos.r + last.0, p.pos.c + last.1, last.0, last.1) {
        assert last in dirs;
      }
    }
  }

  lemma {:induction false} CannonMovesMember(g: Grid, p: Piece, dirs: seq<(int, int)>, t: Pos)
    requires AllDirs(dirs)
    ensures t in CannonMoves(g, p, dirs) <==>
      exists d :: d in dirs && t in CannonRay(g, p.color, p.pos.r + d.0, p.pos.c + d.1, d.0, d.1, false)
    decreases |dirs|
  {
    if dirs != [] {
      var n := |dirs| - 1;
      var init, last := dirs[..n], dirs[n];
      CannonMovesMember(g, p, init, t);
      assert dirs == init + [last];
      if t in CannonRay(g, p.color, p.pos.r + last.0, p.pos.c + last.1, last.0, last.1, false) {
        assert last in dirs;
      }
    }
  }

  /** The chariot's targets along direction d: quiet cells up to the first
      piece, and that piece if it is an enemy. */
  ghost predicate ChariotReaches(g: Grid, p: Piece, d: (int, int), t: Pos) {
    var r, c := p.pos.r + d.0, p.pos.c + d.1;
    RayQuiet(g, r, c, d.0, d.1, t) || RayCapture(g, p.color, r, c, d.0, d.1, t)
  }

  /** The cannon's targets along direction d: quiet cells up to the screen,
      and the first piece beyond the screen if it is an enemy. */
  ghost predicate CannonReaches(g: Grid, p: Piece, d: (int, int), t: Pos) {
    var r, c := p.pos.r + d.0, p.pos.c + d.1;
    RayQuiet(g, r, c, d.0, d.1, t) || ScreenCapture(g, p.color, r, c, d.0, d.1, t)
  }

  lemma ChariotDir(g: Grid, p: Piece, d: (int, int), t: Pos)
    requires IsDir(d.0, d.1)
    ensures t in ChariotRay(g, p.color, p.pos.r + d.0, p.pos.c + d.1, d.0, d.1) <==> ChariotReaches(g, p, d, t)
  {
    ChariotRayMember(g, p.color, p.pos.r + d.0, p.pos.c + d.1, d.0, d.1, t);
  }

  lemma CannonDir(g: Grid, p: Piece, d: (int, int), t: Pos)
    requires IsDir(d.0, d.1)
    ensures t in CannonRay(g, p.color, p.pos.r + d.0, p.pos.c + d.1, d.0, d.1, false) <==> CannonReaches(g, p, d, t)
  {
    CannonRayMember(g, p.color, p.pos.r + d.0, p.pos.c + d.1, d.0, d.1, t);
  }

  /** Chariot: on each of the four rays, the empty cells before the first
      occupied cell, plus that cell only if it holds an enemy. */
  lemma ChariotRule(g: Grid, p: Piece, t: Pos)
    requires p.kind == Chariot
    ensures t in ValidMoves(g, p) <==> exists d :: d in RAY_DIRS && ChariotReaches(g, p, d, t)
  {
    assert ValidMoves(g, p) == ChariotMoves(g, p, RAY_DIRS);
    ChariotMovesMember(g, p, RAY_DIRS, t);
    if t in ValidMoves(g, p) {
      var d :| d in RAY_DIRS && t in ChariotRay(g, p.color, p.pos.r + d.0, p.pos.c + d.1, d.0, d.1);
      ChariotDir(g, p, d, t);
    }
    if exists d :: d in RAY_DIRS && ChariotReaches(g, p, d, t) {
      var d :| d in RAY_DIRS && ChariotReaches(g, p, d, t);
      ChariotDir(g, p, d, t);
    }
  }

  /** Cannon: on each of the four rays, the empty cells before the screen,
      plus the first occupied cell beyond the screen only if it holds an
      enemy. */
  lemma CannonRule(g: Grid, p: Piece, t: Pos)
    requires p.kind == Cannon
    ensures t in ValidMoves(g, p) <==> exists d :: d in RAY_DIRS && CannonReaches(g, p, d, t)
  {
    assert ValidMoves(g, p) == CannonMoves(g, p, RAY_DIRS);
    CannonMovesMember(g, p, RAY_DIRS, t);
    if t in ValidMoves(g, p) {
      var d :| d in RAY_DIRS && t in CannonRay(g, p.color, p.pos.r + d.0, p.pos.c + d.1, d.0, d.1, false);
      CannonDir(g, p, d, t);
    }
    if exists d :: d in RAY_DIRS && CannonReaches(g, p, d, t) {
      var d :| d in RAY_DIRS && CannonReaches(g, p, d, t);
      CannonDir(g, p, d, t);
    }
  }

  // ---------------------------------------------------------------------
  // Soldier
  // ---------------------------------------------------------------------

  /** Soldier: one step forward (-1 row for Red, +1 for Black), and one step
      sideways only once across the river; never backward. */
  lemma SoldierRule(g: Grid, p: Piece, t: Pos)
    requires p.kind == Soldier
    ensures t in ValidMoves(g, p) <==>
      IsTarget(g, p.color, t.r, t.c) &&
      (t == Pos(p.pos.r + Forward(p.color), p.pos.c) ||
       (CrossedRiver(p.color, p.pos.r) && (t == Pos(p.pos.r, p.pos.c - 1) || t == Pos(p.pos.r, p.pos.c + 1))))
    ensures |ValidMoves(g, p)| <= 3
  {
  }

  // ---------------------------------------------------------------------
  // All kinds
  // ---------------------------------------------------------------------

  lemma QuietTarget(g: Grid, color: Color, r: int, c: int, dr: int, dc: int, t: Pos)
    requires RayQuiet(g, r, c, dr, dc, t)
    ensures IsTarget(g, color, t.r, t.c)
    ensures (dr == 0 ==> t.r == r) && (dc == 0 ==> t.c == c)
  {
    var j :| 0 <= j && t == RayCell(r, c, dr, dc, j) && Clear(g, r, c, dr, dc, 0, j + 1);
    assert OnBoard(RayCell(r, c, dr, dc, j));
  }

  lemma CaptureTarget(g: Grid, color: Color, r: int, c: int, dr: int, dc: int, t: Pos)
    requires RayCapture(g, color, r, c, dr, dc, t)
    ensures IsTarget(g, color, t.r, t.c)
    ensures (dr == 0 ==> t.r == r) && (dc == 0 ==> t.c == c)
  {
    var j :| 0 <= j && t == RayCell(r, c, dr, dc, j) && Clear(g, r, c, dr, dc, 0, j) && IsEnemyAt(g, color, t);
  }

  lemma ScreenTarget(g: Grid, color: Color, r: int, c: int, dr: int, dc: int, t: Pos)
    requires ScreenCapture(g, color, r, c, dr, dc, t)
    ensures IsTarget(g, color, t.r, t.c)
    ensures (dr == 0 ==> t.r == r) && (dc == 0 ==> t.c == c)
  {
    var s :| 0 <= s && Clear(g, r, c, dr, dc, 0, s) && OnBoard(RayCell(r, c, dr, dc, s))
      && At(g, RayCell(r, c, dr, dc, s)).Some?
      && RayCapture(g, color, RayCell(r, c, dr, dc, s + 1).r, RayCell(r, c, dr, dc, s + 1).c, dr, dc, t);
    CaptureTarget(g, color, RayCell(r, c, dr, dc, s + 1).r, RayCell(r, c, dr, dc, s + 1).c, dr, dc, t);
  }

  /** Ray destinations are targets and stay on the piece's row or column. */
  lemma RayTargets(g: Grid, p: Piece, d: (int, int), t: Pos)
    requires d in RAY_DIRS
    requires ChariotReaches(g, p, d, t) || CannonReaches(g, p, d, t)
    ensures IsTarget(g, p.color, t.r, t.c)
    ensures t.r == p.pos.r || t.c == p.pos.c
  {
    assert d.0 == 0 || d.1 == 0;
    var r, c := p.pos.r + d.0, p.pos.c + d.1;
    if RayQuiet(g, r, c, d.0, d.1, t) {
      QuietTarget(g, p.color, r, c, d.0, d.1, t);
    } else if RayCapture(g, p.color, r, c, d.0, d.1, t) {
      CaptureTarget(g, p.color, r, c, d.0, d.1, t);
    } else {
      ScreenTarget(g, p.color, r, c, d.0, d.1, t);
    }
  }

  /** Every destination of every piece is on the board and does not hold a
      piece of the mover's colour; chariot and cannon destinations share a
      row or a column with the piece. */
  lemma DestinationsAreTargets(g: Grid, p: Piece, t: Pos)
    requires t in ValidMoves(g, p)
    ensures IsTarget(g, p.color, t.r, t.c)
    ensures p.kind in {Chariot, Cannon} ==> t.r == p.pos.r || t.c == p.pos.c
  {
    match p.kind
    case General => GeneralRule(g, p, t);
    case Advisor => AdvisorRule(g, p, t);
    case Elephant => ElephantRule(g, p, t);
    case Horse => HorseRule(g, p, t);
    case Chariot =>
      ChariotRule(g, p, t);
      var d :| d in RAY_DIRS && ChariotReaches(g, p, d, t);
      RayTargets(g, p, d, t);
    case Cannon =>
      CannonRule(g, p, t);
      var d :| d in RAY_DIRS && CannonReaches(g, p, d, t);
      RayTargets(g, p, d, t);
    case Soldier => SoldierRule(g, p, t);
  }

  // ---------------------------------------------------------------------
  // Check
  // ---------------------------------------------------------------------

  lemma {:induction false} FindGeneralFromNone(g: Grid, color: Color, r: int, c: int)
    requires 0 <= r <= ROWS && 0 <= c <= COLS
    ensures FindGeneralFrom(g, color, r, c).None? <==>
      forall r', c' :: IsValidPos(r', c') && (r' > r || (r' == r && c' >= c)) ==> !IsGeneralOf(g, color, r', c')
    decreases ROWS - r, COLS - c
  {
    if r < ROWS {
      if c == COLS {
        FindGeneralFromNone(g, color, r + 1, 0);
      } else {
        FindGeneralFromNone(g, color, r, c + 1);
      }
    }
  }

  /** A General found from (r, c) is the first one at or after (r, c). */
  lemma {:induction false} FindGeneralFromFirst(g: Grid, color: Color, r: int, c: int)
    requires 0 <= r <= ROWS && 0 <= c <= COLS
    ensures FindGeneralFrom(g, color, r, c).Some? ==>
      var p := FindGeneralFrom(g, color, r, c).value;
      (p.r > r || (p.r == r && p.c >= c)) &&
      forall r', c' | IsValidPos(r', c') && (r' > r || (r' == r && c' >= c)) && (r' < p.r || (r' == p.r && c' < p.c)) ::
        !IsGeneralOf(g, color, r', c')
    decreases ROWS - r, COLS - c
  {
    if r < ROWS {
      if c == COLS {
        FindGeneralFromFirst(g, color, r + 1, 0);
      } else if !IsGeneralOf(g, color, r, c) {
        FindGeneralFromFirst(g, color, r, c + 1);
      }
    }
  }

  /** `FindGeneral` yields the first General of `color` in row-major order,
      and nothing exactly when `color` has no General on the board. */
  lemma FindGeneralSpec(g: Grid, color: Color)
    ensures FindGeneral(g, color).None? <==> forall r, c :: IsValidPos(r, c) ==> !IsGeneralOf(g, color, r, c)
    ensures FindGeneral(g, color).Some? ==>
      (OnBoard(FindGeneral(g, color).value) &&
       IsGeneralOf(g, color, FindGeneral(g, color).value.r, FindGeneral(g, color).value.c))
    ensures FindGeneral(g, color).Some? ==>
      var p := FindGeneral(g, color).value;
      forall r, c | IsValidPos(r, c) && (r < p.r || (r == p.r && c < p.c)) :: !IsGeneralOf(g, color, r, c)
  {
    FindGeneralFromNone(g, color, 0, 0);
    FindGeneralFromFirst(g, color, 0, 0);
  }

  /** `color` is in check exactly when it has a General and some piece of
      the other colour has the General's cell among its destinations. */
  lemma InCheckIff(g: Grid, color: Color)
    ensures InCheck(g, color) <==>
      FindGeneral(g, color).Some? &&
      exists r, c :: IsValidPos(r, c) && AttacksFrom(g, color, r, c, FindGeneral(g, color).value)
  {
    if FindGeneral(g, color).Some? {
      var gp := FindGeneral(g, color).value;
      if InCheck(g, color) {
        var r :| 0 <= r < ROWS && RowAttacked(g, color, r, gp);
        var c :| 0 <= c < COLS && AttacksFrom(g, color, r, c, gp);
        assert IsValidPos(r, c);
      }
      if exists r, c :: IsValidPos(r, c) && AttacksFrom(g, color, r, c, gp) {
        var r, c :| IsValidPos(r, c) && AttacksFrom(g, color, r, c, gp);
        assert RowAttacked(g, color, r, gp);
      }
    }
  }

  /** A side without a General is never in check. */
  lemma NoGeneralNoCheck(g: Grid, color: Color)
    requires forall r, c :: IsValidPos(r, c) ==> !IsGeneralOf(g, color, r, c)
    ensures !InCheck(g, color)
  {
    FindGeneralSpec(g, color);
  }
}
