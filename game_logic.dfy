/** Move rules and check detection (utils/gameLogic.ts).
    Each rule is given twice: as a specification function on a `Grid` value,
    and as the loop-based method the engine runs on a mutable board, proved
    to compute exactly that function. What the rules mean (palace, river,
    eye, leg, rays, screen) is proved about the functions in module
    MoveRules. */
module GameLogic {
  import opened Types

  // ---------------------------------------------------------------------
  // Specification
  // ---------------------------------------------------------------------

  predicate IsSameColor(g: Grid, r: int, c: int, color: Color)
    requires IsValidPos(r, c)
  {
    g[r][c].Some? && g[r][c].value.color == color
  }

  /** A cell the piece of `color` may land on: on the board and not holding
      a piece of its own colour. */
  predicate IsTarget(g: Grid, color: Color, r: int, c: int) {
    IsValidPos(r, c) && !IsSameColor(g, r, c, color)
  }

  /** The `addMove` closure: keep (nr, nc) only if it is a target. */
  function AddMove(g: Grid, color: Color, moves: seq<Pos>, nr: int, nc: int): seq<Pos> {
    if IsTarget(g, color, nr, nc) then moves + [Pos(nr, nc)] else moves
  }

  /** The 3x3 palace: columns 3..5, rows 7..9 for Red and 0..2 for Black. */
  predicate InPalace(color: Color, r: int, c: int) {
    3 <= c <= 5 && (if color == Red then 7 <= r <= 9 else 0 <= r <= 2)
  }

  const GENERAL_STEPS: seq<(int, int)> := [(-1, 0), (1, 0), (0, -1), (0, 1)]
  const ADVISOR_STEPS: seq<(int, int)> := [(-1, -1), (-1, 1), (1, -1), (1, 1)]
  const ELEPHANT_STEPS: seq<(int, int)> := [(-2, -2), (-2, 2), (2, -2), (2, 2)]

  /** A horse jump (dr, dc) together with its leg cell offset. */
  datatype Jump = Jump(dr: int, dc: int, legR: int, legC: int)

  const HORSE_JUMPS: seq<Jump> := [
    Jump(-2, -1, -1, 0), Jump(-2, 1, -1, 0), Jump(2, -1, 1, 0), Jump(2, 1, 1, 0),
    Jump(-1, -2, 0, -1), Jump(-1, 2, 0, 1), Jump(1, -2, 0, -1), Jump(1, 2, 0, 1)
  ]

  const RAY_DIRS: seq<(int, int)> := [(0, 1), (0, -1), (1, 0), (-1, 0)]

  /** General and Advisor: one step from `steps`, kept inside the palace. */
  function PalaceMoves(g: Grid, p: Piece, steps: seq<(int, int)>): seq<Pos>
    decreases |steps|
  {
    if steps == [] then []
    else
      var moves := PalaceMoves(g, p, steps[..|steps| - 1]);
      var d := steps[|steps| - 1];
      var nr, nc := p.pos.r + d.0, p.pos.c + d.1;
      if InPalace(p.color, nr, nc) then AddMove(g, p.color, moves, nr, nc) else moves
  }

  /** Elephant: the river test comes first, then the board and eye tests. */
  function ElephantStep(g: Grid, p: Piece, moves: seq<Pos>, d: (int, int)): seq<Pos> {
    var nr, nc := p.pos.r + d.0, p.pos.c + d.1;
    if p.color == Red && nr < 5 then moves
    else if p.color == Black && nr > 4 then moves
    else
      var eyeR, eyeC := p.pos.r + d.0 / 2, p.pos.c + d.1 / 2;
      if IsValidPos(nr, nc) && IsValidPos(eyeR, eyeC) && g[eyeR][eyeC].None?
      then AddMove(g, p.color, moves, nr, nc)
      else moves
  }

  function ElephantMoves(g: Grid, p: Piece, steps: seq<(int, int)>): seq<Pos>
    decreases |steps|
  {
    if steps == [] then []
    else ElephantStep(g, p, ElephantMoves(g, p, steps[..|steps| - 1]), steps[|steps| - 1])
  }

  function HorseStep(g: Grid, p: Piece, moves: seq<Pos>, j: Jump): seq<Pos> {
    var nr, nc := p.pos.r + j.dr, p.pos.c + j.dc;
    var legR, legC := p.pos.r + j.legR, p.pos.c + j.legC;
    if IsValidPos(nr, nc) && IsValidPos(legR, legC) && g[legR][legC].None?
    then AddMove(g, p.color, moves, nr, nc)
    else moves
  }

  function HorseMoves(g: Grid, p: Piece, jumps: seq<Jump>): seq<Pos>
    decreases |jumps|
  {
    if jumps == [] then []
    else HorseStep(g, p, HorseMoves(g, p, jumps[..|jumps| - 1]), jumps[|jumps| - 1])
  }

  /** A ray direction: anything but the null vector. */
  predicate IsDir(dr: int, dc: int) {
    dr != 0 || dc != 0
  }

  /** How many more cells a ray from (r, c) in direction (dr, dc) can visit. */
  function RayRoom(r: int, c: int, dr: int, dc: int): nat {
    if !IsValidPos(r, c) then 0
    else 1 + (if dr > 0 then 9 - r else if dr < 0 then r else 0)
           + (if dc > 0 then 8 - c else if dc < 0 then c else 0)
  }

  /** The chariot's destinations on one ray, from cell (r, c) onwards: empty
      cells until the first occupied one, which is kept if it is an enemy. */
  function ChariotRay(g: Grid, color: Color, r: int, c: int, dr: int, dc: int): seq<Pos>
    requires IsDir(dr, dc)
    decreases RayRoom(r, c, dr, dc)
  {
    if !IsValidPos(r, c) then []
    else if g[r][c].None? then [Pos(r, c)] + ChariotRay(g, color, r + dr, c + dc, dr, dc)
    else if g[r][c].value.color != color then [Pos(r, c)]
    else []
  }

  /** The cannon's destinations on one ray from cell (r, c) onwards;
      `jumped` records that the screen has been passed. */
  function CannonRay(g: Grid, color: Color, r: int, c: int, dr: int, dc: int, jumped: bool): seq<Pos>
    requires IsDir(dr, dc)
    decreases RayRoom(r, c, dr, dc)
  {
    if !IsValidPos(r, c) then []
    else if !jumped then
      if g[r][c].None? then [Pos(r, c)] + CannonRay(g, color, r + dr, c + dc, dr, dc, false)
      else CannonRay(g, color, r + dr, c + dc, dr, dc, true)
    else if g[r][c].None? then CannonRay(g, color, r + dr, c + dc, dr, dc, true)
    else if g[r][c].value.color != color then [Pos(r, c)]
    else []
  }

  /** The chariot's ray in the loop's own terms: `addMove` on each empty
      cell, `addMove` on the first occupied one, then stop. */
  function ChariotRayAcc(g: Grid, color: Color, r: int, c: int, dr: int, dc: int, acc: seq<Pos>): seq<Pos>
    requires IsDir(dr, dc)
    decreases RayRoom(r, c, dr, dc)
  {
    if !IsValidPos(r, c) then acc
    else if g[r][c].None? then ChariotRayAcc(g, color, r + dr, c + dc, dr, dc, AddMove(g, color, acc, r, c))
    else if g[r][c].value.color != color then AddMove(g, color, acc, r, c)
    else acc
  }

  /** The cannon's ray in the loop's own terms. */
  function CannonRayAcc(g: Grid, color: Color, r: int, c: int, dr: int, dc: int, jumped: bool, acc: seq<Pos>): seq<Pos>
    requires IsDir(dr, dc)
    decreases RayRoom(r, c, dr, dc)
  {
    if !IsValidPos(r, c) then acc
    else if !jumped then
      if g[r][c].None? then CannonRayAcc(g, color, r + dr, c + dc, dr, dc, false, AddMove(g, color, acc, r, c))
      else CannonRayAcc(g, color, r + dr, c + dc, dr, dc, true, acc)
    else if g[r][c].None? then CannonRayAcc(g, color, r + dr, c + dc, dr, dc, true, acc)
    else if g[r][c].value.color != color then AddMove(g, color, acc, r, c)
    else acc
  }

  lemma {:induction false} ChariotRayAccAppends(g: Grid, color: Color, r: int, c: int, dr: int, dc: int, acc: seq<Pos>)
    requires IsDir(dr, dc)
    ensures ChariotRayAcc(g, color, r, c, dr, dc, acc) == acc + ChariotRay(g, color, r, c, dr, dc)
    decreases RayRoom(r, c, dr, dc)
  {
    if IsValidPos(r, c) && g[r][c].None? {
      ChariotRayAccAppends(g, color, r + dr, c + dc, dr, dc, acc + [Pos(r, c)]);
      ChariotRayAccEmpty(g, color, r, c, dr, dc, acc);
    }
  }

  /** An empty cell of a chariot ray: one step of the loop form appends the
      cell, as the ray function does. */
  lemma ChariotRayAccEmpty(g: Grid, color: Color, r: int, c: int, dr: int, dc: int, acc: seq<Pos>)
    requires IsDir(dr, dc) && IsValidPos(r, c) && g[r][c].None?
    requires ChariotRayAcc(g, color, r + dr, c + dc, dr, dc, acc + [Pos(r, c)])
      == (acc + [Pos(r, c)]) + ChariotRay(g, color, r + dr, c + dc, dr, dc)
    ensures ChariotRayAcc(g, color, r, c, dr, dc, acc) == acc + ChariotRay(g, color, r, c, dr, dc)
  {
    var rest := ChariotRay(g, color, r + dr, c + dc, dr, dc);
    assert AddMove(g, color, acc, r, c) == acc + [Pos(r, c)];
    assert (acc + [Pos(r, c)]) + rest == acc + ([Pos(r, c)] + rest);
  }

  /** After the screen: the accumulator gains at most the first piece met, if it is an enemy. */
  lemma {:induction false} CannonRayAccAppendsJumped(g: Grid, color: Color, r: int, c: int, dr: int, dc: int, acc: seq<Pos>)
    requires IsDir(dr, dc)
    ensures CannonRayAcc(g, color, r, c, dr, dc, true, acc) == acc + CannonRay(g, color, r, c, dr, dc, true)
    decreases RayRoom(r, c, dr, dc)
  {
    if IsValidPos(r, c) && g[r][c].None? {
      CannonRayAccAppendsJumped(g, color, r + dr, c + dc, dr, dc, acc);
    }
  }

  lemma {:induction false} CannonRayAccAppends(g: Grid, color: Color, r: int, c: int, dr: int, dc: int, acc: seq<Pos>)
    requires IsDir(dr, dc)
    ensures CannonRayAcc(g, color, r, c, dr, dc, false, acc) == acc + CannonRay(g, color, r, c, dr, dc, false)
    decreases RayRoom(r, c, dr, dc)
  {
    if IsValidPos(r, c) {
      if g[r][c].None? {
        CannonRayAccAppends(g, color, r + dr, c + dc, dr, dc, acc + [Pos(r, c)]);
        CannonRayAccEmpty(g, color, r, c, dr, dc, acc);
      } else {
        CannonRayAccAppendsJumped(g, color, r + dr, c + dc, dr, dc, acc);
      }
    }
  }

  /** An empty cell before the screen: one step of the loop form appends the
      cell, as the ray function does. */
  lemma CannonRayAccEmpty(g: Grid, color: Color, r: int, c: int, dr: int, dc: int, acc: seq<Pos>)
    requires IsDir(dr, dc) && IsValidPos(r, c) && g[r][c].None?
    requires CannonRayAcc(g, color, r + dr, c + dc, dr, dc, false, acc + [Pos(r, c)])
      == (acc + [Pos(r, c)]) + CannonRay(g, color, r + dr, c + dc, dr, dc, false)
    ensures CannonRayAcc(g, color, r, c, dr, dc, false, acc) == acc + CannonRay(g, color, r, c, dr, dc, false)
  {
    var rest := CannonRay(g, color, r + dr, c + dc, dr, dc, false);
    assert AddMove(g, color, acc, r, c) == acc + [Pos(r, c)];
    assert (acc + [Pos(r, c)]) + rest == acc + ([Pos(r, c)] + rest);
  }

  predicate AllDirs(dirs: seq<(int, int)>) {
    forall d | d in dirs :: IsDir(d.0, d.1)
  }

  function ChariotMoves(g: Grid, p: Piece, dirs: seq<(int, int)>): seq<Pos>
    requires AllDirs(dirs)
    decreases |dirs|
  {
    if dirs == [] then []
    else
      var d := dirs[|dirs| - 1];
      ChariotMoves(g, p, dirs[..|dirs| - 1]) + ChariotRay(g, p.color, p.pos.r + d.0, p.pos.c + d.1, d.0, d.1)
  }

  function CannonMoves(g: Grid, p: Piece, dirs: seq<(int, int)>): seq<Pos>
    requires AllDirs(dirs)
    decreases |dirs|
  {
    if dirs == [] then []
    else
      var d := dirs[|dirs| - 1];
      CannonMoves(g, p, dirs[..|dirs| - 1]) + CannonRay(g, p.color, p.pos.r + d.0, p.pos.c + d.1, d.0, d.1, false)
  }

  function Forward(color: Color): int {
    if color == Red then -1 else 1
  }

  predicate CrossedRiver(color: Color, r: int) {
    if color == Red then r <= 4 else r >= 5
  }

  function SoldierMoves(g: Grid, p: Piece): seq<Pos> {
    var r, c := p.pos.r, p.pos.c;
    var moves := AddMove(g, p.color, [], r + Forward(p.color), c);
    if CrossedRiver(p.color, r) then AddMove(g, p.color, AddMove(g, p.color, moves, r, c - 1), r, c + 1)
    else moves
  }

  /** `getValidMoves`: the pseudo-legal destinations of `p`, measured from
      the position the piece records (not from the cell holding it). */
  function ValidMoves(g: Grid, p: Piece): seq<Pos> {
    match p.kind
    case General => PalaceMoves(g, p, GENERAL_STEPS)
    case Advisor => PalaceMoves(g, p, ADVISOR_STEPS)
    case Elephant => ElephantMoves(g, p, ELEPHANT_STEPS)
    case Horse => HorseMoves(g, p, HORSE_JUMPS)
    case Chariot => ChariotMoves(g, p, RAY_DIRS)
    case Cannon => CannonMoves(g, p, RAY_DIRS)
    case Soldier => SoldierMoves(g, p)
  }

  predicate IsGeneralOf(g: Grid, color: Color, r: int, c: int)
    requires IsValidPos(r, c)
  {
    g[r][c].Some? && g[r][c].value.kind == General && g[r][c].value.color == color
  }

  /** The first General of `color` in row-major order, scanning from
      row r, column c. */
  function FindGeneralFrom(g: Grid, color: Color, r: int, c: int): (res: Option<Pos>)
    requires 0 <= r <= ROWS && 0 <= c <= COLS
    decreases ROWS - r, COLS - c
    ensures res.Some? ==> OnBoard(res.value) && IsGeneralOf(g, color, res.value.r, res.value.c)
  {
    if r == ROWS then None
    else if c == COLS then FindGeneralFrom(g, color, r + 1, 0)
    else if IsGeneralOf(g, color, r, c) then Some(Pos(r, c))
    else FindGeneralFrom(g, color, r, c + 1)
  }

  function FindGeneral(g: Grid, color: Color): Option<Pos> {
    FindGeneralFrom(g, color, 0, 0)
  }

  /** The piece at (r, c) is not of `color` and has `target` among its destinations. */
  predicate AttacksFrom(g: Grid, color: Color, r: int, c: int, target: Pos)
    requires IsValidPos(r, c)
  {
    g[r][c].Some? && g[r][c].value.color != color && target in ValidMoves(g, g[r][c].value)
  }

  /** Some piece of row r not of `color` has `target` among its destinations. */
  predicate RowAttacked(g: Grid, color: Color, r: int, target: Pos)
    requires 0 <= r < ROWS
  {
    exists c | 0 <= c < COLS :: AttacksFrom(g, color, r, c, target)
  }

  /** Some piece not of `color` has `target` among its destinations. */
  predicate Attacked(g: Grid, color: Color, target: Pos) {
    exists r | 0 <= r < ROWS :: RowAttacked(g, color, r, target)
  }

  /** `isInCheck`: false when `color` has no General. */
  predicate InCheck(g: Grid, color: Color) {
    match FindGeneral(g, color)
    case None => false
    case Some(gp) => Attacked(g, color, gp)
  }

  // ---------------------------------------------------------------------
  // Implementation on a mutable board
  // ---------------------------------------------------------------------

  method AddMoveOn(board: array2<Cell>, color: Color, moves: seq<Pos>, nr: int, nc: int) returns (res: seq<Pos>)
    requires IsBoard(board)
    ensures res == AddMove(Snapshot(board), color, moves, nr, nc)
  {
    res := moves;
    if IsValidPos(nr, nc) {
      var piece := board[nr, nc];
      if !(piece.Some? && piece.value.color == color) {
        res := moves + [Pos(nr, nc)];
      }
    }
  }

  method PalaceLoop(board: array2<Cell>, piece: Piece, steps: seq<(int, int)>) returns (moves: seq<Pos>)
    requires IsBoard(board)
    ensures moves == PalaceMoves(Snapshot(board), piece, steps)
  {
    ghost var g := Snapshot(board);
    moves := [];
    var k := 0;
    while k < |steps|
      invariant 0 <= k <= |steps|
      invariant moves == PalaceMoves(g, piece, steps[..k])
    {
      var nr, nc := piece.pos.r + steps[k].0, piece.pos.c + steps[k].1;
      if InPalace(piece.color, nr, nc) {
        moves := AddMoveOn(board, piece.color, moves, nr, nc);
      }
      assert steps[..k + 1][..k] == steps[..k];
      k := k + 1;
    }
    assert steps[..k] == steps;
  }

  /** One elephant step: the river test first, then the board and eye tests. */
  method ElephantStepOn(board: array2<Cell>, piece: Piece, moves: seq<Pos>, dr: int, dc: int) returns (res: seq<Pos>)
    requires IsBoard(board)
    ensures res == ElephantStep(Snapshot(board), piece, moves, (dr, dc))
  {
    res := moves;
    var nr, nc := piece.pos.r + dr, piece.pos.c + dc;
    if piece.color == Red && nr < 5 {
      return;
    }
    if piece.color == Black && nr > 4 {
      return;
    }
    var eyeR, eyeC := piece.pos.r + dr / 2, piece.pos.c + dc / 2;
    if IsValidPos(nr, nc) && IsValidPos(eyeR, eyeC) && board[eyeR, eyeC].None? {
      res := AddMoveOn(board, piece.color, moves, nr, nc);
    }
  }

  method ElephantLoop(board: array2<Cell>, piece: Piece, steps: seq<(int, int)>) returns (moves: seq<Pos>)
    requires IsBoard(board)
    ensures moves == ElephantMoves(Snapshot(board), piece, steps)
  {
    ghost var g := Snapshot(board);
    moves := [];
    var k := 0;
    while k < |steps|
      invariant 0 <= k <= |steps|
      invariant moves == ElephantMoves(g, piece, steps[..k])
    {
      var (dr, dc) := steps[k];
      assert steps[..k + 1][..k] == steps[..k];
      moves := ElephantStepOn(board, piece, moves, dr, dc);
      k := k + 1;
    }
    assert steps[..k] == steps;
  }

  /** One horse jump: the target must be on the board and the leg empty. */
  method HorseStepOn(board: array2<Cell>, piece: Piece, moves: seq<Pos>, j: Jump) returns (res: seq<Pos>)
    requires IsBoard(board)
    ensures res == HorseStep(Snapshot(board), piece, moves, j)
  {
    res := moves;
    var nr, nc := piece.pos.r + j.dr, piece.pos.c + j.dc;
    var legR, legC := piece.pos.r + j.legR, piece.pos.c + j.legC;
    if IsValidPos(nr, nc) && IsValidPos(legR, legC) && board[legR, legC].None? {
      res := AddMoveOn(board, piece.color, moves, nr, nc);
    }
  }

  method HorseLoop(board: array2<Cell>, piece: Piece, jumps: seq<Jump>) returns (moves: seq<Pos>)
    requires IsBoard(board)
    ensures moves == HorseMoves(Snapshot(board), piece, jumps)
  {
    ghost var g := Snapshot(board);
    moves := [];
    var k := 0;
    while k < |jumps|
      invariant 0 <= k <= |jumps|
      invariant moves == HorseMoves(g, piece, jumps[..k])
    {
      assert jumps[..k + 1][..k] == jumps[..k];
      moves := HorseStepOn(board, piece, moves, jumps[k]);
      k := k + 1;
    }
    assert jumps[..k] == jumps;
  }

  /** One square of a chariot ray: extends `moves`, or ends the ray. */
  method ChariotStepOn(board: array2<Cell>, color: Color, nr: int, nc: int, dr: int, dc: int, moves: seq<Pos>)
    returns (moves': seq<Pos>, stop: bool)
    requires IsBoard(board) && IsDir(dr, dc) && IsValidPos(nr, nc)
    ensures stop ==> ChariotRayAcc(Snapshot(board), color, nr, nc, dr, dc, moves) == moves'
    ensures !stop ==> (ChariotRayAcc(Snapshot(board), color, nr, nc, dr, dc, moves)
                       == ChariotRayAcc(Snapshot(board), color, nr + dr, nc + dc, dr, dc, moves'))
  {
    var target := board[nr, nc];
    moves', stop := moves, false;
    if target.None? {
      moves' := AddMoveOn(board, color, moves, nr, nc);
    } else {
      if target.value.color != color {
        moves' := AddMoveOn(board, color, moves, nr, nc);
      }
      stop := true;
    }
  }

  /** One `while (true)` ray of the chariot. */
  method ChariotRayLoop(board: array2<Cell>, piece: Piece, dr: int, dc: int, moves0: seq<Pos>) returns (moves: seq<Pos>)
    requires IsBoard(board) && IsDir(dr, dc)
    ensures moves == moves0 + ChariotRay(Snapshot(board), piece.color, piece.pos.r + dr, piece.pos.c + dc, dr, dc)
  {
    moves := ChariotRayWalk(board, piece, dr, dc, moves0);
    ChariotRayAccAppends(Snapshot(board), piece.color, piece.pos.r + dr, piece.pos.c + dc, dr, dc, moves0);
  }

  /** One `while (true)` ray of the chariot in `getValidMoves`, which
      computes the i-th cell as (r + dr * i, c + dc * i); the loop keeps
      that cell in (nr, nc). */
  method ChariotRayWalk(board: array2<Cell>, piece: Piece, dr: int, dc: int, moves0: seq<Pos>) returns (moves: seq<Pos>)
    requires IsBoard(board) && IsDir(dr, dc)
    ensures moves == ChariotRayAcc(Snapshot(board), piece.color, piece.pos.r + dr, piece.pos.c + dc, dr, dc, moves0)
  {
    ghost var g := Snapshot(board);
    ghost var whole := ChariotRayAcc(g, piece.color, piece.pos.r + dr, piece.pos.c + dc, dr, dc, moves0);
    moves := moves0;
    var nr, nc := piece.pos.r + dr, piece.pos.c + dc;
    while true
      invariant ChariotRayAcc(g, piece.color, nr, nc, dr, dc, moves) == whole
      decreases RayRoom(nr, nc, dr, dc)
    {
      if !IsValidPos(nr, nc) {
        break;
      }
      var stop;
      moves, stop := ChariotStepOn(board, piece.color, nr, nc, dr, dc, moves);
      if stop {
        break;
      }
      nr, nc := nr + dr, nc + dc;
    }
  }

  /** One square of a cannon ray: extends `moves`, sets `jumped`, or ends the ray. */
  method CannonStepOn(board: array2<Cell>, color: Color, nr: int, nc: int, dr: int, dc: int, jumped: bool, moves: seq<Pos>)
    returns (moves': seq<Pos>, jumped': bool, stop: bool)
    requires IsBoard(board) && IsDir(dr, dc) && IsValidPos(nr, nc)
    ensures stop ==> CannonRayAcc(Snapshot(board), color, nr, nc, dr, dc, jumped, moves) == moves'
    ensures !stop ==> (CannonRayAcc(Snapshot(board), color, nr, nc, dr, dc, jumped, moves)
                       == CannonRayAcc(Snapshot(board), color, nr + dr, nc + dc, dr, dc, jumped', moves'))
  {
    var target := board[nr, nc];
    moves', jumped', stop := moves, jumped, false;
    if !jumped {
      if target.None? {
        moves' := AddMoveOn(board, color, moves, nr, nc);
      } else {
        jumped' := true;
      }
    } else if target.Some? {
      if target.value.color != color {
        moves' := AddMoveOn(board, color, moves, nr, nc);
      }
      stop := true;
    }
  }

  /** One `while (true)` ray of the cannon, with the `jumped` flag. */
  method CannonRayLoop(board: array2<Cell>, piece: Piece, dr: int, dc: int, moves0: seq<Pos>) returns (moves: seq<Pos>)
    requires IsBoard(board) && IsDir(dr, dc)
    ensures moves == moves0 + CannonRay(Snapshot(board), piece.color, piece.pos.r + dr, piece.pos.c + dc, dr, dc, false)
  {
    moves := CannonRayWalk(board, piece, dr, dc, moves0);
    CannonRayAccAppends(Snapshot(board), piece.color, piece.pos.r + dr, piece.pos.c + dc, dr, dc, moves0);
  }

  method CannonRayWalk(board: array2<Cell>, piece: Piece, dr: int, dc: int, moves0: seq<Pos>) returns (moves: seq<Pos>)
    requires IsBoard(board) && IsDir(dr, dc)
    ensures moves == CannonRayAcc(Snapshot(board), piece.color, piece.pos.r + dr, piece.pos.c + dc, dr, dc, false, moves0)
  {
    ghost var g := Snapshot(board);
    ghost var whole := CannonRayAcc(g, piece.color, piece.pos.r + dr, piece.pos.c + dc, dr, dc, false, moves0);
    moves := moves0;
    var nr, nc := piece.pos.r + dr, piece.pos.c + dc;
    var jumped := false;
    while true
      invariant CannonRayAcc(g, piece.color, nr, nc, dr, dc, jumped, moves) == whole
      decreases RayRoom(nr, nc, dr, dc)
    {
      if !IsValidPos(nr, nc) {
        break;
      }
      var stop;
      moves, jumped, stop := CannonStepOn(board, piece.color, nr, nc, dr, dc, jumped, moves);
      if stop {
        break;
      }
      nr, nc := nr + dr, nc + dc;
    }
  }

  /** The chariot's `for (const [dr, dc] of dirs)` loop. */
  method ChariotLoop(board: array2<Cell>, piece: Piece) returns (moves: seq<Pos>)
    requires IsBoard(board)
    ensures moves == ChariotMoves(Snapshot(board), piece, RAY_DIRS)
  {
    ghost var g := Snapshot(board);
    moves := [];
    var k := 0;
    while k < |RAY_DIRS|
      invariant 0 <= k <= |RAY_DIRS|
      invariant moves == ChariotMoves(g, piece, RAY_DIRS[..k])
    {
      var (dr, dc) := RAY_DIRS[k];
      assert RAY_DIRS[..k + 1][..k] == RAY_DIRS[..k];
      moves := ChariotRayLoop(board, piece, dr, dc, moves);
      k := k + 1;
    }
    assert RAY_DIRS[..k] == RAY_DIRS;
  }

  /** The cannon's `for (const [dr, dc] of dirs)` loop. */
  method CannonLoop(board: array2<Cell>, piece: Piece) returns (moves: seq<Pos>)
    requires IsBoard(board)
    ensures moves == CannonMoves(Snapshot(board), piece, RAY_DIRS)
  {
    ghost var g := Snapshot(board);
    moves := [];
    var k := 0;
    while k < |RAY_DIRS|
      invariant 0 <= k <= |RAY_DIRS|
      invariant moves == CannonMoves(g, piece, RAY_DIRS[..k])
    {
      var (dr, dc) := RAY_DIRS[k];
      assert RAY_DIRS[..k + 1][..k] == RAY_DIRS[..k];
      moves := CannonRayLoop(board, piece, dr, dc, moves);
      k := k + 1;
    }
    assert RAY_DIRS[..k] == RAY_DIRS;
  }

  /** `getValidMoves`. */
  method GetValidMoves(board: array2<Cell>, piece: Piece) returns (moves: seq<Pos>)
    requires IsBoard(board)
    ensures moves == ValidMoves(Snapshot(board), piece)
  {
    var r, c := piece.pos.r, piece.pos.c;
    match piece.kind {
      case General =>
        moves := PalaceLoop(board, piece, GENERAL_STEPS);
      case Advisor =>
        moves := PalaceLoop(board, piece, ADVISOR_STEPS);
      case Elephant =>
        moves := ElephantLoop(board, piece, ELEPHANT_STEPS);
      case Horse =>
        moves := HorseLoop(board, piece, HORSE_JUMPS);
      case Chariot =>
        moves := ChariotLoop(board, piece);
      case Cannon =>
        moves := CannonLoop(board, piece);
      case Soldier =>
        var forward := if piece.color == Red then -1 else 1;
        var crossedRiver := if piece.color == Red then r <= 4 else r >= 5;
        moves := AddMoveOn(board, piece.color, [], r + forward, c);
        if crossedRiver {
          moves := AddMoveOn(board, piece.color, moves, r, c - 1);
          moves := AddMoveOn(board, piece.color, moves, r, c + 1);
        }
    }
  }

  /** Step 1 of `isInCheck`: scan rows, then columns, for the General. */
  /** One row of step 1 of `isInCheck`: the General of `color` in row r,
      if there is one. */
  method RowGeneral(board: array2<Cell>, color: Color, r: int) returns (generalPos: Option<Pos>)
    requires IsBoard(board) && 0 <= r < ROWS
    ensures generalPos.Some? ==> generalPos == FindGeneralFrom(Snapshot(board), color, r, 0)
    ensures generalPos.None? ==> FindGeneralFrom(Snapshot(board), color, r + 1, 0) == FindGeneralFrom(Snapshot(board), color, r, 0)
  {
    ghost var g := Snapshot(board);
    var c := 0;
    while c < COLS
      invariant 0 <= c <= COLS
      invariant FindGeneralFrom(g, color, r, c) == FindGeneralFrom(g, color, r, 0)
    {
      var p := board[r, c];
      if p.Some? && p.value.kind == General && p.value.color == color {
        return Some(Pos(r, c));
      }
      c := c + 1;
    }
    return None;
  }

  method LocateGeneral(board: array2<Cell>, color: Color) returns (generalPos: Option<Pos>)
    requires IsBoard(board)
    ensures generalPos == FindGeneral(Snapshot(board), color)
  {
    var r := 0;
    while r < ROWS
      invariant 0 <= r <= ROWS
      invariant FindGeneralFrom(Snapshot(board), color, r, 0) == FindGeneral(Snapshot(board), color)
    {
      generalPos := RowGeneral(board, color, r);
      if generalPos.Some? {
        return;
      }
      r := r + 1;
    }
    return None;
  }

  /** The scan of the first c cells of row r found an attacker. */
  ghost predicate RowHitBefore(g: Grid, color: Color, r: int, c: int, target: Pos)
    requires 0 <= r < ROWS && 0 <= c <= COLS
    decreases c
  {
    c > 0 && (RowHitBefore(g, color, r, c - 1, target) || AttacksFrom(g, color, r, c - 1, target))
  }

  lemma {:induction false} RowHitBeforeIff(g: Grid, color: Color, r: int, c: int, target: Pos)
    requires 0 <= r < ROWS && 0 <= c <= COLS
    ensures RowHitBefore(g, color, r, c, target) <==> exists c' | 0 <= c' < c :: AttacksFrom(g, color, r, c', target)
    decreases c
  {
    if c > 0 {
      RowHitBeforeIff(g, color, r, c - 1, target);
    }
  }

  /** The scan of the first r rows found an attacker. */
  ghost predicate HitBefore(g: Grid, color: Color, r: int, target: Pos)
    requires 0 <= r <= ROWS
    decreases r
  {
    r > 0 && (HitBefore(g, color, r - 1, target) || RowAttacked(g, color, r - 1, target))
  }

  lemma {:induction false} HitBeforeIff(g: Grid, color: Color, r: int, target: Pos)
    requires 0 <= r <= ROWS
    ensures HitBefore(g, color, r, target) <==> exists r' | 0 <= r' < r :: RowAttacked(g, color, r', target)
    decreases r
  {
    if r > 0 {
      HitBeforeIff(g, color, r - 1, target);
    }
  }

  /** One row of step 2 of `isInCheck`: does any enemy piece of row r
      attack `target`? */
  method RowAttacks(board: array2<Cell>, color: Color, r: int, target: Pos) returns (found: bool)
    requires IsBoard(board) && 0 <= r < ROWS
    ensures found == RowAttacked(Snapshot(board), color, r, target)
  {
    ghost var g := Snapshot(board);
    var c := 0;
    while c < COLS
      invariant 0 <= c <= COLS
      invariant !RowHitBefore(g, color, r, c, target)
    {
      var p := board[r, c];
      if p.Some? && p.value.color != color {
        var moves := GetValidMoves(board, p.value);
        if target in moves {
          assert AttacksFrom(g, color, r, c, target);
          return true;
        }
      }
      c := c + 1;
    }
    RowHitBeforeIff(g, color, r, COLS, target);
    return false;
  }

  /** `isInCheck`. */
  method IsInCheck(board: array2<Cell>, color: Color) returns (check: bool)
    requires IsBoard(board)
    ensures check == InCheck(Snapshot(board), color)
  {
    ghost var g := Snapshot(board);
    var generalPos := LocateGeneral(board, color);
    if generalPos.None? {
      return false;
    }
    var gp := generalPos.value;
    var r := 0;
    while r < ROWS
      invariant 0 <= r <= ROWS
      invariant !HitBefore(g, color, r, gp)
    {
      var found := RowAttacks(board, color, r, gp);
      if found {
        return true;
      }
      r := r + 1;
    }
    HitBeforeIff(g, color, ROWS, gp);
    return false;
  }
}
