/** The starting position (constants.ts): board dimensions, the 32-entry
    set-up table and `createInitialBoard`, with what the table guarantees
    about the board it produces. */
module Setup {
  import opened Types
  import opened Decimal

  /** One entry of the set-up table: a piece kind and colour at a cell. */
  datatype SetupEntry = SetupEntry(kind: PieceType, color: Color, pos: Pos)

  /** Red at the bottom (rows 5..9), Black at the top (rows 0..4). */
  const INITIAL_BOARD_SETUP: seq<SetupEntry> := [
    SetupEntry(Chariot, Red, Pos(9, 0)),
    SetupEntry(Horse, Red, Pos(9, 1)),
    SetupEntry(Elephant, Red, Pos(9, 2)),
    SetupEntry(Advisor, Red, Pos(9, 3)),
    SetupEntry(General, Red, Pos(9, 4)),
    SetupEntry(Advisor, Red, Pos(9, 5)),
    SetupEntry(Elephant, Red, Pos(9, 6)),
    SetupEntry(Horse, Red, Pos(9, 7)),
    SetupEntry(Chariot, Red, Pos(9, 8)),
    SetupEntry(Cannon, Red, Pos(7, 1)),
    SetupEntry(Cannon, Red, Pos(7, 7)),
    SetupEntry(Soldier, Red, Pos(6, 0)),
    SetupEntry(Soldier, Red, Pos(6, 2)),
    SetupEntry(Soldier, Red, Pos(6, 4)),
    SetupEntry(Soldier, Red, Pos(6, 6)),
    SetupEntry(Soldier, Red, Pos(6, 8)),
    SetupEntry(Chariot, Black, Pos(0, 0)),
    SetupEntry(Horse, Black, Pos(0, 1)),
    SetupEntry(Elephant, Black, Pos(0, 2)),
    SetupEntry(Advisor, Black, Pos(0, 3)),
    SetupEntry(General, Black, Pos(0, 4)),
    SetupEntry(Advisor, Black, Pos(0, 5)),
    SetupEntry(Elephant, Black, Pos(0, 6)),
    SetupEntry(Horse, Black, Pos(0, 7)),
    SetupEntry(Chariot, Black, Pos(0, 8)),
    SetupEntry(Cannon, Black, Pos(2, 1)),
    SetupEntry(Cannon, Black, Pos(2, 7)),
    SetupEntry(Soldier, Black, Pos(3, 0)),
    SetupEntry(Soldier, Black, Pos(3, 2)),
    SetupEntry(Soldier, Black, Pos(3, 4)),
    SetupEntry(Soldier, Black, Pos(3, 6)),
    SetupEntry(Soldier, Black, Pos(3, 8))
  ]

  function ColorName(c: Color): string {
    match c
    case Red => "red"
    case Black => "black"
  }

  function KindName(k: PieceType): string {
    match k
    case General => "general"
    case Advisor => "advisor"
    case Elephant => "elephant"
    case Horse => "horse"
    case Chariot => "chariot"
    case Cannon => "cannon"
    case Soldier => "soldier"
  }

  /** The piece id `<color>-<type>-<index>`. */
  function PieceId(e: SetupEntry, index: nat): string {
    ColorName(e.color) + "-" + KindName(e.kind) + "-" + NatToString(index)
  }

  /** The piece created for entry `index` of the table. */
  function SetupPiece(index: nat): Piece
    requires index < |INITIAL_BOARD_SETUP|
  {
    var e := INITIAL_BOARD_SETUP[index];
    Piece(PieceId(e, index), e.kind, e.color, e.pos)
  }

  function EmptyGrid(): Grid {
    EmptyRows()
  }

  /** The board after placing the first n entries of the table, in order. */
  function Placed(n: nat): Grid
    requires n <= |INITIAL_BOARD_SETUP|
  {
    if n == 0 then EmptyGrid()
    else
      SetupOnBoard();
      SetCell(Placed(n - 1), INITIAL_BOARD_SETUP[n - 1].pos, Some(SetupPiece(n - 1)))
  }

  function InitialGrid(): Grid {
    Placed(|INITIAL_BOARD_SETUP|)
  }

  /** The table entry that the set-up puts on cell p, in closed form. */
  function SetupIndex(p: Pos): Option<nat> {
    if !OnBoard(p) then None
    else
      var base, rr := if p.r >= 5 then 0 else 16, if p.r >= 5 then p.r else 9 - p.r;
      if rr == 9 then Some(base + p.c)
      else if rr == 7 && p.c == 1 then Some(base + 9)
      else if rr == 7 && p.c == 7 then Some(base + 10)
      else if rr == 6 && p.c % 2 == 0 then Some(base + 11 + p.c / 2)
      else None
  }

  // ---------------------------------------------------------------------
  // createInitialBoard
  // ---------------------------------------------------------------------

  /** One iteration of `createInitialBoard`: the piece of entry `index` is
      written to the entry's cell. */
  method PlaceEntry(board: array2<Cell>, index: nat)
    requires IsBoard(board) && index < |INITIAL_BOARD_SETUP|
    requires OnBoard(INITIAL_BOARD_SETUP[index].pos)
    modifies board
    ensures Snapshot(board) == SetCell(old(Snapshot(board)), INITIAL_BOARD_SETUP[index].pos, Some(SetupPiece(index)))
  {
    var p := INITIAL_BOARD_SETUP[index];
    ghost var before := Snapshot(board);
    board[p.pos.r, p.pos.c] := Some(SetupPiece(index));
    GridExt(Snapshot(board), SetCell(before, p.pos, Some(SetupPiece(index))));
  }

  /** The array `createInitialBoard` starts from: 10 rows of 9 empty cells. */
  method NewEmptyBoard() returns (board: array2<Cell>)
    ensures fresh(board) && IsBoard(board)
    ensures Snapshot(board) == EmptyGrid()
  {
    board := new Cell[ROWS, COLS]((_, _) => None);
    GridExt(Snapshot(board), EmptyGrid());
  }

  /** Placing one more entry writes that entry's piece to its cell. */
  lemma PlacedStep(n: nat)
    requires n < |INITIAL_BOARD_SETUP|
    ensures OnBoard(INITIAL_BOARD_SETUP[n].pos)
    ensures Placed(n + 1) == SetCell(Placed(n), INITIAL_BOARD_SETUP[n].pos, Some(SetupPiece(n)))
  {
    SetupOnBoard();
  }

  /** The `forEach` loop of `createInitialBoard`: the 32 entries are placed
      in table order. */
  method PlaceAll(board: array2<Cell>)
    requires IsBoard(board) && Snapshot(board) == EmptyGrid()
    modifies board
    ensures Snapshot(board) == InitialGrid()
  {
    SetupOnBoard();
    var index := 0;
    while index < 32
      invariant 0 <= index <= 32
      invariant Snapshot(board) == Placed(index)
    {
      PlacedStep(index);
      PlaceEntry(board, index);
      index := index + 1;
    }
  }

  /** `createInitialBoard`: a fresh 10x9 board holding exactly the pieces of
      the set-up table. */
  method CreateInitialBoard() returns (board: array2<Cell>)
    ensures fresh(board) && IsBoard(board)
    ensures Snapshot(board) == InitialGrid()
  {
    board := NewEmptyBoard();
    PlaceAll(board);
  }

  // ---------------------------------------------------------------------
  // Facts about the table
  // ---------------------------------------------------------------------

  /** Every entry is on the board. */
  lemma SetupOnBoard()
    ensures |INITIAL_BOARD_SETUP| == 32
    ensures forall k | 0 <= k < |INITIAL_BOARD_SETUP| :: OnBoard(INITIAL_BOARD_SETUP[k].pos)
  {
    forall k | 0 <= k < |INITIAL_BOARD_SETUP| ensures OnBoard(INITIAL_BOARD_SETUP[k].pos) {
      assert k == 0 || k == 1 || k == 2 || k == 3 || k == 4 || k == 5 || k == 6 || k == 7 || k == 8 || k == 9 || k == 10 || k == 11 || k == 12 || k == 13 || k == 14 || k == 15 || k == 16 || k == 17 || k == 18 || k == 19 || k == 20 || k == 21 || k == 22 || k == 23 || k == 24 || k == 25 || k == 26 || k == 27 || k == 28 || k == 29 || k == 30 || k == 31;
    }
  }

  /** The closed form inverts the table: entry k is found at its own cell. */
  lemma SetupIndexOfEntry()
    ensures forall k | 0 <= k < |INITIAL_BOARD_SETUP| :: SetupIndex(INITIAL_BOARD_SETUP[k].pos) == Some(k)
  {
    forall k | 0 <= k < |INITIAL_BOARD_SETUP| ensures SetupIndex(INITIAL_BOARD_SETUP[k].pos) == Some(k) {
      assert k == 0 || k == 1 || k == 2 || k == 3 || k == 4 || k == 5 || k == 6 || k == 7 || k == 8 || k == 9 || k == 10 || k == 11 || k == 12 || k == 13 || k == 14 || k == 15 || k == 16 || k == 17 || k == 18 || k == 19 || k == 20 || k == 21 || k == 22 || k == 23 || k == 24 || k == 25 || k == 26 || k == 27 || k == 28 || k == 29 || k == 30 || k == 31;
    }
  }

  /** ... and every index the closed form yields names an entry at that cell. */
  lemma SetupIndexSound(p: Pos)
    ensures SetupIndex(p).Some? ==>
      SetupIndex(p).value < |INITIAL_BOARD_SETUP| && INITIAL_BOARD_SETUP[SetupIndex(p).value].pos == p
  {
  }

  /** The 32 entries occupy 32 distinct cells. */
  lemma SetupPositionsDistinct(j: nat, k: nat)
    requires j < |INITIAL_BOARD_SETUP| && k < |INITIAL_BOARD_SETUP| && j != k
    ensures INITIAL_BOARD_SETUP[j].pos != INITIAL_BOARD_SETUP[k].pos
  {
    SetupIndexOfEntry();
  }

  /** Black's half of the table is Red's half reflected across the river:
      entry k + 16 has the kind of entry k, colour Black and row 9 - r. */
  lemma SetupMirror(k: nat)
    requires k < 16
    ensures INITIAL_BOARD_SETUP[k].color == Red
    ensures INITIAL_BOARD_SETUP[k + 16] ==
      SetupEntry(INITIAL_BOARD_SETUP[k].kind, Black, Pos(9 - INITIAL_BOARD_SETUP[k].pos.r, INITIAL_BOARD_SETUP[k].pos.c))
  {
    assert k == 0 || k == 1 || k == 2 || k == 3 || k == 4 || k == 5 || k == 6 || k == 7 || k == 8 || k == 9 || k == 10 || k == 11 || k == 12 || k == 13 || k == 14 || k == 15;
  }

  /** The closed form reflects the same way: the cell across the river holds
      the entry 16 places away in the table. */
  lemma SetupIndexMirror(p: Pos)
    requires OnBoard(p)
    ensures SetupIndex(Pos(9 - p.r, p.c)).Some? <==> SetupIndex(p).Some?
    ensures SetupIndex(p).Some? ==>
      SetupIndex(Pos(9 - p.r, p.c)).value ==
        (if SetupIndex(p).value < 16 then SetupIndex(p).value + 16 else SetupIndex(p).value - 16)
  {
  }

  /** Each colour has exactly one General in the table. */
  lemma SetupGenerals(k: nat)
    requires k < |INITIAL_BOARD_SETUP| && INITIAL_BOARD_SETUP[k].kind == General
    ensures k == 4 || k == 20
  {
    assert k == 0 || k == 1 || k == 2 || k == 3 || k == 4 || k == 5 || k == 6 || k == 7 || k == 8 || k == 9 || k == 10 || k == 11 || k == 12 || k == 13 || k == 14 || k == 15 || k == 16 || k == 17 || k == 18 || k == 19 || k == 20 || k == 21 || k == 22 || k == 23 || k == 24 || k == 25 || k == 26 || k == 27 || k == 28 || k == 29 || k == 30 || k == 31;
  }

  // ---------------------------------------------------------------------
  // Facts about the initial board
  // ---------------------------------------------------------------------

  /** What cell p holds once the first n entries are placed. */
  function PlacedCell(n: nat, p: Pos): Cell
    requires n <= |INITIAL_BOARD_SETUP|
  {
    var idx := SetupIndex(p);
    if idx.Some? && idx.value < n then Some(SetupPiece(idx.value)) else None
  }

  lemma {:induction false} PlacedAt(n: nat, p: Pos)
    requires n <= |INITIAL_BOARD_SETUP| && OnBoard(p)
    ensures At(Placed(n), p) == PlacedCell(n, p)
  {
    if n > 0 {
      PlacedAt(n - 1, p);
      PlacedStep(n - 1);
      PlacedCellStep(n - 1, p);
    }
  }

  /** Placing entry n sets its own cell and leaves every other cell. */
  lemma PlacedCellStep(n: nat, p: Pos)
    requires n < |INITIAL_BOARD_SETUP| && OnBoard(p)
    ensures PlacedCell(n + 1, p) == if p == INITIAL_BOARD_SETUP[n].pos then Some(SetupPiece(n)) else PlacedCell(n, p)
  {
    if p == INITIAL_BOARD_SETUP[n].pos {
      SetupIndexAt(n);
    } else {
      SetupIndexSound(p);
    }
  }

  /** Entry k is found at its own cell. */
  lemma SetupIndexAt(k: nat)
    requires k < |INITIAL_BOARD_SETUP|
    ensures SetupIndex(INITIAL_BOARD_SETUP[k].pos) == Some(k)
  {
    SetupIndexOfEntry();
  }

  /** The initial board in closed form: cell p holds the piece of entry
      SetupIndex(p), and is empty when there is none. */
  lemma InitialAt(p: Pos)
    requires OnBoard(p)
    ensures At(InitialGrid(), p) == (if SetupIndex(p).Some? then Some(SetupPiece(SetupIndex(p).value)) else None)
  {
    PlacedAt(|INITIAL_BOARD_SETUP|, p);
    SetupIndexSound(p);
  }

  /** Every piece of the initial board records the cell it stands on. */
  lemma InitialConsistent()
    ensures Consistent(InitialGrid())
  {
    forall r, c | IsValidPos(r, c) && InitialGrid()[r][c].Some?
      ensures InitialGrid()[r][c].value.pos == Pos(r, c)
    {
      InitialAt(Pos(r, c));
      SetupIndexSound(Pos(r, c));
    }
  }

  /** The initial board holds exactly one General per colour: Red's on
      (9, 4) and Black's on (0, 4). */
  lemma InitialGenerals(r: int, c: int)
    requires IsValidPos(r, c)
    ensures InitialGrid()[r][c].Some? && InitialGrid()[r][c].value.kind == General <==> c == 4 && (r == 9 || r == 0)
    ensures InitialGrid()[r][c].Some? && InitialGrid()[r][c].value.kind == General ==>
      InitialGrid()[r][c].value.color == (if r == 9 then Red else Black)
  {
    InitialAt(Pos(r, c));
    SetupIndexSound(Pos(r, c));
    if InitialGrid()[r][c].Some? && InitialGrid()[r][c].value.kind == General {
      SetupGenerals(SetupIndex(Pos(r, c)).value);
    }
  }

  /** The initial board is symmetric across the river: the cell reflected
      to row 9 - r holds the same kind of piece of the other colour. */
  lemma InitialMirror(r: int, c: int)
    requires IsValidPos(r, c)
    ensures InitialGrid()[r][c].Some? <==> InitialGrid()[9 - r][c].Some?
    ensures InitialGrid()[r][c].Some? ==>
      InitialGrid()[9 - r][c].value.kind == InitialGrid()[r][c].value.kind &&
      InitialGrid()[9 - r][c].value.color == Opponent(InitialGrid()[r][c].value.color)
  {
    InitialAt(Pos(r, c));
    InitialAt(Pos(9 - r, c));
    SetupIndexMirror(Pos(r, c));
    var i := SetupIndex(Pos(r, c));
    if i.Some? {
      var k := i.value;
      SetupIndexSound(Pos(r, c));
      if k < 16 {
        SetupMirror(k);
      } else {
        SetupMirror(k - 16);
      }
    }
  }

  // ---------------------------------------------------------------------
  // Piece ids are distinct
  // ---------------------------------------------------------------------

  /** The text after the last '-'. */
  function LastField(s: string): string
    decreases |s|
  {
    if s == [] || s[|s| - 1] == '-' then [] else LastField(s[..|s| - 1]) + [s[|s| - 1]]
  }

  lemma {:induction false} LastFieldAfterDash(a: string, d: string)
    requires '-' !in d
    ensures LastField(a + "-" + d) == d
    decreases |d|
  {
    if d == [] {
      assert (a + "-" + d)[|a + "-" + d| - 1] == '-';
    } else {
      var n := |d| - 1;
      assert (a + "-" + d)[..|a + "-" + d| - 1] == a + "-" + d[..n];
      LastFieldAfterDash(a, d[..n]);
      assert d[..n] + [d[n]] == d;
    }
  }

  /** The table index can be read back from a piece id. */
  lemma PieceIdIndex(e: SetupEntry, index: nat)
    ensures ParseNat(LastField(PieceId(e, index))) == index
  {
    ParseNatToString(index);
    NatToStringDigits(index);
    LastFieldAfterDash(ColorName(e.color) + "-" + KindName(e.kind), NatToString(index));
  }

  /** Two pieces of the initial board with the same id stand on the same cell. */
  lemma InitialIdsDistinct(p: Pos, q: Pos)
    requires OnBoard(p) && OnBoard(q)
    requires At(InitialGrid(), p).Some? && At(InitialGrid(), q).Some?
    requires At(InitialGrid(), p).value.id == At(InitialGrid(), q).value.id
    ensures p == q
  {
    InitialAt(p);
    InitialAt(q);
    SetupIndexSound(p);
    SetupIndexSound(q);
    var i, j := SetupIndex(p).value, SetupIndex(q).value;
    PieceIdIndex(INITIAL_BOARD_SETUP[i], i);
    PieceIdIndex(INITIAL_BOARD_SETUP[j], j);
  }
}
