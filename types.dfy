/** Shared data model of the Xiangqi engine: colours, piece kinds, positions,
    pieces, moves and the 10x9 board, both as a mutable `array2` (what the
    engine mutates) and as an immutable value `Grid` (what specifications talk
    about). */
module Types {

  datatype Option<T> = None | Some(value: T)

  /** The outcome of code that dereferences a value asserted present with
      `!`: `Throws` when it is missing and the dereference raises a
      `TypeError`. */
  datatype Result<T> = Ok(value: T) | Throws

  /** Concatenation is associative. */
  lemma Regroup<T>(a: seq<T>, b: seq<T>, c: seq<T>)
    ensures a + (b + c) == (a + b) + c
  {
  }

  datatype Color = Red | Black

  function Opponent(c: Color): (o: Color)
    ensures o != c
  {
    if c == Red then Black else Red
  }

  datatype PieceType = General | Advisor | Elephant | Horse | Chariot | Cannon | Soldier

  /** A board coordinate. Candidate destinations are computed with plain
      integer arithmetic and may lie off the board. */
  datatype Pos = Pos(r: int, c: int)

  /** `kind` is the piece's type; `pos` is the position it believes it has. */
  datatype Piece = Piece(id: string, kind: PieceType, color: Color, pos: Pos)

  datatype Move = Move(from: Pos, to: Pos)

  type Cell = Option<Piece>

  const ROWS: int := 10
  const COLS: int := 9

  predicate IsValidPos(r: int, c: int) {
    0 <= r < ROWS && 0 <= c < COLS
  }

  predicate OnBoard(p: Pos) {
    IsValidPos(p.r, p.c)
  }

  /** A board value: exactly 10 rows of exactly 9 cells. */
  type Grid = g: seq<seq<Cell>> | IsGridShape(g) witness EmptyRows()

  predicate IsGridShape(g: seq<seq<Cell>>) {
    |g| == ROWS && forall r | 0 <= r < |g| :: |g[r]| == COLS
  }

  function EmptyRows(): (g: seq<seq<Cell>>)
    ensures IsGridShape(g)
  {
    seq(ROWS, _ => seq(COLS, _ => None))
  }

  function At(g: Grid, p: Pos): Cell
    requires OnBoard(p)
  {
    g[p.r][p.c]
  }

  /** The grid with cell `p` replaced by `v`. */
  function SetCell(g: Grid, p: Pos, v: Cell): (h: Grid)
    requires OnBoard(p)
    ensures At(h, p) == v
    ensures forall q :: OnBoard(q) && q != p ==> At(h, q) == At(g, q)
  {
    g[p.r := g[p.r][p.c := v]]
  }

  /** Every piece on the grid records the cell it is stored in. */
  ghost predicate Consistent(g: Grid) {
    forall r, c :: IsValidPos(r, c) && g[r][c].Some? ==> g[r][c].value.pos == Pos(r, c)
  }

  /** A mutable board of the right shape. */
  predicate IsBoard(b: array2<Cell>) {
    b.Length0 == ROWS && b.Length1 == COLS
  }

  /** The value currently held by a mutable board. */
  function Snapshot(b: array2<Cell>): (g: Grid)
    requires IsBoard(b)
    reads b
    ensures forall r, c :: IsValidPos(r, c) ==> g[r][c] == b[r, c]
  {
    var rows := seq(ROWS, r requires 0 <= r < ROWS reads b => seq(COLS, c requires 0 <= c < COLS reads b => b[r, c]));
    assert IsGridShape(rows);
    rows
  }

  /** Two grids are equal when they agree on every cell. */
  lemma {:induction false} GridExt(g: Grid, h: Grid)
    requires forall r, c :: IsValidPos(r, c) ==> g[r][c] == h[r][c]
    ensures g == h
  {
    forall r | 0 <= r < ROWS ensures g[r] == h[r] {
      assert forall c | 0 <= c < COLS :: g[r][c] == h[r][c];
    }
  }

  datatype Difficulty = Easy | Medium | Hard

  // ---------------------------------------------------------------------
  // Tournament records
  // ---------------------------------------------------------------------

  datatype Stats = Stats(played: int, won: int, drawn: int, lost: int, points: int)

  /** `strength` (1..10) drives the simulation of AI-only matches and the
      league difficulty of the computer opponent. */
  datatype Team = Team(id: string, name: string, isPlayer: bool, stats: Stats, strength: int)

  /** A scheduled or played match; the scores are null until it is played. */
  datatype Match = Match(
    id: string, round: int, teamAId: string, teamBId: string,
    scoreA: Option<int>, scoreB: Option<int>, isPlayed: bool, stageName: Option<string>)

  datatype TournamentType = League | Cup

  datatype Phase = GroupPhase | KnockoutPhase

  /** `TournamentState`; its `type` field is called `kind` here. */
  datatype TournamentState = TournamentState(
    kind: TournamentType, teams: seq<Team>, matches: seq<Match>, currentRound: int,
    isFinished: bool, winnerId: Option<string>, groups: Option<map<string, seq<string>>>, phase: Option<Phase>)
}
