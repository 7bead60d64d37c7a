/** services/ai/Engine.ts: the entry point the game calls for the computer's
    move. It picks the search depth and time limit of the tier, copies the
    board and runs one search on the copy. */
module Engine {
  import opened Types
  import opened Folds
  import opened GameLogic
  import opened MoveGen
  import opened SearchSpec
  import opened AiSearch
  import opened DifficultyControl

  /** The depth and time limit `getBestMove` chooses for a tier. */
  function EngineSettings(difficulty: Difficulty): (req: EngineRequest)
    ensures 2 <= req.depth <= 6 && 500 <= req.timeLimit <= 3000
  {
    match difficulty
    case Easy => EngineRequest(2, 500)
    case Medium => EngineRequest(4, 1500)
    case Hard => EngineRequest(6, 3000)
  }

  /** The engine's table is the one `adjustEngineRequest` starts from, so
      with no depth adjustment both ask for the same search. */
  lemma EngineAgreesWithController(b: Difficulty, params: AiParams)
    requires params.depthAdjustment == 0
    ensures EngineSettings(params.difficulty) == AdjustEngineRequest(b, params)
  {
  }

  /** A harder tier searches at least as deep and as long. */
  lemma EngineSettingsMonotone(d: Difficulty, e: Difficulty)
    requires Rank(d) <= Rank(e)
    ensures EngineSettings(d).depth <= EngineSettings(e).depth
    ensures EngineSettings(d).timeLimit <= EngineSettings(e).timeLimit
  {
  }

  /** The copy `getBestMove` searches on: a new board holding the same
      pieces. */
  method CloneBoard(board: array2<Cell>) returns (clone: array2<Cell>)
    requires IsBoard(board)
    ensures fresh(clone) && IsBoard(clone)
    ensures Snapshot(clone) == Snapshot(board)
  {
    clone := new Cell[ROWS, COLS]((r, c) requires 0 <= r < ROWS && 0 <= c < COLS reads board => board[r, c]);
    GridExt(Snapshot(clone), Snapshot(board));
  }

  /** A legal move of the search, read in terms of the Xiangqi move
      generator and check test. */
  lemma LegalIsXiangqiLegal(rules: Rules, g: Grid, turn: Color, m: Move)
    requires IsXiangqi(rules) && LegalMove(rules, g, turn, m)
    ensures m in GenerateMoves(g, turn) && !InCheck(ApplyMove(g, m), turn)
    ensures At(g, m.from).Some? && At(g, m.from).value.color == turn
  {
    assert rules.moves(g, turn) == GenerateMoves(g, turn);
    assert rules.inCheck(ApplyMove(g, m), turn) == InCheck(ApplyMove(g, m), turn);
    GeneratedPlayable(g, turn, m);
  }

  /** `XiangqiEngine`: one searcher, reused for every move. */
  class XiangqiEngine {
    const searcher: Search

    ghost predicate Valid() {
      IsXiangqi(searcher.rules)
    }

    constructor(clock: nat -> int)
      ensures Valid() && fresh(searcher) && searcher.clock == clock
    {
      searcher := new Search(clock);
    }

    /** `getBestMove`: the caller's board is left as it was and the search
        runs on a copy with the tier's settings; `completed` is the last
        finished depth, whose root result the move is. */
    method GetBestMove(board: array2<Cell>, turn: Color, difficulty: Difficulty)
      returns (move: Option<Move>, ghost completed: nat)
      requires Valid() && IsBoard(board) && Consistent(Snapshot(board))
      modifies searcher
      ensures Snapshot(board) == old(Snapshot(board))
      ensures searcher.timeLimit == EngineSettings(difficulty).timeLimit
      ensures move.Some? ==> LegalMove(searcher.rules, Snapshot(board), turn, move.value)
      ensures completed == 0 ==> move.None?
      ensures completed <= EngineSettings(difficulty).depth
      ensures 1 <= completed ==> RootBest(searcher.rules, Snapshot(board), completed, turn, move)
      ensures completed < EngineSettings(difficulty).depth ==>
        searcher.stopSearch || (1 <= completed && MateStop(searcher.rules, Snapshot(board), completed, turn))
      ensures !searcher.stopSearch && HasLegalMove(searcher.rules, Snapshot(board), turn) ==> move.Some?
    {
      var settings := EngineSettings(difficulty);
      var clone := CloneBoard(board);
      move, completed := searcher.Search(clone, turn, settings.depth, settings.timeLimit);
    }
  }
}
