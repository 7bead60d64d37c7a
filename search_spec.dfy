/** Reference values for the search in services/ai/Search.ts: negamax over
    the legal moves of the move generator, capture-only quiescence below
    depth 0, and the fail-hard window the alpha-beta search returns within.

    The values are defined over a `Rules` record holding the three
    collaborators the search consults (move generation, the check test and
    the static evaluation); `XIANGQI` instantiates it with the functions of
    modules MoveGen, GameLogic and Evaluation. */
module SearchSpec {
  import opened Types
  import opened GameLogic
  import opened MoveRules
  import opened MoveGen
  import opened Evaluation
  import opened Folds

  const INFINITY := 1000000
  const MATE_SCORE := 100000

  /** Depths up to this bound keep every score strictly inside the root
      window (-INFINITY, INFINITY). */
  const DEPTH_BOUND := 100000

  /** The collaborators of the search. */
  datatype Rules = Rules(moves: (Grid, Color) -> seq<Move>, inCheck: (Grid, Color) -> bool, eval: Grid -> int)

  const XIANGQI := Rules(GenerateMoves, InCheck, Evaluate)

  // ---------------------------------------------------------------------
  // Moves
  // ---------------------------------------------------------------------

  /** A move that make/unmake can play and undo. */
  predicate Playable(g: Grid, m: Move) {
    OnBoard(m.from) && OnBoard(m.to) && m.from != m.to && At(g, m.from).Some?
  }

  /** A playable move onto an occupied cell. */
  predicate IsCapture(g: Grid, m: Move) {
    Playable(g, m) && At(g, m.to).Some?
  }

  /** The legality test of the search loops: a generated move after which
      `turn` is not in check. */
  predicate LegalMove(rules: Rules, g: Grid, turn: Color, m: Move) {
    m in rules.moves(g, turn) && Playable(g, m) && !rules.inCheck(ApplyMove(g, m), turn)
  }

  ghost predicate HasLegalMove(rules: Rules, g: Grid, turn: Color) {
    exists m :: LegalMove(rules, g, turn, m)
  }

  /** The filter of `quiescence`: moves onto an occupied cell. */
  function Occupies(g: Grid): Move -> bool {
    (m: Move) => OnBoard(m.to) && At(g, m.to).Some?
  }

  function Captures(g: Grid, ms: seq<Move>): seq<Move> {
    Filter(ms, Occupies(g))
  }

  // ---------------------------------------------------------------------
  // Quiescence value
  // ---------------------------------------------------------------------

  /** The stand-pat score from the side to move's point of view. */
  function StandPat(rules: Rules, g: Grid, turn: Color): int {
    if turn == Red then rules.eval(g) else -rules.eval(g)
  }

  /** The quiescence value: the better of standing pat and the best legal
      capture. Captures remove a piece, so the recursion ends. */
  ghost function Quiesce(rules: Rules, g: Grid, turn: Color): int
    decreases PieceCount(g), 2
  {
    Raise(StandPat(rules, g, turn), BestBy(rules.moves(g, turn), QuiesceChildren(rules, g, turn)))
  }

  /** The value of each generated move, as the fold consumes it. */
  ghost function QuiesceChildren(rules: Rules, g: Grid, turn: Color): Move -> Option<int>
    decreases PieceCount(g), 1
  {
    m => QuiesceChild(rules, g, turn, m)
  }

  /** The value of one move: None unless it is a capture that does not
      leave `turn` in check. */
  ghost function QuiesceChild(rules: Rules, g: Grid, turn: Color, m: Move): Option<int>
    decreases PieceCount(g), 0
  {
    if !IsCapture(g, m) then None
    else
      ApplyMoveCount(g, m);
      var h := ApplyMove(g, m);
      if rules.inCheck(h, turn) then None else Some(-Quiesce(rules, h, Opponent(turn)))
  }

  // ---------------------------------------------------------------------
  // Negamax value
  // ---------------------------------------------------------------------

  /** The score with no legal move: a mate scored by the remaining depth,
      or a stalemate. */
  function MateScore(rules: Rules, g: Grid, depth: int, turn: Color): int {
    if rules.inCheck(g, turn) then -MATE_SCORE + (100 - depth) else 0
  }

  /** The negamax value at remaining depth `depth`. */
  ghost function Negamax(rules: Rules, g: Grid, depth: int, turn: Color): int
    decreases depth, 3
  {
    if depth <= 0 then Quiesce(rules, g, turn)
    else
      var best := NegamaxBest(rules, g, depth, turn);
      if best.Some? then best.value else MateScore(rules, g, depth, turn)
  }

  /** The best value over the legal moves, None when there is none. */
  ghost function NegamaxBest(rules: Rules, g: Grid, depth: int, turn: Color): Option<int>
    decreases depth, 2
  {
    BestBy(rules.moves(g, turn), NegamaxChildren(rules, g, depth, turn))
  }

  /** The value of each move, as the fold consumes it. */
  ghost function NegamaxChildren(rules: Rules, g: Grid, depth: int, turn: Color): Move -> Option<int>
    decreases depth, 1
  {
    m => NegamaxChild(rules, g, depth, turn, m)
  }

  /** The value of one move: None if it leaves `turn` in check. */
  ghost function NegamaxChild(rules: Rules, g: Grid, depth: int, turn: Color, m: Move): Option<int>
    decreases depth, 0
  {
    if depth <= 0 || !Playable(g, m) then None
    else
      var h := ApplyMove(g, m);
      if rules.inCheck(h, turn) then None else Some(-Negamax(rules, h, depth - 1, Opponent(turn)))
  }

  /** What `alphaBeta` returns when it is not stopped: the mate or stalemate
      score when there is no legal move, otherwise the fail-hard value, the
      negamax value clamped to the window. */
  ghost function AlphaBetaValue(rules: Rules, g: Grid, depth: int, alpha: int, beta: int, turn: Color): int {
    if depth > 0 && !HasLegalMove(rules, g, turn) then MateScore(rules, g, depth, turn)
    else Clamp(Negamax(rules, g, depth, turn), alpha, beta)
  }

  // ---------------------------------------------------------------------
  // Legal moves and the fold
  // ---------------------------------------------------------------------

  /** The fold finds a value exactly when some generated move is legal. */
  lemma NegamaxBestLegal(rules: Rules, g: Grid, depth: int, turn: Color)
    requires depth > 0
    ensures NegamaxBest(rules, g, depth, turn).Some? <==> HasLegalMove(rules, g, turn)
  {
    var ms := rules.moves(g, turn);
    var f := NegamaxChildren(rules, g, depth, turn);
    if BestBy(ms, f).Some? {
      var m := BestByWitness(ms, f);
      assert f(m) == NegamaxChild(rules, g, depth, turn, m);
      assert LegalMove(rules, g, turn, m);
    }
    if HasLegalMove(rules, g, turn) {
      var m :| LegalMove(rules, g, turn, m);
      assert f(m) == NegamaxChild(rules, g, depth, turn, m);
      BestByUpper(ms, f, m);
    }
  }

  // ---------------------------------------------------------------------
  // Window arithmetic
  // ---------------------------------------------------------------------

  /** Within its window the result of `alphaBeta` is the negamax value:
      they clamp to the same score. */
  lemma AlphaBetaValueClamp(rules: Rules, g: Grid, depth: int, alpha: int, beta: int, turn: Color)
    requires alpha < beta
    ensures Clamp(AlphaBetaValue(rules, g, depth, alpha, beta, turn), alpha, beta) == Clamp(Negamax(rules, g, depth, turn), alpha, beta)
  {
    if depth > 0 && !HasLegalMove(rules, g, turn) {
      NegamaxBestLegal(rules, g, depth, turn);
    }
  }

  /** Fail-hard: with a legal move (or at the horizon) the result lies in
      [alpha, beta]; with none it is exactly the mate or stalemate score. */
  lemma AlphaBetaValueWindow(rules: Rules, g: Grid, depth: int, alpha: int, beta: int, turn: Color)
    requires alpha < beta
    ensures depth <= 0 || HasLegalMove(rules, g, turn) ==> alpha <= AlphaBetaValue(rules, g, depth, alpha, beta, turn) <= beta
    ensures depth > 0 && !HasLegalMove(rules, g, turn) ==>
      AlphaBetaValue(rules, g, depth, alpha, beta, turn) == (if rules.inCheck(g, turn) then -MATE_SCORE + (100 - depth) else 0)
  {
  }

  // ---------------------------------------------------------------------
  // Bounds: every value stays strictly inside (-INFINITY, INFINITY)
  // ---------------------------------------------------------------------

  ghost predicate EvalBounded(rules: Rules) {
    forall g: Grid :: -EVAL_BOUND <= rules.eval(g) <= EVAL_BOUND
  }

  lemma QuiesceBounded(rules: Rules, g: Grid, turn: Color)
    requires EvalBounded(rules)
    ensures -EVAL_BOUND <= Quiesce(rules, g, turn) <= EVAL_BOUND
    decreases PieceCount(g)
  {
    var ms := rules.moves(g, turn);
    var f := QuiesceChildren(rules, g, turn);
    if BestBy(ms, f).Some? {
      var m := BestByWitness(ms, f);
      assert f(m) == QuiesceChild(rules, g, turn, m);
      ApplyMoveCount(g, m);
      QuiesceBounded(rules, ApplyMove(g, m), Opponent(turn));
    }
  }

  lemma NegamaxBounded(rules: Rules, g: Grid, depth: int, turn: Color)
    requires EvalBounded(rules) && depth <= DEPTH_BOUND
    ensures -EVAL_BOUND <= Negamax(rules, g, depth, turn) <= EVAL_BOUND
    decreases depth
  {
    if depth <= 0 {
      QuiesceBounded(rules, g, turn);
    } else {
      var ms := rules.moves(g, turn);
      var f := NegamaxChildren(rules, g, depth, turn);
      if BestBy(ms, f).Some? {
        var m := BestByWitness(ms, f);
        assert f(m) == NegamaxChild(rules, g, depth, turn, m);
        NegamaxBounded(rules, ApplyMove(g, m), depth - 1, Opponent(turn));
      }
    }
  }

  // ---------------------------------------------------------------------
  // The search loops, step by step
  // ---------------------------------------------------------------------

  /** A child searched in the mirrored window clamps, from the parent's
      side, like its negated negamax value. */
  lemma ChildWindow(rules: Rules, h: Grid, d: int, alpha: int, beta: int, t: Color)
    requires alpha < beta
    ensures Clamp(-AlphaBetaValue(rules, h, d, -beta, -alpha, t), alpha, beta) == Clamp(-Negamax(rules, h, d, t), alpha, beta)
  {
    AlphaBetaValueClamp(rules, h, d, -beta, -alpha, t);
    ClampNegClamp(Negamax(rules, h, d, t), AlphaBetaValue(rules, h, d, -beta, -alpha, t), alpha, beta);
  }

  /** A move whose value reaches beta fixes the fail-hard result at beta. */
  lemma NegamaxCutoff(rules: Rules, g: Grid, depth: int, alpha: int, beta: int, turn: Color, m: Move)
    requires depth > 0 && alpha < beta && m in rules.moves(g, turn)
    requires NegamaxChild(rules, g, depth, turn, m).Some? && NegamaxChild(rules, g, depth, turn, m).value >= beta
    ensures AlphaBetaValue(rules, g, depth, alpha, beta, turn) == beta
  {
    var f := NegamaxChildren(rules, g, depth, turn);
    assert f(m) == NegamaxChild(rules, g, depth, turn, m);
    assert LegalMove(rules, g, turn, m);
    BestByUpper(rules.moves(g, turn), f, m);
    assert NegamaxBest(rules, g, depth, turn) == BestBy(rules.moves(g, turn), f);
    assert Negamax(rules, g, depth, turn) >= beta;
  }

  /** One legal move of the `alphaBeta` loop: a reply score at or above beta
      fixes the result at beta, and one below it raises the running alpha
      exactly as the move's value raises the fold. */
  lemma NodeStep(rules: Rules, g: Grid, depth: int, turn: Color, m: Move, alpha0: int, alpha: int, beta: int,
                 before: Option<int>, s: int)
    requires depth > 0 && alpha0 < beta && m in rules.moves(g, turn)
    requires Playable(g, m) && !rules.inCheck(ApplyMove(g, m), turn)
    requires alpha == Raise(alpha0, before) && (before.None? || before.value < beta)
    requires s == -AlphaBetaValue(rules, ApplyMove(g, m), depth - 1, -beta, -alpha, Opponent(turn))
    ensures NegamaxChild(rules, g, depth, turn, m).Some?
    ensures s >= beta ==> AlphaBetaValue(rules, g, depth, alpha0, beta, turn) == beta
    ensures s < beta ==>
      var after := Better(before, NegamaxChild(rules, g, depth, turn, m));
      (if s > alpha then s else alpha) == Raise(alpha0, after) && after.value < beta
  {
    ChildWindow(rules, ApplyMove(g, m), depth - 1, alpha, beta, Opponent(turn));
    var v := NegamaxChild(rules, g, depth, turn, m).value;
    if s >= beta {
      NegamaxCutoff(rules, g, depth, alpha0, beta, turn, m);
    } else {
      RaiseStep(alpha0, alpha, beta, before, s, v);
    }
  }

  /** After the whole (reordered) move list without a cutoff: the mate or
      stalemate score if nothing was legal, else alpha raised by the best. */
  lemma NegamaxFoldDone(rules: Rules, g: Grid, depth: int, alpha: int, beta: int, turn: Color, s: seq<Move>)
    requires depth > 0 && alpha < beta && multiset(s) == multiset(rules.moves(g, turn))
    requires BestBy(s, NegamaxChildren(rules, g, depth, turn)).None? || BestBy(s, NegamaxChildren(rules, g, depth, turn)).value < beta
    ensures BestBy(s, NegamaxChildren(rules, g, depth, turn)).None? ==>
      AlphaBetaValue(rules, g, depth, alpha, beta, turn) == MateScore(rules, g, depth, turn)
    ensures BestBy(s, NegamaxChildren(rules, g, depth, turn)).Some? ==>
      AlphaBetaValue(rules, g, depth, alpha, beta, turn) == Raise(alpha, BestBy(s, NegamaxChildren(rules, g, depth, turn)))
  {
    BestBySame(rules.moves(g, turn), s, NegamaxChildren(rules, g, depth, turn));
    NegamaxBestLegal(rules, g, depth, turn);
  }

  /** A quiescence child searched in the mirrored window clamps like its
      negated value. */
  lemma QuiesceChildWindow(rules: Rules, h: Grid, alpha: int, beta: int, t: Color)
    requires alpha < beta
    ensures Clamp(-Clamp(Quiesce(rules, h, t), -beta, -alpha), alpha, beta) == Clamp(-Quiesce(rules, h, t), alpha, beta)
  {
    ClampNegClamp(Quiesce(rules, h, t), Clamp(Quiesce(rules, h, t), -beta, -alpha), alpha, beta);
  }

  /** A stand-pat score at or above beta fixes the result at beta. */
  lemma QuiesceStandCut(rules: Rules, g: Grid, alpha: int, beta: int, turn: Color)
    requires alpha < beta && StandPat(rules, g, turn) >= beta
    ensures Clamp(Quiesce(rules, g, turn), alpha, beta) == beta
  {
  }

  /** A capture whose value reaches beta fixes the result at beta. */
  lemma QuiesceCutoff(rules: Rules, g: Grid, alpha: int, beta: int, turn: Color, m: Move)
    requires alpha < beta && m in rules.moves(g, turn)
    requires QuiesceChild(rules, g, turn, m).Some? && QuiesceChild(rules, g, turn, m).value >= beta
    ensures Clamp(Quiesce(rules, g, turn), alpha, beta) == beta
  {
    var f := QuiesceChildren(rules, g, turn);
    assert f(m) == QuiesceChild(rules, g, turn, m);
    BestByUpper(rules.moves(g, turn), f, m);
  }

  /** One legal capture of the `quiescence` loop: a reply value at or above
      beta fixes the result at beta, and one below it raises the running
      alpha exactly as the capture's value raises the fold. */
  lemma CaptureStep(rules: Rules, g: Grid, turn: Color, m: Move, alpha0: int, alpha1: int, alpha: int, beta: int,
                    before: Option<int>, val: int)
    requires alpha0 < beta && alpha1 < beta && m in rules.moves(g, turn)
    requires IsCapture(g, m) && !rules.inCheck(ApplyMove(g, m), turn)
    requires alpha == Raise(alpha1, before) && (before.None? || before.value < beta)
    requires val == -Clamp(Quiesce(rules, ApplyMove(g, m), Opponent(turn)), -beta, -alpha)
    ensures QuiesceChild(rules, g, turn, m).Some?
    ensures val >= beta ==> Clamp(Quiesce(rules, g, turn), alpha0, beta) == beta
    ensures val < beta ==>
      var after := Better(before, QuiesceChild(rules, g, turn, m));
      (if val > alpha then val else alpha) == Raise(alpha1, after) && after.value < beta
  {
    QuiesceChildWindow(rules, ApplyMove(g, m), alpha, beta, Opponent(turn));
    var v := QuiesceChild(rules, g, turn, m).value;
    if val >= beta {
      QuiesceCutoff(rules, g, alpha0, beta, turn, m);
    } else {
      RaiseStep(alpha1, alpha, beta, before, val, v);
    }
  }

  /** After the whole (reordered) capture list without a cutoff. */
  lemma QuiesceFoldDone(rules: Rules, g: Grid, alpha: int, beta: int, turn: Color, s: seq<Move>)
    requires alpha < beta && StandPat(rules, g, turn) < beta
    requires multiset(s) == multiset(Captures(g, rules.moves(g, turn)))
    requires BestBy(s, QuiesceChildren(rules, g, turn)).None? || BestBy(s, QuiesceChildren(rules, g, turn)).value < beta
    ensures Clamp(Quiesce(rules, g, turn), alpha, beta)
      == Raise(Raise(alpha, Some(StandPat(rules, g, turn))), BestBy(s, QuiesceChildren(rules, g, turn)))
  {
    var ms := rules.moves(g, turn);
    var f := QuiesceChildren(rules, g, turn);
    forall m | m in ms && !Occupies(g)(m)
      ensures f(m).None?
    {
      assert f(m) == QuiesceChild(rules, g, turn, m);
    }
    BestByFilter(ms, Occupies(g), f);
    BestBySame(Captures(g, ms), s, f);
  }

  /** At the root (beta = INFINITY, bounded values) the score of a legal
      child improves alpha exactly when the child's value does, and is then
      that value. */
  lemma RootChildExact(rules: Rules, g: Grid, depth: int, turn: Color, m: Move, alpha: int, score: int)
    requires EvalBounded(rules) && 0 < depth <= DEPTH_BOUND && -INFINITY <= alpha < INFINITY
    requires Playable(g, m) && !rules.inCheck(ApplyMove(g, m), turn)
    requires score == -AlphaBetaValue(rules, ApplyMove(g, m), depth - 1, -INFINITY, -alpha, Opponent(turn))
    ensures NegamaxChild(rules, g, depth, turn, m).Some?
    ensures -INFINITY < NegamaxChild(rules, g, depth, turn, m).value < INFINITY
    ensures score > alpha <==> NegamaxChild(rules, g, depth, turn, m).value > alpha
    ensures score > alpha ==> score == NegamaxChild(rules, g, depth, turn, m).value
  {
    var h, t := ApplyMove(g, m), Opponent(turn);
    NegamaxBounded(rules, h, depth - 1, t);
    if depth - 1 > 0 && !HasLegalMove(rules, h, t) {
      NegamaxBestLegal(rules, h, depth - 1, t);
    }
  }

  /** What the root loop has established after some of its moves: the best
      score is -INFINITY raised by the fold `best` of their values, the best
      move is absent exactly when nothing legal was seen, and otherwise it
      is worth the best score. */
  ghost predicate RootReading(rules: Rules, g: Grid, depth: int, turn: Color, best: Option<int>,
                              bestMove: Option<Move>, bestScore: int) {
    bestScore == Raise(-INFINITY, best) && bestScore < INFINITY
    && (bestMove.None? <==> best.None?)
    && (bestMove.Some? ==> NegamaxChild(rules, g, depth, turn, bestMove.value) == Some(bestScore))
  }

  /** The root loop's reading after the first i moves of `sorted`. */
  ghost predicate RootSoFar(rules: Rules, g: Grid, depth: int, turn: Color, sorted: seq<Move>, i: int,
                            bestMove: Option<Move>, bestScore: int)
    requires 0 <= i <= |sorted|
  {
    RootReading(rules, g, depth, turn, BestBy(sorted[..i], NegamaxChildren(rules, g, depth, turn)), bestMove, bestScore)
  }

  /** One legal move of the root loop keeps its reading. */
  lemma RootStep(rules: Rules, g: Grid, depth: int, turn: Color, m: Move, before: Option<int>,
                 alpha: int, best: Option<Move>, score: int)
    requires EvalBounded(rules) && 0 < depth <= DEPTH_BOUND
    requires RootReading(rules, g, depth, turn, before, best, alpha)
    requires Playable(g, m) && !rules.inCheck(ApplyMove(g, m), turn)
    requires score == -AlphaBetaValue(rules, ApplyMove(g, m), depth - 1, -INFINITY, -alpha, Opponent(turn))
    ensures RootReading(rules, g, depth, turn, Better(before, NegamaxChild(rules, g, depth, turn, m)),
      if score > alpha then Some(m) else best, if score > alpha then score else alpha)
  {
    RootChildExact(rules, g, depth, turn, m, alpha, score);
    RaiseExact(-INFINITY, alpha, before, score, NegamaxChild(rules, g, depth, turn, m).value);
  }

  /** `move` is what `alphaBetaRoot` returns at `depth` when it finishes:
      no move exactly when none is legal, else a legal move whose child
      value is the negamax value of the position. */
  ghost predicate RootBest(rules: Rules, g: Grid, depth: int, turn: Color, move: Option<Move>) {
    (move.None? <==> !HasLegalMove(rules, g, turn)) &&
    (move.Some? ==> NegamaxChild(rules, g, depth, turn, move.value) == Some(Negamax(rules, g, depth, turn)))
  }

  /** The early exit of iterative deepening after a finished depth: the
      root score (-INFINITY without a legal move) is beyond MATE_SCORE - 100. */
  ghost predicate MateStop(rules: Rules, g: Grid, depth: int, turn: Color) {
    !HasLegalMove(rules, g, turn) || Abs(Negamax(rules, g, depth, turn)) > MATE_SCORE - 100
  }

  /** After the whole (reordered) root move list: the fold is empty exactly
      when no move is legal, and otherwise its value is the negamax value. */
  lemma RootFoldDone(rules: Rules, g: Grid, depth: int, turn: Color, s: seq<Move>)
    requires EvalBounded(rules) && 0 < depth <= DEPTH_BOUND && multiset(s) == multiset(rules.moves(g, turn))
    ensures BestBy(s, NegamaxChildren(rules, g, depth, turn)).None? <==> !HasLegalMove(rules, g, turn)
    ensures BestBy(s, NegamaxChildren(rules, g, depth, turn)).Some? ==>
      BestBy(s, NegamaxChildren(rules, g, depth, turn)).value == Negamax(rules, g, depth, turn)
      && -INFINITY < Negamax(rules, g, depth, turn) < INFINITY
  {
    BestBySame(rules.moves(g, turn), s, NegamaxChildren(rules, g, depth, turn));
    NegamaxBestLegal(rules, g, depth, turn);
    NegamaxBounded(rules, g, depth, turn);
  }

  // ---------------------------------------------------------------------
  // The Xiangqi instance
  // ---------------------------------------------------------------------

  /** `rules` consults exactly the move generator, the check test and the
      evaluation of the engine. */
  ghost predicate IsXiangqi(rules: Rules) {
    && (forall g: Grid, t: Color {:trigger GenerateMoves(g, t)} :: rules.moves(g, t) == GenerateMoves(g, t))
    && (forall g: Grid, t: Color {:trigger InCheck(g, t)} :: rules.inCheck(g, t) == InCheck(g, t))
    && (forall g: Grid {:trigger Evaluate(g)} :: rules.eval(g) == Evaluate(g))
  }

  lemma XiangqiIsXiangqi()
    ensures IsXiangqi(XIANGQI)
  {
  }

  lemma XiangqiEvalBounded(rules: Rules)
    requires IsXiangqi(rules)
    ensures EvalBounded(rules)
  {
    forall g: Grid
      ensures -EVAL_BOUND <= rules.eval(g) <= EVAL_BOUND
    {
      EvaluateBounded(g);
    }
  }

  /** Every generated move starts on a piece of `turn` and ends on another
      cell of the board. */
  lemma GeneratedPlayable(g: Grid, turn: Color, m: Move)
    requires m in GenerateMoves(g, turn)
    ensures Playable(g, m) && At(g, m.from).value.color == turn
  {
    GenerateMovesMember(g, turn, m);
    DestinationsAreTargets(g, At(g, m.from).value, m.to);
  }
}
