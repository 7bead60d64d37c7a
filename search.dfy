/** services/ai/Search.ts: iterative deepening over a fail-hard negamax
    alpha-beta search with capture-only quiescence. The board is searched
    in place by make/unmake; each method is proved to restore it and,
    unless the stop flag is raised, to return the value SearchSpec
    defines for the Xiangqi rules. */
module AiSearch {
  import opened Types
  import opened GameLogic
  import opened MoveGen
  import opened Evaluation
  import opened Folds
  import opened SearchSpec
  import MoveRules

  // ---------------------------------------------------------------------
  // Move ordering
  // ---------------------------------------------------------------------

  /** The ordering keys of `alphaBetaRoot` (weight 10) and `alphaBeta`
      (weight 1): captures before quiet moves. */
  function CaptureKey(g: Grid, weight: int): Move -> int {
    (m: Move) => if OnBoard(m.to) && At(g, m.to).Some? then weight else 0
  }

  /** The ordering key of `quiescence`: a general as victim first. */
  function VictimKey(g: Grid): Move -> int {
    (m: Move) =>
      if OnBoard(m.to) && At(g, m.to).Some? then
        (if At(g, m.to).value.kind == General then 10000 else 10)
      else 0
  }

  /** `moves.sort(...)` on a copy of the list. */
  method SortedCopy(moves: seq<Move>, key: Move -> int) returns (sorted: seq<Move>)
    ensures SortedBy(sorted, key)
    ensures multiset(sorted) == multiset(moves)
  {
    var a := new Move[|moves|](i requires 0 <= i < |moves| => moves[i]);
    assert a[..] == moves;
    SortByKey(a, key);
    sorted := a[..];
  }

  /** `moves.filter(m => board[m.to.r][m.to.c] !== null)`. */
  method FilterCaptures(board: array2<Cell>, moves: seq<Move>) returns (captures: seq<Move>)
    requires IsBoard(board) && TargetsOnBoard(moves)
    ensures captures == Captures(Snapshot(board), moves)
  {
    ghost var g := Snapshot(board);
    captures := [];
    for i := 0 to |moves|
      invariant captures == Filter(moves[..i], Occupies(g))
    {
      FilterStep(moves, Occupies(g), i);
      var m := moves[i];
      if board[m.to.r, m.to.c].Some? {
        captures := captures + [m];
      }
    }
    assert moves[..|moves|] == moves;
  }

  /** Every element of a reordering of the generated moves is playable. */
  lemma ReorderedPlayable(rules: Rules, g: Grid, turn: Color, s: seq<Move>, i: int)
    requires IsXiangqi(rules) && multiset(s) == multiset(rules.moves(g, turn)) && 0 <= i < |s|
    ensures s[i] in rules.moves(g, turn) && Playable(g, s[i])
  {
    assert s[i] in multiset(s);
    GeneratedPlayable(g, turn, s[i]);
  }

  /** Every element of a reordering of the generated captures is a capture. */
  lemma ReorderedCapture(rules: Rules, g: Grid, turn: Color, s: seq<Move>, i: int)
    requires IsXiangqi(rules) && multiset(s) == multiset(Captures(g, rules.moves(g, turn))) && 0 <= i < |s|
    ensures s[i] in rules.moves(g, turn) && IsCapture(g, s[i])
  {
    assert s[i] in multiset(s);
    FilterMember(rules.moves(g, turn), Occupies(g), s[i]);
    GeneratedPlayable(g, turn, s[i]);
  }

  lemma GeneratedOnBoard(g: Grid, turn: Color)
    ensures TargetsOnBoard(GenerateMoves(g, turn))
  {
    forall i | 0 <= i < |GenerateMoves(g, turn)|
      ensures OnBoard(GenerateMoves(g, turn)[i].to)
    {
      GeneratedPlayable(g, turn, GenerateMoves(g, turn)[i]);
    }
  }

  /** `MoveGenerator.generateMoves` seen through `rules`. */
  method MovesFor(ghost rules: Rules, board: array2<Cell>, turn: Color) returns (moves: seq<Move>)
    requires IsBoard(board) && IsXiangqi(rules)
    ensures moves == rules.moves(Snapshot(board), turn) && TargetsOnBoard(moves)
  {
    moves := GenerateMovesOn(board, turn);
    GeneratedOnBoard(Snapshot(board), turn);
  }

  /** `isInCheck` seen through `rules`. */
  method InCheckFor(ghost rules: Rules, board: array2<Cell>, turn: Color) returns (check: bool)
    requires IsBoard(board) && IsXiangqi(rules)
    ensures check == rules.inCheck(Snapshot(board), turn)
  {
    check := IsInCheck(board, turn);
  }

  /** `evaluateBoard` seen through `rules`. */
  method EvaluateFor(ghost rules: Rules, board: array2<Cell>, turn: Color) returns (score: int)
    requires IsBoard(board) && IsXiangqi(rules)
    ensures score == rules.eval(Snapshot(board))
  {
    score := EvaluateBoardOn(board, turn);
  }


  // ---------------------------------------------------------------------
  // The searcher
  // ---------------------------------------------------------------------

  /** The `Search` class. `Date.now()` is the injected `clock`, read at
      consultation number `ticks`; `rules` names, for the specifications,
      the move generator, check test and evaluation the methods call. */
  class Search {
    var startTime: int
    var timeLimit: int
    var nodesVisited: nat
    var stopSearch: bool
    var ticks: nat
    const clock: nat -> int
    ghost const rules: Rules

    constructor(clock: nat -> int)
      ensures this.clock == clock && ticks == 0 && IsXiangqi(rules)
      ensures startTime == 0 && timeLimit == 0 && nodesVisited == 0 && !stopSearch
    {
      this.clock := clock;
      rules := XIANGQI;
      startTime := 0;
      timeLimit := 0;
      nodesVisited := 0;
      stopSearch := false;
      ticks := 0;
      XiangqiIsXiangqi();
    }

    /** `Date.now()`. */
    method Now() returns (t: int)
      modifies this`ticks
      ensures t == clock(old(ticks)) && ticks == old(ticks) + 1
    {
      t := clock(ticks);
      ticks := ticks + 1;
    }

    /** `shouldStop`: once raised the flag stays up; otherwise it is raised
        when more than `timeLimit` has elapsed since `startTime`. */
    method ShouldStop() returns (stop: bool)
      modifies this`stopSearch, this`ticks
      ensures stop == stopSearch
      ensures old(stopSearch) ==> stop && ticks == old(ticks)
      ensures !old(stopSearch) ==> ticks == old(ticks) + 1 && stop == (clock(old(ticks)) - startTime > timeLimit)
    {
      if stopSearch {
        return true;
      }
      var now := Now();
      if now - startTime > timeLimit {
        stopSearch := true;
        return true;
      }
      return false;
    }

    /** `nodesVisited++` followed by a clock check on every 2048th node
        (`nodesVisited & 2047` of a non-negative count). */
    method CountNode() returns (stop: bool)
      modifies this`nodesVisited, this`stopSearch, this`ticks
      ensures nodesVisited == old(nodesVisited) + 1
      ensures stop ==> stopSearch
      ensures !stop ==> stopSearch == old(stopSearch)
      ensures nodesVisited % 2048 != 0 ==> !stop && ticks == old(ticks)
      ensures nodesVisited % 2048 == 0 && !old(stopSearch) ==>
        stop == (clock(old(ticks)) - startTime > timeLimit)
    {
      nodesVisited := nodesVisited + 1;
      stop := false;
      if nodesVisited % 2048 == 0 {
        stop := ShouldStop();
      }
    }

    /** `search`: iterative deepening from depth 1. `completed` is the last
        depth whose result was kept (0 for none): the move is that depth's
        root result, a stopped iteration is discarded, and the loop ends
        before `maxDepth` only when stopped or on a mate score. */
    method Search(board: array2<Cell>, turn: Color, maxDepth: int, timeLimitMs: int)
      returns (bestMove: Option<Move>, ghost completed: nat)
      requires IsBoard(board) && Consistent(Snapshot(board)) && IsXiangqi(rules)
      modifies board, this`startTime, this`timeLimit, this`nodesVisited, this`stopSearch, this`ticks
      ensures Snapshot(board) == old(Snapshot(board))
      ensures startTime == clock(old(ticks)) && timeLimit == timeLimitMs
      ensures bestMove.Some? ==> LegalMove(rules, old(Snapshot(board)), turn, bestMove.value)
      ensures completed == 0 || completed <= maxDepth
      ensures completed == 0 ==> bestMove.None?
      ensures 1 <= completed <= DEPTH_BOUND ==> RootBest(rules, old(Snapshot(board)), completed, turn, bestMove)
      ensures completed < maxDepth && completed <= DEPTH_BOUND ==>
        stopSearch || (1 <= completed && MateStop(rules, old(Snapshot(board)), completed, turn))
      ensures !stopSearch && 1 <= maxDepth <= DEPTH_BOUND && HasLegalMove(rules, old(Snapshot(board)), turn) ==> bestMove.Some?
    {
      ghost var g := Snapshot(board);
      startTime := Now();
      timeLimit := timeLimitMs;
      nodesVisited := 0;
      stopSearch := false;
      bestMove := None;
      completed := 0;
      var depth := 1;
      while depth <= maxDepth
        invariant 1 <= depth && completed == depth - 1 && Snapshot(board) == g && !stopSearch
        invariant depth == 1 || depth <= maxDepth + 1
        invariant startTime == clock(old(ticks)) && timeLimit == timeLimitMs
        invariant bestMove.Some? ==> LegalMove(rules, g, turn, bestMove.value)
        invariant completed == 0 ==> bestMove.None?
        invariant 1 <= completed <= DEPTH_BOUND ==> RootBest(rules, g, completed, turn, bestMove)
        decreases maxDepth - depth
      {
        var stop := ShouldStop();
        if stop {
          return;
        }
        var move, score := AlphaBetaRoot(board, g, depth, turn);
        if stopSearch {
          return;
        }
        bestMove := move;
        completed := depth;
        if MoveRules.Abs(score) > MATE_SCORE - 100 {
          return;
        }
        depth := depth + 1;
      }
    }

    /** `alphaBetaRoot(board, depth, -INFINITY, INFINITY, turn)`: the best
        legal move and its score, or no move and -INFINITY. */
    method AlphaBetaRoot(board: array2<Cell>, ghost g: Grid, depth: int, turn: Color) returns (bestMove: Option<Move>, bestScore: int)
      requires IsBoard(board) && Snapshot(board) == g && Consistent(g) && IsXiangqi(rules)
      requires depth >= 1 && !stopSearch
      modifies board, this`nodesVisited, this`stopSearch, this`ticks
      ensures Snapshot(board) == g
      ensures bestMove.Some? ==> LegalMove(rules, g, turn, bestMove.value)
      ensures bestMove.None? ==> bestScore == -INFINITY
      ensures !stopSearch && depth <= DEPTH_BOUND ==> (bestMove.None? <==> !HasLegalMove(rules, g, turn))
      ensures !stopSearch && depth <= DEPTH_BOUND && bestMove.Some? ==>
        bestScore == Negamax(rules, g, depth, turn) && NegamaxChild(rules, g, depth, turn, bestMove.value) == Some(bestScore)
    {
      XiangqiEvalBounded(rules);
      var moves := MovesFor(rules, board, turn);
      var sorted := SortedCopy(moves, CaptureKey(Snapshot(board), 10));
      bestMove, bestScore := RootLoop(board, g, sorted, depth, turn);
      if !stopSearch && depth <= DEPTH_BOUND {
        RootFoldDone(rules, g, depth, turn, sorted);
      }
    }

    /** The move loop of `alphaBetaRoot` over the ordered moves, with the
        stop test before each move and the `alpha < INFINITY` guard. */
    method RootLoop(board: array2<Cell>, ghost g: Grid, sorted: seq<Move>, depth: int, turn: Color)
      returns (bestMove: Option<Move>, bestScore: int)
      requires IsBoard(board) && Snapshot(board) == g && Consistent(g) && IsXiangqi(rules)
      requires multiset(sorted) == multiset(rules.moves(g, turn)) && depth >= 1 && !stopSearch
      modifies board, this`nodesVisited, this`stopSearch, this`ticks
      ensures Snapshot(board) == g
      ensures bestMove.Some? ==> LegalMove(rules, g, turn, bestMove.value)
      ensures bestMove.None? ==> bestScore == -INFINITY
      ensures !stopSearch && depth <= DEPTH_BOUND ==>
        RootReading(rules, g, depth, turn, BestBy(sorted, NegamaxChildren(rules, g, depth, turn)), bestMove, bestScore)
    {
      bestMove := None;
      bestScore := -INFINITY;
      var alpha := -INFINITY;
      var i := 0;
      while i < |sorted| && alpha < INFINITY
        invariant 0 <= i <= |sorted| && Snapshot(board) == g && alpha == bestScore
        invariant bestMove.Some? ==> LegalMove(rules, g, turn, bestMove.value)
        invariant bestMove.None? ==> bestScore == -INFINITY
        invariant !stopSearch && depth <= DEPTH_BOUND ==> RootSoFar(rules, g, depth, turn, sorted, i, bestMove, bestScore)
      {
        var stop := ShouldStop();
        if stop {
          break;
        }
        bestMove, bestScore, alpha := RootMove(board, g, sorted, i, depth, turn, bestMove, bestScore, alpha);
        i := i + 1;
      }
      if !stopSearch && depth <= DEPTH_BOUND {
        assert i == |sorted| && sorted[..i] == sorted;
      }
    }

    /** One pass of the root loop after the stop test: try move i and, when
        it is legal, keep it if it beats the best score and raise alpha. */
    method RootMove(board: array2<Cell>, ghost g: Grid, sorted: seq<Move>, i: int, depth: int, turn: Color,
                    bestMove: Option<Move>, bestScore: int, alpha: int)
      returns (bestMove': Option<Move>, bestScore': int, alpha': int)
      requires IsBoard(board) && Snapshot(board) == g && Consistent(g) && IsXiangqi(rules)
      requires multiset(sorted) == multiset(rules.moves(g, turn)) && 0 <= i < |sorted|
      requires depth >= 1 && !stopSearch && alpha == bestScore && alpha < INFINITY
      requires bestMove.Some? ==> LegalMove(rules, g, turn, bestMove.value)
      requires bestMove.None? ==> bestScore == -INFINITY
      requires depth <= DEPTH_BOUND ==> RootSoFar(rules, g, depth, turn, sorted, i, bestMove, bestScore)
      modifies board, this`nodesVisited, this`stopSearch, this`ticks
      ensures Snapshot(board) == g && alpha' == bestScore'
      ensures bestMove'.Some? ==> LegalMove(rules, g, turn, bestMove'.value)
      ensures bestMove'.None? ==> bestScore' == -INFINITY
      ensures !stopSearch && depth <= DEPTH_BOUND ==> RootSoFar(rules, g, depth, turn, sorted, i + 1, bestMove', bestScore')
    {
      ghost var f := NegamaxChildren(rules, g, depth, turn);
      var m := sorted[i];
      ReorderedPlayable(rules, g, turn, sorted, i);
      BestByStep(sorted, f, i);
      assert f(m) == NegamaxChild(rules, g, depth, turn, m);
      bestMove', bestScore', alpha' := bestMove, bestScore, alpha;
      var legal, score := TryMove(board, g, m, depth, alpha, INFINITY, turn);
      if !legal {
        assert NegamaxChild(rules, g, depth, turn, m) == None;
        return;
      }
      if !stopSearch && depth <= DEPTH_BOUND {
        XiangqiEvalBounded(rules);
        RootStep(rules, g, depth, turn, m, BestBy(sorted[..i], f), alpha, bestMove, score);
      }
      if score > bestScore' {
        bestScore' := score;
        bestMove' := Some(m);
      }
      if score > alpha' {
        alpha' := score;
      }
    }

    /** The body of one iteration of the move loops: make the move, skip it
        if it leaves `turn` in check, otherwise search the reply with the
        mirrored window, and unmake it. */
    method TryMove(board: array2<Cell>, ghost g: Grid, m: Move, depth: int, alpha: int, beta: int, turn: Color)
      returns (legal: bool, score: int)
      requires IsBoard(board) && Snapshot(board) == g && Consistent(g) && IsXiangqi(rules)
      requires Playable(g, m) && depth > 0 && alpha < beta && !stopSearch
      modifies board, this`nodesVisited, this`stopSearch, this`ticks
      ensures Snapshot(board) == g
      ensures legal == !rules.inCheck(ApplyMove(g, m), turn)
      ensures !legal ==> !stopSearch
      ensures legal && !stopSearch ==>
        score == -AlphaBetaValue(rules, ApplyMove(g, m), depth - 1, -beta, -alpha, Opponent(turn))
      decreases 1, depth, 0
    {
      var captured := MakeMove(board, m);
      ApplyMoveConsistent(g, m);
      var check := InCheckFor(rules, board, turn);
      if check {
        UnmakeMove(board, m, captured);
        MakeUnmakeRoundTrip(g, m);
        return false, 0;
      }
      var v := AlphaBeta(board, ApplyMove(g, m), depth - 1, -beta, -alpha, Opponent(turn));
      score := -v;
      UnmakeMove(board, m, captured);
      MakeUnmakeRoundTrip(g, m);
      legal := true;
    }

    /** `alphaBeta`: the fail-hard value in [alpha, beta], or the exact mate
        or stalemate score when no move is legal; 0 once stopped. */
    method AlphaBeta(board: array2<Cell>, ghost g: Grid, depth: int, alpha: int, beta: int, turn: Color) returns (score: int)
      requires IsBoard(board) && Snapshot(board) == g && Consistent(g) && IsXiangqi(rules)
      requires alpha < beta && !stopSearch
      modifies board, this`nodesVisited, this`stopSearch, this`ticks
      ensures Snapshot(board) == g
      ensures stopSearch ==> score == 0
      ensures !stopSearch ==> score == AlphaBetaValue(rules, g, depth, alpha, beta, turn)
      decreases 1, depth, 2
    {
      var stop := CountNode();
      if stop {
        return 0;
      }
      var isCheck := InCheckFor(rules, board, turn);
      if depth <= 0 {
        score := Quiescence(board, g, alpha, beta, turn);
        return;
      }
      var moves := MovesFor(rules, board, turn);
      var sorted := SortedCopy(moves, CaptureKey(Snapshot(board), 1));
      score := SearchMoves(board, g, sorted, depth, alpha, beta, turn, isCheck);
    }

    /** The move loop of `alphaBeta` and its ending. */
    method SearchMoves(board: array2<Cell>, ghost g: Grid, sorted: seq<Move>, depth: int, alpha0: int, beta: int, turn: Color, isCheck: bool)
      returns (score: int)
      requires IsBoard(board) && Snapshot(board) == g && Consistent(g) && IsXiangqi(rules)
      requires alpha0 < beta && !stopSearch && depth > 0
      requires multiset(sorted) == multiset(rules.moves(g, turn)) && isCheck == rules.inCheck(g, turn)
      modifies board, this`nodesVisited, this`stopSearch, this`ticks
      ensures Snapshot(board) == g
      ensures stopSearch ==> score == 0
      ensures !stopSearch ==> score == AlphaBetaValue(rules, g, depth, alpha0, beta, turn)
      decreases 1, depth, 1
    {
      ghost var f := NegamaxChildren(rules, g, depth, turn);
      var alpha := alpha0;
      var legalMovesCount := 0;
      for i := 0 to |sorted|
        invariant Snapshot(board) == g && !stopSearch
        invariant alpha == Raise(alpha0, BestBy(sorted[..i], f))
        invariant BestBy(sorted[..i], f).None? || BestBy(sorted[..i], f).value < beta
        invariant legalMovesCount == 0 <==> BestBy(sorted[..i], f).None?
      {
        var m := sorted[i];
        ReorderedPlayable(rules, g, turn, sorted, i);
        BestByStep(sorted, f, i);
        var legal, s := TryMove(board, g, m, depth, alpha, beta, turn);
        assert f(m) == NegamaxChild(rules, g, depth, turn, m);
        if !legal {
          continue;
        }
        legalMovesCount := legalMovesCount + 1;
        if stopSearch {
          return 0;
        }
        NodeStep(rules, g, depth, turn, m, alpha0, alpha, beta, BestBy(sorted[..i], f), s);
        if s >= beta {
          return beta;
        }
        if s > alpha {
          alpha := s;
        }
      }
      assert sorted[..|sorted|] == sorted;
      NegamaxFoldDone(rules, g, depth, alpha0, beta, turn, sorted);
      if legalMovesCount == 0 {
        if isCheck {
          return -MATE_SCORE + (100 - depth);
        } else {
          return 0;
        }
      }
      return alpha;
    }

    /** `quiescence`: stand pat, then the legal captures, fail-hard. */
    method Quiescence(board: array2<Cell>, ghost g: Grid, alpha0: int, beta: int, turn: Color) returns (score: int)
      requires IsBoard(board) && Snapshot(board) == g && Consistent(g) && IsXiangqi(rules)
      requires alpha0 < beta && !stopSearch
      modifies board, this`nodesVisited, this`stopSearch, this`ticks
      ensures Snapshot(board) == g
      ensures stopSearch ==> score == 0
      ensures !stopSearch ==> score == Clamp(Quiesce(rules, g, turn), alpha0, beta)
      decreases 0, PieceCount(g), 2
    {
      var stop := CountNode();
      if stop {
        return 0;
      }
      var standPat := EvaluateFor(rules, board, turn);
      var s := if turn == Red then standPat else -standPat;
      assert s == StandPat(rules, g, turn);
      if s >= beta {
        QuiesceStandCut(rules, g, alpha0, beta, turn);
        return beta;
      }
      var alpha := alpha0;
      if s > alpha {
        alpha := s;
      }
      var moves := MovesFor(rules, board, turn);
      var captures := FilterCaptures(board, moves);
      var sorted := SortedCopy(captures, VictimKey(Snapshot(board)));
      score := SearchCaptures(board, g, sorted, alpha0, alpha, beta, turn);
    }

    /** The capture loop of `quiescence`, entered with alpha already raised
        by the stand-pat score. */
    method SearchCaptures(board: array2<Cell>, ghost g: Grid, sorted: seq<Move>, alpha0: int, alpha1: int, beta: int, turn: Color)
      returns (score: int)
      requires IsBoard(board) && Snapshot(board) == g && Consistent(g) && IsXiangqi(rules)
      requires alpha0 < beta && !stopSearch
      requires StandPat(rules, g, turn) < beta && alpha1 == Raise(alpha0, Some(StandPat(rules, g, turn)))
      requires multiset(sorted) == multiset(Captures(g, rules.moves(g, turn)))
      modifies board, this`nodesVisited, this`stopSearch, this`ticks
      ensures Snapshot(board) == g
      ensures stopSearch ==> score == 0
      ensures !stopSearch ==> score == Clamp(Quiesce(rules, g, turn), alpha0, beta)
      decreases 0, PieceCount(g), 1
    {
      ghost var f := QuiesceChildren(rules, g, turn);
      var alpha := alpha1;
      for i := 0 to |sorted|
        invariant Snapshot(board) == g && !stopSearch
        invariant alpha == Raise(alpha1, BestBy(sorted[..i], f))
        invariant BestBy(sorted[..i], f).None? || BestBy(sorted[..i], f).value < beta
      {
        var m := sorted[i];
        ReorderedCapture(rules, g, turn, sorted, i);
        BestByStep(sorted, f, i);
        var legal, val := TryCapture(board, g, m, alpha, beta, turn);
        assert f(m) == QuiesceChild(rules, g, turn, m);
        if !legal {
          continue;
        }
        if stopSearch {
          return 0;
        }
        CaptureStep(rules, g, turn, m, alpha0, alpha1, alpha, beta, BestBy(sorted[..i], f), val);
        if val >= beta {
          return beta;
        }
        if val > alpha {
          alpha := val;
        }
      }
      assert sorted[..|sorted|] == sorted;
      QuiesceFoldDone(rules, g, alpha0, beta, turn, sorted);
      return alpha;
    }

    /** One iteration of the capture loop. The capture removes a piece, so
        the recursion descends in the piece count. */
    method TryCapture(board: array2<Cell>, ghost g: Grid, m: Move, alpha: int, beta: int, turn: Color) returns (legal: bool, val: int)
      requires IsBoard(board) && Snapshot(board) == g && Consistent(g) && IsXiangqi(rules)
      requires IsCapture(g, m) && alpha < beta && !stopSearch
      modifies board, this`nodesVisited, this`stopSearch, this`ticks
      ensures Snapshot(board) == g
      ensures legal == !rules.inCheck(ApplyMove(g, m), turn)
      ensures !legal ==> !stopSearch
      ensures legal && !stopSearch ==>
        val == -Clamp(Quiesce(rules, ApplyMove(g, m), Opponent(turn)), -beta, -alpha)
      decreases 0, PieceCount(g), 0
    {
      ApplyMoveCount(g, m);
      var captured := MakeMove(board, m);
      ApplyMoveConsistent(g, m);
      var check := InCheckFor(rules, board, turn);
      if check {
        UnmakeMove(board, m, captured);
        MakeUnmakeRoundTrip(g, m);
        return false, 0;
      }
      var v := Quiescence(board, ApplyMove(g, m), -beta, -alpha, Opponent(turn));
      val := -v;
      UnmakeMove(board, m, captured);
      MakeUnmakeRoundTrip(g, m);
      legal := true;
    }
  }
}
