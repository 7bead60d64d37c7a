/** services/ai/DifficultyController.ts: the opponent's settings for one
    move (tier, depth adjustment, randomness, error probability) and the
    search request they turn into. The probabilities are exact rationals. */
module DifficultyControl {
  import opened Types
  import opened Evaluation

  /** `AiParams`. */
  datatype AiParams = AiParams(difficulty: Difficulty, depthAdjustment: int, randomness: real, errorProb: real)

  /** The optional match context of `getAiParams` (its `match` field is `currentMatch` here). */
  datatype MatchContext = MatchContext(currentMatch: Match, playerTeam: Team, aiTeam: Team, tournamentType: TournamentType)

  /** `{ depth, timeLimit }` of `adjustEngineRequest`. */
  datatype EngineRequest = EngineRequest(depth: int, timeLimit: int)

  /** The evaluation margin beyond which the fairness rule applies. */
  const FAIRNESS_MARGIN := 800

  /** The order easy < medium < hard. */
  function Rank(d: Difficulty): int {
    match d
    case Easy => 0
    case Medium => 1
    case Hard => 2
  }

  function MaxReal(a: real, b: real): real {
    if a >= b then a else b
  }

  // ---------------------------------------------------------------------
  // getAiParams
  // ---------------------------------------------------------------------

  /** Step 1: the base tier with no adjustment, replaced in a league match
      by the tier of the AI team's hidden strength. */
  function BaseParams(baseDifficulty: Difficulty, ctx: Option<MatchContext>): AiParams {
    var params := AiParams(baseDifficulty, 0, 0.0, 0.0);
    if ctx.Some? && ctx.value.tournamentType == League then
      var strength := ctx.value.aiTeam.strength;
      if strength >= 8 then params.(difficulty := Hard, errorProb := 0.01)
      else if strength >= 5 then params.(difficulty := Medium, errorProb := 0.05)
      else params.(difficulty := Easy, errorProb := 0.20)
    else params
  }

  /** Step 2, the fairness rule: mercy when the evaluation is below
      -FAIRNESS_MARGIN, full strength when it is above FAIRNESS_MARGIN. */
  function Balance(params: AiParams, score: int): AiParams {
    if score < -FAIRNESS_MARGIN then params.(randomness := MaxReal(params.randomness, 0.2))
    else if score > FAIRNESS_MARGIN then params.(depthAdjustment := 1, randomness := 0.0, errorProb := 0.0)
    else params
  }

  /** `getAiParams`: of the game state only the board is consulted, through
      the static evaluation. */
  function GetAiParams(board: Grid, baseDifficulty: Difficulty, ctx: Option<MatchContext>): (p: AiParams)
    ensures p.depthAdjustment == 0 || p.depthAdjustment == 1
    ensures p.randomness == 0.0 || p.randomness == 0.2
    ensures p.errorProb in {0.0, 0.01, 0.05, 0.20}
  {
    Balance(BaseParams(baseDifficulty, ctx), Evaluate(board))
  }

  /** Outside a league match the tier is the base tier, with no error
      probability unless the fairness rule sets it. */
  lemma NoLeagueKeepsTier(board: Grid, baseDifficulty: Difficulty, ctx: Option<MatchContext>)
    requires ctx.None? || ctx.value.tournamentType == Cup
    ensures GetAiParams(board, baseDifficulty, ctx).difficulty == baseDifficulty
    ensures GetAiParams(board, baseDifficulty, ctx).errorProb == 0.0
  {
  }

  /** A stronger AI team never gets a lower tier or a higher error
      probability. */
  lemma LeagueTierMonotone(board: Grid, base1: Difficulty, base2: Difficulty, c1: MatchContext, c2: MatchContext)
    requires c1.tournamentType == League && c2.tournamentType == League
    requires c1.aiTeam.strength <= c2.aiTeam.strength
    ensures Rank(GetAiParams(board, base1, Some(c1)).difficulty) <= Rank(GetAiParams(board, base2, Some(c2)).difficulty)
    ensures GetAiParams(board, base1, Some(c1)).errorProb >= GetAiParams(board, base2, Some(c2)).errorProb
  {
  }

  /** The fairness rule never changes the tier, and changes nothing inside
      the margin; below it only `randomness` changes (to 0.2), above it the
      AI searches one ply deeper without randomness or errors. */
  lemma FairnessRule(board: Grid, baseDifficulty: Difficulty, ctx: Option<MatchContext>)
    ensures GetAiParams(board, baseDifficulty, ctx).difficulty == BaseParams(baseDifficulty, ctx).difficulty
    ensures -FAIRNESS_MARGIN <= Evaluate(board) <= FAIRNESS_MARGIN ==>
      GetAiParams(board, baseDifficulty, ctx) == BaseParams(baseDifficulty, ctx)
    ensures Evaluate(board) < -FAIRNESS_MARGIN ==>
      GetAiParams(board, baseDifficulty, ctx) == BaseParams(baseDifficulty, ctx).(randomness := 0.2)
    ensures Evaluate(board) > FAIRNESS_MARGIN ==>
      var p := GetAiParams(board, baseDifficulty, ctx);
      p.depthAdjustment == 1 && p.randomness == 0.0 && p.errorProb == 0.0
  {
  }

  // ---------------------------------------------------------------------
  // adjustEngineRequest
  // ---------------------------------------------------------------------

  /** The base (depth, time limit) of each tier. */
  function TierRequest(d: Difficulty): EngineRequest {
    match d
    case Easy => EngineRequest(2, 500)
    case Medium => EngineRequest(4, 1500)
    case Hard => EngineRequest(6, 3000)
  }

  /** `adjustEngineRequest`: the tier's depth plus the adjustment, clamped
      to [2, 8]; the time limit is the tier's. `baseDifficulty` is unused. */
  function AdjustEngineRequest(baseDifficulty: Difficulty, params: AiParams): (req: EngineRequest)
    ensures 2 <= req.depth <= 8
    ensures req.timeLimit == TierRequest(params.difficulty).timeLimit
  {
    var base := TierRequest(params.difficulty);
    var depth := base.depth + params.depthAdjustment;
    EngineRequest(if depth < 2 then 2 else if depth > 8 then 8 else depth, base.timeLimit)
  }

  /** A larger adjustment never gives a shallower search. */
  lemma AdjustMonotone(b: Difficulty, p: AiParams, q: AiParams)
    requires p.difficulty == q.difficulty && p.depthAdjustment <= q.depthAdjustment
    ensures AdjustEngineRequest(b, p).depth <= AdjustEngineRequest(b, q).depth
  {
  }

  /** For the parameters `getAiParams` produces the clamp never applies: the
      depth is the tier's, one deeper exactly when the evaluation exceeds
      the fairness margin. */
  lemma RequestForGame(board: Grid, baseDifficulty: Difficulty, ctx: Option<MatchContext>)
    ensures
      var p := GetAiParams(board, baseDifficulty, ctx);
      AdjustEngineRequest(baseDifficulty, p).depth
        == TierRequest(p.difficulty).depth + (if Evaluate(board) > FAIRNESS_MARGIN then 1 else 0)
  {
    var score := Evaluate(board);
    var base := BaseParams(baseDifficulty, ctx);
    assert GetAiParams(board, baseDifficulty, ctx) == Balance(base, score);
    BalanceDepth(base, score);
  }

  /** The fairness rule adds one ply exactly above the margin. */
  lemma BalanceDepth(params: AiParams, score: int)
    requires params.depthAdjustment == 0
    ensures Balance(params, score).difficulty == params.difficulty
    ensures Balance(params, score).depthAdjustment == if score > FAIRNESS_MARGIN then 1 else 0
  {
  }
}
