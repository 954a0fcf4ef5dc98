/** The request schemas of backend/src/validators/leaderboardValidators.ts. */
module LeaderboardValidators {
  import opened Wrappers
  import opened GameTypes
  import opened Zod

  const ScoreNegative: string := "Score must be a non-negative integer"
  const LimitMin: int := 1
  const LimitMax: int := 100

  /** `gameModeSchema = z.enum(['walls', 'pass-through'])`. */
  function GameModeSchema(path: string, v: Value): (r: Result<GameMode, seq<Issue>>)
    ensures r.Ok? <==> v == Str("walls") || v == Str("pass-through")
    ensures r.Ok? ==> v == Str(ModeName(r.value))
  {
    match v
    case Str(s) =>
      if s == "walls" then Ok(Walls)
      else if s == "pass-through" then Ok(PassThrough)
      else Err([Issue(path, InvalidEnumValue, None)])
    case _ => Err([Issue(path, InvalidType, None)])
  }

  /** The issues of a result, none for a success. */
  function IssuesOf<T>(r: Result<T, seq<Issue>>): seq<Issue> {
    if r.Ok? then [] else r.error
  }

  datatype ScoreSubmission = ScoreSubmission(score: int, gameMode: GameMode)

  /** `submitScoreSchema.parse`: a non-negative integer score and a mode. */
  function SubmitScoreSchema(score: Value, gameMode: Value): (r: Result<ScoreSubmission, seq<Issue>>)
    ensures r.Ok? <==> && score.Num? && IsInteger(score.n) && score.n >= 0.0
                       && (gameMode == Str("walls") || gameMode == Str("pass-through"))
    ensures r.Ok? ==> r.value.score as real == score.n && gameMode == Str(ModeName(r.value.gameMode))
  {
    var s := NonNegativeInt("score", score, ScoreNegative);
    var m := GameModeSchema("gameMode", gameMode);
    if s.Ok? && m.Ok? then Ok(ScoreSubmission(s.value, m.value)) else Err(IssuesOf(s) + IssuesOf(m))
  }

  datatype LeaderboardQuery = LeaderboardQuery(gameMode: Option<GameMode>, limit: Option<int>)

  /** `gameModeSchema.optional()`: an absent mode is accepted as none. */
  function OptionalGameMode(path: string, v: Value): (r: Result<Option<GameMode>, seq<Issue>>)
    ensures r.Ok? <==> v.Missing? || v == Str("walls") || v == Str("pass-through")
    ensures r.Ok? ==> (r.value.None? <==> v.Missing?)
    ensures r.Ok? && r.value.Some? ==> v == Str(ModeName(r.value.value))
  {
    if v.Missing? then Ok(None)
    else
      var m := GameModeSchema(path, v);
      if m.Ok? then Ok(Some(m.value)) else Err(m.error)
  }

  /** `limit: z.coerce.number().int().min(1).max(100).default(10).optional()`,
      given the number the coercion produced. The outer `optional` passes an
      absent limit through before `default(10)` sees it, so absence stays
      absence. */
  function LimitSchema(limit: Option<real>): (r: Result<Option<int>, seq<Issue>>)
    ensures r.Ok? <==> limit.None? || (IsInteger(limit.value) && LimitMin as real <= limit.value <= LimitMax as real)
    ensures r.Ok? ==> (r.value.None? <==> limit.None?)
    ensures r.Ok? && r.value.Some? ==> r.value.value as real == limit.value && LimitMin <= r.value.value <= LimitMax
  {
    match limit
    case None => Ok(None)
    case Some(x) =>
      var issues := Check(IsInteger(x), "limit", InvalidType, None)
        + Check(x >= LimitMin as real, "limit", TooSmall, None)
        + Check(x <= LimitMax as real, "limit", TooBig, None);
      if issues == [] then Ok(Some(x.Floor)) else Err(issues)
  }

  /** `getLeaderboardQuerySchema.parse`. */
  function GetLeaderboardQuerySchema(gameMode: Value, limit: Option<real>): (r: Result<LeaderboardQuery, seq<Issue>>)
    ensures r.Ok? <==> && (gameMode.Missing? || gameMode == Str("walls") || gameMode == Str("pass-through"))
                       && (limit.None? || (IsInteger(limit.value) && 1.0 <= limit.value <= 100.0))
    ensures r.Ok? ==> (r.value.gameMode.None? <==> gameMode.Missing?) && (r.value.limit.None? <==> limit.None?)
    ensures r.Ok? && r.value.gameMode.Some? ==> gameMode == Str(ModeName(r.value.gameMode.value))
    ensures r.Ok? && r.value.limit.Some? ==> r.value.limit.value as real == limit.value
  {
    var m := OptionalGameMode("gameMode", gameMode);
    var l := LimitSchema(limit);
    if m.Ok? && l.Ok? then Ok(LeaderboardQuery(m.value, l.value)) else Err(IssuesOf(m) + IssuesOf(l))
  }

  /** The submissions backend/tests_integration/leaderboard.test.ts rejects. */
  lemma SubmitScoreRejections()
    ensures SubmitScoreSchema(Num(-100.0), Str("walls")).Err?
    ensures SubmitScoreSchema(Num(1000.0), Str("invalid-mode")).Err?
    ensures SubmitScoreSchema(Num(3000.0), Str("walls")).Ok?
  {
  }
}
