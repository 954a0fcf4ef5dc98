/** The request schemas of backend/src/validators/sessionValidators.ts, built
    from the leaderboard's mode schema. */
module SessionValidators {
  import opened Wrappers
  import opened GameTypes
  import opened Zod
  import LeaderboardValidators

  const FinalScoreNegative: string := "Final score must be a non-negative integer"

  /** `createSessionSchema.parse`: a mode from the shared enum. */
  function CreateSessionSchema(gameMode: Value): (r: Result<GameMode, seq<Issue>>)
    ensures r.Ok? <==> gameMode == Str("walls") || gameMode == Str("pass-through")
    ensures r.Ok? ==> gameMode == Str(ModeName(r.value))
  {
    LeaderboardValidators.GameModeSchema("gameMode", gameMode)
  }

  /** `endSessionSchema.parse`: a non-negative integer final score. */
  function EndSessionSchema(finalScore: Value): (r: Result<int, seq<Issue>>)
    ensures r.Ok? <==> finalScore.Num? && IsInteger(finalScore.n) && finalScore.n >= 0.0
    ensures r.Ok? ==> r.value as real == finalScore.n
  {
    NonNegativeInt("finalScore", finalScore, FinalScoreNegative)
  }

  /** `getSessionsQuerySchema.parse`: an optional mode from the shared enum. */
  function GetSessionsQuerySchema(gameMode: Value): (r: Result<Option<GameMode>, seq<Issue>>)
    ensures r.Ok? <==> gameMode.Missing? || gameMode == Str("walls") || gameMode == Str("pass-through")
    ensures r.Ok? ==> (r.value.None? <==> gameMode.Missing?)
    ensures r.Ok? && r.value.Some? ==> gameMode == Str(ModeName(r.value.value))
  {
    LeaderboardValidators.OptionalGameMode("gameMode", gameMode)
  }

  /** Sessions and the leaderboard accept exactly the same modes, required or
      optional, because both use the one mode schema. */
  lemma ModeRuleShared(gameMode: Value)
    ensures CreateSessionSchema(gameMode).Ok?
        <==> LeaderboardValidators.SubmitScoreSchema(Num(0.0), gameMode).Ok?
    ensures GetSessionsQuerySchema(gameMode).Ok?
        <==> LeaderboardValidators.GetLeaderboardQuerySchema(gameMode, None).Ok?
  {
  }

  /** The bodies backend/tests_integration/sessions.test.ts rejects. */
  lemma SessionRejections()
    ensures CreateSessionSchema(Str("invalid-mode")).Err?
    ensures EndSessionSchema(Num(-100.0)).Err?
    ensures EndSessionSchema(Num(2500.0)).Ok?
  {
  }
}
