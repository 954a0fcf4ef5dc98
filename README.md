# Snake Arena core in Dafny

This project models three parts of the Snake Arena repository:

- The **game engine** `SnakeGame` (`src/lib/gameEngine.ts`). It places the
  starting snake and its food, picks food cells by bounded rejection sampling,
  computes the next head under the two boundary policies (walls and
  pass-through), detects collisions with walls and with the body, and moves,
  grows or stops the snake on every tick.
- The **front-end mock back end** `mockApi` (`src/services/mockApi.ts`). It
  covers sign-up, login and logout against an in-memory user map, the current
  user, the seeded leaderboard (filtered by mode, sorted by score, first ten),
  score submission, and the fixed list of sessions to spectate.
- The **request validators** of the real back end
  (`backend/src/validators/*.ts`). These are zod object schemas for sign-up,
  login, score submission, the leaderboard query and the three session
  requests. Each is modelled as a function from the received field values to
  either the parsed value or the list of issues zod reports.

Modules:

- `GameTypes` holds the shared records.
- `GameEngine` holds the engine. It defines pure specification functions on a
  `Config(gridSize, mode)` value, `Tick` being the central one, and the class
  `SnakeGame`. The class keeps `gridSize` and the mutable `gameMode`. The methods
  `CreateInitialState`, `GenerateFood`, `GetNextHeadPosition` and `MoveSnake`
  are each proved equal to the matching function; `SetGameMode` and
  `GetGameMode` only write and read the mode field.
- `GameEngineProperties` holds the lemmas about the engine: the tick's
  branches, the wrap-around, shape invariants that a tick preserves, and the
  scenarios from the engine's unit tests.
- `MockService` holds the class `MockApi`. Its `currentUser`, `mockUsers` and
  `mockLeaderboard` fields are updated in place, as the module-level variables
  of the source are. Ranking is specified by `TopScores`.
- `Zod`, `AuthValidators`, `LeaderboardValidators` and `SessionValidators`
  hold the validators.

How non-deterministic inputs are modelled:

- **`Math.random()`** becomes an explicit sequence `draws` of reals in
  `[0, 1)`.
  - Attempt *k* of the food loop reads `draws[2k]` for x and `draws[2k+1]`
    for y, in the order the object literal evaluates them.
  - The engine's methods return how many attempts they made. Each attempt
    consumes two draws.
- **`Date.now()`** becomes a parameter `now`.
- **The JavaScript `%`** used for wrap-around is the truncating remainder
  `JsRem`. Dafny's own `%` is Euclidean.

Two behaviours of the code that the model keeps as written:

- The initial food excludes only the head cell, because `createInitialState`
  passes only the head to `generateFood`. `InitialFoodMayCoverBody` exhibits
  draws that put the first food on the second segment of the starting snake.
- New food avoids the snake only when fewer than 100 attempts were made; at
  the cap the loop returns its last draw, occupied or not. `GenerateFood` and
  `TickEat` state the avoidance under that condition.

## Model

| member | source | states |
|---|---|---|
| GameEngine.SnakeGame.constructor | src/lib/gameEngine.ts:10-13 | The new engine holds the given grid size and mode. The defaults are 20 and walls. |
| GameEngine.SnakeGame.SetGameMode | src/lib/gameEngine.ts:150-152 | After the call the mode is the one given. |
| GameEngine.SnakeGame.GetGameMode | src/lib/gameEngine.ts:154-156 | Returns the mode that the configuration currently uses. |
| GameEngine.SnakeGame.CreateInitialState | src/lib/gameEngine.ts:15-31 | Three segments from the centre `(⌊n/2⌋, ⌊n/2⌋)` leftwards, facing right, score 0, not over, not paused. The food is what food placement gives when only the head is occupied. |
| GameEngine.InitialSnake | src/lib/gameEngine.ts:16-24 | Three cells. The head is the centre and each later cell is one step left of the one before. |
| GameEngine.SnakeGame.GenerateFood | src/lib/gameEngine.ts:33-50 | The do-while loop computes exactly `PlaceFood`. The food is on the grid and at most 100 attempts are made. If fewer than 100 were needed, the food is not on the given snake. |
| GameEngine.PlaceFood | src/lib/gameEngine.ts:33-50 | Returns the cell drawn at the last attempt and the attempt count (1 to 100). Every earlier draw hit an occupied cell. Below the cap, the result is free. |
| GameEngine.AttemptsFrom | src/lib/gameEngine.ts:38-47 | Starting from attempt k, the loop stops after attempt k+1 to 100. Every draw before the last was occupied. Below the cap, the last draw was free. |
| GameEngine.DrawCell | src/lib/gameEngine.ts:39-42 | Two draws scaled by `Math.floor(r * n)` give a cell on the grid. |
| GameEngine.Scale | src/lib/gameEngine.ts:40-41 | `Math.floor(r * n)` of a draw in [0, 1) lies in [0, n). |
| GameEngine.SnakeGame.GetNextHeadPosition | src/lib/gameEngine.ts:52-78 | The switch and the pass-through wrap compute exactly `NextHead` for the current configuration. |
| GameEngine.JsRem | src/lib/gameEngine.ts:73-74 | The truncating remainder lies strictly between -n and n, takes the sign of the dividend, and differs from the dividend by a multiple of n. Together these fix its value. |
| GameEngine.Step | src/lib/gameEngine.ts:56-69 | Exactly one coordinate changes, by one: up and down change y, left and right change x, each in its own direction. |
| GameEngine.NextHead | src/lib/gameEngine.ts:52-78 | In walls mode the next head is the plain step. In pass-through mode a head on the grid stays on the grid. Lemmas NextHeadWalls, NextHeadPassThrough and WrapInRange give the exact cells. |
| GameEngine.Opposite | src/lib/gameEngine.ts:140-145 | The reverse of a direction is another direction on the same axis. Lemma OppositeIsInvolution adds that reversing twice gives the direction back. |
| GameEngineProperties.WrapInRange | src/lib/gameEngine.ts:73-74 | `(v + n) % n` maps -1 to n-1, 0..n-1 to itself, and n to 0. |
| GameEngineProperties.NextHeadWalls | src/lib/gameEngine.ts:56-69 | In walls mode the next head is the plain step. It is one cell away and keeps the coordinate along which it does not move. |
| GameEngineProperties.NextHeadPassThrough | src/lib/gameEngine.ts:71-75 | In pass-through mode a head on the grid moves to a cell on the grid. It is the plain step while that stays on the board, and wraps to the opposite edge at each of the four borders. |
| GameEngineProperties.NextHeadMoves | src/lib/gameEngine.ts:52-78 | On a grid of size at least 2, the head always moves to a different cell. |
| GameEngine.CheckCollision | src/lib/gameEngine.ts:80-90 | Collision holds exactly when the head is off the grid in walls mode, or equals a segment other than the first. |
| GameEngine.Contains | src/lib/gameEngine.ts:46 | `some` over the segments holds exactly when some index holds the cell. |
| GameEngine.Tail | src/lib/gameEngine.ts:89 | `slice(1)` drops the first element: the rest keeps its order and is one shorter, or empty for an empty input. |
| GameEngine.CheckFoodCollision | src/lib/gameEngine.ts:92-94 | True exactly when the head is the food cell. |
| GameEngine.IsValidDirectionChange | src/lib/gameEngine.ts:139-148 | False exactly for the four reversals (up/down, down/up, left/right, right/left). |
| GameEngine.EffectiveDirection | src/lib/gameEngine.ts:101-104 | Never the reverse of the current direction. It is the requested direction when one is given and is not a reversal; otherwise the current direction is kept. |
| GameEngine.Tick | src/lib/gameEngine.ts:96-137 | A game that is over is returned unchanged. The paused flag is never changed. A game that ends keeps its snake, food and score. The score rises by 0 or 10, and food is drawn (at most 100 attempts) exactly when it rises. The TickHalted, TickWallCollision, TickSelfCollision, TickMove, TickEat and TickPreservesWellFormed rows give each branch. |
| GameEngine.Advance | src/lib/gameEngine.ts:117-136 | After a surviving move the new head leads the snake, the direction is the one passed in, and both flags are kept. Landing on the food lengthens the snake by one, adds 10 and draws new food. Otherwise the length, food and score are kept and nothing is drawn. |
| GameEngine.SnakeGame.MoveSnake | src/lib/gameEngine.ts:96-137 | The method's result (new state, attempts) is exactly `Tick` for the engine's configuration. |
| GameEngineProperties.TickHalted | src/lib/gameEngine.ts:97-99 | A game that is over or paused is returned unchanged and no draw is used. |
| GameEngineProperties.TickWallCollision | src/lib/gameEngine.ts:82-86 | In walls mode, a head leaving the grid ends the game. Snake, food and score are unchanged. |
| GameEngineProperties.TickSelfCollision | src/lib/gameEngine.ts:89 | A head that lands on any non-head segment, the tail cell included, ends the game and leaves the rest unchanged. |
| GameEngineProperties.TickPassThroughSurvivesEdges | src/lib/gameEngine.ts:71-75 | In pass-through mode the game never ends at a wall. The new head is the computed one and is on the grid. |
| GameEngineProperties.TickMove | src/lib/gameEngine.ts:117-136 | Without food, the new head is prepended and the tail dropped. Length, food and score are kept, the direction is the effective one, and no draw is used. |
| GameEngineProperties.TickEat | src/lib/gameEngine.ts:117-136 | With food, the snake grows by one and the score rises by 10. The new food is on the grid after 1 to 100 attempts. Below the cap it is not on the grown snake. |
| GameEngineProperties.PrependKeepsShape | src/lib/gameEngine.ts:117 | Putting a free neighbouring cell in front of a well-shaped body keeps the body on the grid, distinct and linked. |
| GameEngineProperties.DropLastKeepsShape | src/lib/gameEngine.ts:127 | Popping the tail keeps the body on the grid, distinct and linked. |
| GameEngineProperties.StepKeepsShape | src/lib/gameEngine.ts:117-128 | Both the grow branch and the pop branch keep the body on the grid, distinct and linked. |
| GameEngineProperties.SafeHead | src/lib/gameEngine.ts:107-115 | Once the collision test passed, the new head is on the grid and next to the old head. It differs from every segment that can stay. |
| GameEngineProperties.StepResultWellFormed | src/lib/gameEngine.ts:117-136 | Either result of a surviving tick is well formed when the state before it was. |
| GameEngineProperties.TickPreservesWellFormed | src/lib/gameEngine.ts:96-137 | Every tick on a grid of size 2 or more keeps the state well formed. The snake stays non-empty, on the grid, without repeated cells and linked cell to cell; the score stays a non-negative multiple of 10. |
| GameEngineProperties.InitialSnakeOnGrid | src/lib/gameEngine.ts:16-24 | On a grid of size 4 or more, the three starting cells are on the grid and distinct. |
| GameEngineProperties.InitialSnakeLinked | src/lib/gameEngine.ts:16-24 | Each starting segment is one move right of the one behind it, under both boundary policies, so the starting body is linked. |
| GameEngineProperties.InitialStateWellFormed | src/lib/gameEngine.ts:15-31 | The initial state is well formed on a grid of size 4 or more. |
| GameEngineProperties.InitialFoodMayCoverBody | src/lib/gameEngine.ts:25 | Concrete draws put the first food on the second segment, because only the head is passed as occupied. |
| GameEngineProperties.OppositeIsInvolution | src/lib/gameEngine.ts:140-147 | The reverse of the reverse is the direction itself, no direction is its own reverse, and keeping a direction is always allowed. |
| GameEngineProperties.FirstTickMovesRight | frontend/src/lib/__tests__/gameEngine.test.ts:26-31 | On a 20-cell walls grid, with the food anywhere but (11,10), the first tick moves the head from (10,10) to (11,10), keeps length 3 and keeps score 0. |
| GameEngineProperties.FoodInFrontGrows | frontend/src/lib/__tests__/gameEngine.test.ts:33-45 | Food right in front of the head makes the snake 4 long and scores 10. |
| GameEngineProperties.WallAtOrigin | frontend/src/lib/__tests__/gameEngine.test.ts:47-60 | Moving left from (0,0) in walls mode ends the game. |
| GameEngineProperties.PassThroughWrapsLeft | frontend/src/lib/__tests__/gameEngine.test.ts:62-77 | Moving left from (0,10) in pass-through mode lands on (19,10) and the game goes on. |
| GameEngineProperties.SelfCollisionWithVacatingTail | frontend/src/lib/__tests__/gameEngine.test.ts:79-97 | Moving down, the direction already held, into the tail cell of a 4-cell loop ends the game, because the collision test sees the tail before it moves. |
| GameEngineProperties.DirectionChangeCases | frontend/src/lib/__tests__/gameEngine.test.ts:100-110 | Perpendicular turns are allowed and reversals refused, as in the unit tests. |
| MockService.MockApi.constructor | src/services/mockApi.ts:8-18 | No current user, no stored users, and the five seeded leaderboard entries. |
| MockService.MockApi.Login | src/services/mockApi.ts:25-35 | Succeeds exactly when the user exists and the password matches; then the current user is that stored user. Otherwise it reports "Invalid username or password" and the current user is unchanged. |
| MockService.MockApi.Signup | src/services/mockApi.ts:37-49 | Succeeds exactly when the name is new. It then stores the user with id "user-" followed by the digits of `now`, and logs them in. A taken name reports "Username already exists" and changes nothing. |
| MockService.NatToDecimal | src/services/mockApi.ts:44 | The decimal form of the timestamp is a non-empty string of digits, with no leading zero for a positive reading. |
| MockService.DecimalRoundTrip | src/services/mockApi.ts:44 | Reading the digits back left to right (`DecimalValue`, defined on its own) gives the timestamp. |
| MockService.UserIdAt | src/services/mockApi.ts:44 | The id is `user-` followed by digits whose value is the clock reading, with no leading zero for a positive reading. |
| MockService.SeedLeaderboard | src/services/mockApi.ts:12-18 | Five entries, already in descending score order, all stamped before the load time. |
| MockService.MockApi.Logout | src/services/mockApi.ts:51-54 | Afterwards there is no current user. |
| MockService.MockApi.GetCurrentUser | src/services/mockApi.ts:56-58 | Returns the current user, who is always a stored user. |
| MockService.MockApi.GetLeaderboard | src/services/mockApi.ts:61-70 | At most ten entries (fewer when fewer match), all of the requested mode, highest score first, taken from the stored entries. When the view holds fewer copies of a matching entry than the store does, that entry scores no more than any entry kept. |
| MockService.FilterByMode | src/services/mockApi.ts:65-67 | Keeps exactly the entries of the mode, each as often as in the input. Without a mode the list is unchanged. |
| MockService.FilterIsSubMultiset | src/services/mockApi.ts:66 | Filtering never adds entries. |
| MockService.InsertByScore | src/services/mockApi.ts:69 | Inserting into a list sorted by descending score keeps it sorted and adds exactly the one entry. |
| MockService.SortByScoreDesc | src/services/mockApi.ts:69 | The comparator `b.score - a.score` gives a list sorted by descending score that is a permutation of the input. |
| MockService.PrefixHoldsTopScores | src/services/mockApi.ts:69 | When the first k entries of a sorted list hold fewer copies of an entry than the whole list, that entry scores no more than any of those k. |
| MockService.TopScores | src/services/mockApi.ts:64-69 | `slice(0, 10)` of the sorted matches has length min(10, matches). It is sorted and a sub-multiset of the matches. |
| MockService.TopScoresFromMatching | src/services/mockApi.ts:64-69 | Every ranked entry is of the requested mode and comes from the stored leaderboard. |
| MockService.TopScoresKeepBest | src/services/mockApi.ts:64-69 | A matching entry that has fewer copies in the view than in the store, and so also one absent from the view, scores no more than any entry kept. |
| MockService.MockApi.SubmitScore | src/services/mockApi.ts:72-89 | Succeeds exactly when someone is logged in. It then appends one entry with the current user's id and name and the given score, mode and time. Otherwise the leaderboard is unchanged. |
| MockService.GetActiveSessions | src/services/mockApi.ts:92-127 | Three sessions, all active, with distinct ids. |
| MockService.FindSession | src/services/mockApi.ts:133 | `find` returns a session exactly when one has the id, and what it returns is one of the sessions. |
| MockService.WatchSession | src/services/mockApi.ts:129-134 | Returns a session exactly for "session-1", "session-2" and "session-3". That session has the id asked for, is active and is among the active sessions. |
| MockService.SignupLogoutLogin | frontend/src/lib/__tests__/mockApi.test.ts:26-34 | Sign-up, logout and login with the same password logs the user back in with the id given at sign-up. |
| MockService.DuplicateSignup | frontend/src/lib/__tests__/mockApi.test.ts:18-24 | A second sign-up under the same name fails with "Username already exists". |
| MockService.SubmitAfterLogout | frontend/src/lib/__tests__/mockApi.test.ts:86-92 | After logout, a score submission fails and leaves the leaderboard unchanged. |
| MockService.SeededLeaderboardNotEmpty | frontend/src/lib/__tests__/mockApi.test.ts:54-60 | The seeded leaderboard without a mode returns all five entries. |
| Zod.NonNegativeInt | backend/src/validators/leaderboardValidators.ts:6 | `z.number().int().min(0, msg)` accepts exactly non-negative integral numbers. A negative number reports a too-small issue carrying the custom message. |
| AuthValidators.MatchesUsernamePattern | backend/src/validators/authValidators.ts:8 | `/^[a-zA-Z0-9_-]+$/` matches exactly the non-empty strings of letters, digits, `_` and `-`. |
| AuthValidators.SignupUsernameIssues | backend/src/validators/authValidators.ts:4-8 | A non-string gives one type issue. For a string there is no issue exactly when it has 3 to 20 characters and matches the pattern. Each failing check (too short, too long, bad characters) adds exactly one issue with its custom message, and a passing check adds none, so the list holds one issue per failing check. |
| AuthValidators.SignupPasswordIssues | backend/src/validators/authValidators.ts:9-12 | A non-string gives one type issue. For a string there is no issue exactly when it has 6 to 100 characters. A too-short or too-long password reports exactly that one issue with its custom message, and no other issue. |
| AuthValidators.SignupSchema | backend/src/validators/authValidators.ts:3-13 | Accepts exactly a 3-20 character pattern-matching user name and a 6-100 character password, returning both. Too-short values report their custom messages. |
| AuthValidators.LoginSchema | backend/src/validators/authValidators.ts:15-18 | Accepts exactly two non-empty strings and returns them. |
| AuthValidators.SignupImpliesLoginShape | backend/src/validators/authValidators.ts:3-18 | Credentials that pass sign-up also pass login, with the same result. |
| AuthValidators.SignupRejections | backend/tests_integration/auth.test.ts:10-64 | "ab" and a 5-character password are refused; "newuser" with "password123" is accepted. |
| LeaderboardValidators.GameModeSchema | backend/src/validators/leaderboardValidators.ts:3 | Accepts exactly the strings "walls" and "pass-through", and the mode it returns has that name. |
| LeaderboardValidators.SubmitScoreSchema | backend/src/validators/leaderboardValidators.ts:5-8 | Accepts exactly a non-negative integral score with a valid mode, and returns them. |
| LeaderboardValidators.OptionalGameMode | backend/src/validators/leaderboardValidators.ts:11 | An absent mode passes as none; otherwise the mode rule applies. |
| LeaderboardValidators.LimitSchema | backend/src/validators/leaderboardValidators.ts:12 | Under zod 3, an absent limit stays absent, because `.optional()` lets it through before `.default(10)`. A present limit passes exactly when it is an integer in 1..100, and is returned. |
| LeaderboardValidators.GetLeaderboardQuerySchema | backend/src/validators/leaderboardValidators.ts:10-13 | Passes exactly when both fields pass. Each absent field stays absent. A present mode is the one the input names, and a present limit is the input number. |
| LeaderboardValidators.SubmitScoreRejections | backend/tests_integration/leaderboard.test.ts:86-138 | Score -100 and mode "invalid-mode" are refused; score 3000 in walls is accepted. |
| SessionValidators.CreateSessionSchema | backend/src/validators/sessionValidators.ts:4-6 | Accepts exactly the two mode names. |
| SessionValidators.EndSessionSchema | backend/src/validators/sessionValidators.ts:8-10 | Accepts exactly a non-negative integral final score and returns it. |
| SessionValidators.GetSessionsQuerySchema | backend/src/validators/sessionValidators.ts:12-14 | An absent mode passes as none; otherwise exactly the two mode names pass, and the mode returned is the one named. |
| SessionValidators.ModeRuleShared | backend/src/validators/sessionValidators.ts:2-14 | The session schemas accept a mode exactly when the leaderboard's mode schema does. |
| SessionValidators.SessionRejections | backend/tests_integration/sessions.test.ts:124-200 | Mode "invalid-mode" and final score -100 are refused; 2500 is accepted. |

## Left out

- Floating point: `Math.random() * n` is multiplied exactly, in reals. The rounding of IEEE doubles is not modelled.
- GameEngine.SnakeGame.GenerateFood: `Math.random()` is an explicit sequence of draws, so the model does not capture any statistical property of placement. Callers supply at least 200 draws, enough for the 100 attempts.
- GameEngine.GridSize: the grid size is at least 1. A size of 0 is excluded. In pass-through mode the source then computes `% 0` and gets NaN cells; in walls mode every move ends the game at once.
- GameEngine.Tick: a running game is required to have a non-empty snake, because the source reads `snake[0]` and fails on an empty one. Over and paused games are accepted with any snake.
- GameEngineProperties.TickPreservesWellFormed: requires a grid of size 2 or more. On a 1-cell grid the pass-through head wraps onto itself.
- `CELL_SIZE` concerns drawing only and is not modelled.
- MockService: `delay` and the `async` wrappers are left out. Every operation completes at once, in call order.
- MockService: `Date.now()` is a parameter `now`, and the seeded timestamps are offsets from it.
- MockService: `mockActiveSessions` is declared and never used by the source, so it has no counterpart.
- MockService.SortByScoreDesc: the sort is a stable insertion sort, as `Array.prototype.sort` is. Stability itself is not stated as a property.
- MockService.MockApi.GetLeaderboard: scores are unbounded integers, so `b.score - a.score` cannot overflow or lose precision as a double can.
- Strings are sequences of characters. Lengths count characters, while zod counts UTF-16 units; for characters outside the Basic Multilingual Plane the two differ.
- LeaderboardValidators.LimitSchema: `z.coerce.number()` is not modelled. The input is the already-coerced number, so strings, NaN and infinities are not covered.
- Zod: the model follows zod 3. The validators import zod, but no file among the modelled sources fixes its version. Under zod 4 an absent limit would parse as 10, and the bad-enum issue code is `invalid_value` rather than `invalid_enum_value`. A request body that is not an object, unknown extra keys, and the text of zod's default messages are not modelled. Issues record the path, the code and the custom message where one is given.
