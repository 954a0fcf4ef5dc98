/** The value types shared by the game engine, the mock backend and the
    validators (src/types/game.ts, mirrored by backend/src/types/index.ts). */
module GameTypes {

  /** The two boundary policies: collide with the edge, or wrap around it. */
  datatype GameMode = Walls | PassThrough

  datatype Direction = Up | Down | Left | Right

  /** A grid cell; coordinates are unbounded integers because a head may step
      outside the grid in walls mode before the collision test rejects it. */
  datatype Position = Position(x: int, y: int)

  /** One immutable snapshot of a game; every tick builds a new one. */
  datatype GameState = GameState(
    snake: seq<Position>,
    food: Position,
    direction: Direction,
    score: int,
    isGameOver: bool,
    isPaused: bool)

  datatype User = User(userId: string, username: string)

  datatype LeaderboardEntry = LeaderboardEntry(
    userId: string,
    username: string,
    score: int,
    gameMode: GameMode,
    timestamp: int)

  datatype GameSession = GameSession(
    sessionId: string,
    userId: string,
    username: string,
    gameMode: GameMode,
    score: int,
    isActive: bool,
    startedAt: int)

  /** The wire name of a mode, as the TypeScript string union spells it. */
  function ModeName(m: GameMode): string {
    match m
    case Walls => "walls"
    case PassThrough => "pass-through"
  }
}
