/** The snake engine of src/lib/gameEngine.ts: pure definitions of one tick and
    of its helpers over a configuration value, and the class `SnakeGame` that
    holds that configuration and runs the same steps imperatively. */
module GameEngine {
  import opened GameTypes
  import opened Wrappers

  /** Default side length of the grid (GRID_SIZE). */
  const DefaultGridSize: GridSize := 20
  /** Cap on the draws of the food-placement loop. */
  const MaxAttempts: nat := 100
  /** Points for one piece of food. */
  const FoodReward: int := 10

  /** A grid side length; zero would make the wrap-around `%` undefined. */
  type GridSize = n: int | n >= 1 witness 1

  /** The engine's two fields, `gridSize` and `gameMode`, as one value. */
  datatype Config = Config(gridSize: GridSize, mode: GameMode)

  predicate InGrid(n: int, p: Position) {
    0 <= p.x < n && 0 <= p.y < n
  }

  /** `Array.prototype.some` with an exact-coordinates test. */
  function Contains(segments: seq<Position>, p: Position): (found: bool)
    ensures found <==> exists i :: 0 <= i < |segments| && segments[i] == p
  {
    if segments == [] then false else segments[0] == p || Contains(segments[1..], p)
  }

  /** `Array.prototype.slice(1)`: everything but the first element, and `[]` for `[]`. */
  function Tail(s: seq<Position>): (t: seq<Position>)
    ensures |t| == if s == [] then 0 else |s| - 1
    ensures forall i :: 0 <= i < |t| ==> t[i] == s[i + 1]
  {
    if s == [] then [] else s[1..]
  }

  // ---------------------------------------------------------------------------
  // Directions

  /** The `opposites` table of `isValidDirectionChange`: the reverse
      direction, on the same axis. */
  function Opposite(d: Direction): (o: Direction)
    ensures o != d
    ensures (d == Up || d == Down) <==> (o == Up || o == Down)
  {
    match d
    case Up => Down
    case Down => Up
    case Left => Right
    case Right => Left
  }

  /** `isValidDirectionChange`: only an exact reversal is refused. */
  function IsValidDirectionChange(current: Direction, proposed: Direction): (ok: bool)
    ensures !ok <==> ((current == Up && proposed == Down) || (current == Down && proposed == Up)
                      || (current == Left && proposed == Right) || (current == Right && proposed == Left))
  {
    Opposite(current) != proposed
  }

  /** The direction a tick uses: the requested one when given and not a
      reversal, otherwise the current one. */
  function EffectiveDirection(current: Direction, requested: Option<Direction>): (d: Direction)
    ensures d != Opposite(current)
    ensures requested.Some? && requested.value != Opposite(current) ==> d == requested.value
    ensures requested.None? || requested.value == Opposite(current) ==> d == current
  {
    if requested.Some? && IsValidDirectionChange(current, requested.value) then requested.value else current
  }

  // ---------------------------------------------------------------------------
  // Movement

  /** A multiple of `n` leaves no remainder. */
  lemma MultipleHasNoRemainder(q: int, n: GridSize)
    ensures (n * q) % n == 0
  {
    var m := n * q;
    var k := m / n;
    assert m == n * k + m % n && 0 <= m % n < n;
    var d := q - k;
    assert n * d == m % n;
  }

  /** JavaScript's `%`: truncating division, so the remainder has the sign of
      the dividend and differs from it by a multiple of the divisor. */
  function JsRem(a: int, n: GridSize): (r: int)
    ensures -(n as int) < r < n
    ensures a >= 0 ==> r >= 0
    ensures a <= 0 ==> r <= 0
    ensures (a - r) % n == 0
  {
    if a >= 0 then
      MultipleHasNoRemainder(a / n, n);
      assert a - a % n == n * (a / n);
      a % n
    else
      var b := -a;
      MultipleHasNoRemainder(-(b / n), n);
      assert a + b % n == n * -(b / n);
      -(b % n)
  }

  /** The unit step of the `switch` in `getNextHeadPosition`. */
  function Step(p: Position, d: Direction): (q: Position)
    ensures (q.x == p.x && (q.y == p.y + 1 || q.y == p.y - 1))
         || (q.y == p.y && (q.x == p.x + 1 || q.x == p.x - 1))
    ensures (d == Up || d == Down) <==> q.x == p.x
    ensures d == Up ==> q.y < p.y
    ensures d == Down ==> q.y > p.y
    ensures d == Left ==> q.x < p.x
    ensures d == Right ==> q.x > p.x
  {
    match d
    case Up => p.(y := p.y - 1)
    case Down => p.(y := p.y + 1)
    case Left => p.(x := p.x - 1)
    case Right => p.(x := p.x + 1)
  }

  /** `getNextHeadPosition`: a unit step, wrapped with `(v + n) % n` in
      pass-through mode and left unbounded in walls mode. */
  function NextHead(cfg: Config, head: Position, d: Direction): (h: Position)
    ensures cfg.mode == Walls ==> h == Step(head, d)
    ensures cfg.mode == PassThrough && InGrid(cfg.gridSize, head) ==> InGrid(cfg.gridSize, h)
  {
    var p := Step(head, d);
    if cfg.mode == PassThrough then
      Position(JsRem(p.x + cfg.gridSize, cfg.gridSize), JsRem(p.y + cfg.gridSize, cfg.gridSize))
    else
      p
  }

  /** `checkCollision`: off the grid in walls mode, or onto any segment of the
      pre-move body except its head, the tail that is about to move included. */
  function CheckCollision(cfg: Config, head: Position, snake: seq<Position>): (hit: bool)
    ensures hit <==> ((cfg.mode == Walls && !InGrid(cfg.gridSize, head))
                      || exists i :: 1 <= i < |snake| && snake[i] == head)
  {
    (cfg.mode == Walls
      && (head.x < 0 || head.x >= cfg.gridSize || head.y < 0 || head.y >= cfg.gridSize))
    || Contains(Tail(snake), head)
  }

  /** `checkFoodCollision`. */
  function CheckFoodCollision(head: Position, food: Position): (eaten: bool)
    ensures eaten <==> head == food
  {
    head.x == food.x && head.y == food.y
  }

  // ---------------------------------------------------------------------------
  // Food placement, with `Math.random()` replaced by a sequence of draws

  /** Enough draws for the longest run of the placement loop, each in [0, 1)
      as `Math.random()` promises. */
  predicate ValidDraws(draws: seq<real>) {
    |draws| >= 2 * MaxAttempts && forall i :: 0 <= i < |draws| ==> 0.0 <= draws[i] < 1.0
  }

  lemma ScaledBelow(r: real, n: GridSize)
    requires 0.0 <= r < 1.0
    ensures 0.0 <= r * (n as real) < n as real
  {
    assert (1.0 - r) * (n as real) > 0.0;
  }

  /** `Math.floor(r * n)` for one draw `r`. */
  function Scale(r: real, n: GridSize): (v: int)
    requires 0.0 <= r < 1.0
    ensures 0 <= v < n
  {
    ScaledBelow(r, n);
    (r * (n as real)).Floor
  }

  /** The cell of attempt `k`: its x comes from draw 2k and its y from draw
      2k+1, the order in which the object literal evaluates them. */
  function DrawCell(n: GridSize, draws: seq<real>, k: nat): (p: Position)
    requires ValidDraws(draws) && k < MaxAttempts
    ensures InGrid(n, p)
  {
    Position(Scale(draws[2 * k], n), Scale(draws[2 * k + 1], n))
  }

  /** The number of attempts the do-while loop of `generateFood` makes when it
      has already rejected attempts `0 .. k-1`. */
  function AttemptsFrom(n: GridSize, occupied: seq<Position>, draws: seq<real>, k: nat): (a: nat)
    requires ValidDraws(draws) && k < MaxAttempts
    ensures k < a <= MaxAttempts
    ensures forall j :: k <= j < a - 1 ==> Contains(occupied, DrawCell(n, draws, j))
    ensures a < MaxAttempts ==> !Contains(occupied, DrawCell(n, draws, a - 1))
    decreases MaxAttempts - k
  {
    if k + 1 < MaxAttempts && Contains(occupied, DrawCell(n, draws, k)) then
      AttemptsFrom(n, occupied, draws, k + 1)
    else
      k + 1
  }

  /** `generateFood`: the first drawn cell that is not occupied, or the 100th
      draw whatever it hits; paired with the number of attempts made. */
  function PlaceFood(n: GridSize, occupied: seq<Position>, draws: seq<real>): (r: (Position, nat))
    requires ValidDraws(draws)
    ensures 1 <= r.1 <= MaxAttempts && InGrid(n, r.0)
    ensures r.0 == DrawCell(n, draws, r.1 - 1)
    ensures forall j :: 0 <= j < r.1 - 1 ==> DrawCell(n, draws, j) in occupied
    ensures r.1 < MaxAttempts ==> r.0 !in occupied
  {
    var a := AttemptsFrom(n, occupied, draws, 0);
    (DrawCell(n, draws, a - 1), a)
  }

  // ---------------------------------------------------------------------------
  // Initial state and one tick

  /** The three starting segments: the head at the centre, the body extending
      to its left. */
  function InitialSnake(n: GridSize): (s: seq<Position>)
    ensures |s| == 3 && s[0] == Position(n / 2, n / 2)
    ensures forall i :: 0 <= i < 2 ==> s[i + 1] == Step(s[i], Left)
  {
    var c := n / 2;
    [Position(c, c), Position(c - 1, c), Position(c - 2, c)]
  }

  /** A tick can run: it either stops at the first test or has a head to move. */
  predicate CanTick(s: GameState) {
    s.isGameOver || s.isPaused || |s.snake| >= 1
  }

  /** The part of a tick after the collision test: grow onto the food and
      place new food, or move by dropping the tail. */
  function Advance(n: GridSize, s: GameState, dir: Direction, head: Position, draws: seq<real>): (r: (GameState, nat))
    requires |s.snake| >= 1 && ValidDraws(draws)
    ensures |r.0.snake| == |s.snake| + (if head == s.food then 1 else 0)
    ensures r.0.snake[0] == head && r.0.direction == dir
    ensures r.0.isGameOver == s.isGameOver && r.0.isPaused == s.isPaused
    ensures head == s.food ==> r.0.score == s.score + FoodReward && 1 <= r.1 <= MaxAttempts
    ensures head != s.food ==> r.0.score == s.score && r.0.food == s.food && r.1 == 0
  {
    if CheckFoodCollision(head, s.food) then
      var grown := [head] + s.snake;
      var placed := PlaceFood(n, grown, draws);
      (s.(snake := grown, food := placed.0, direction := dir, score := s.score + FoodReward), placed.1)
    else
      (s.(snake := [head] + s.snake[..|s.snake| - 1], direction := dir), 0)
  }

  /** `moveSnake`: one tick, paired with the number of food-placement attempts
      it made (each attempt consumes two draws). */
  function Tick(cfg: Config, s: GameState, requested: Option<Direction>, draws: seq<real>): (r: (GameState, nat))
    requires CanTick(s) && ValidDraws(draws)
    ensures s.isGameOver ==> r == (s, 0)
    ensures r.0.isPaused == s.isPaused
    ensures r.0.isGameOver ==> r.0.snake == s.snake && r.0.food == s.food && r.0.score == s.score
    ensures r.0.score == s.score || r.0.score == s.score + FoodReward
    ensures r.1 <= MaxAttempts && (r.1 > 0 <==> r.0.score == s.score + FoodReward)
  {
    if s.isGameOver || s.isPaused then
      (s, 0)
    else
      var dir := EffectiveDirection(s.direction, requested);
      var head := NextHead(cfg, s.snake[0], dir);
      if CheckCollision(cfg, head, s.snake) then
        (s.(isGameOver := true), 0)
      else
        Advance(cfg.gridSize, s, dir, head, draws)
  }

  // ---------------------------------------------------------------------------
  // The engine object

  class SnakeGame {
    const gridSize: GridSize
    var gameMode: GameMode

    constructor (gridSize: GridSize := DefaultGridSize, gameMode: GameMode := Walls)
      ensures this.gridSize == gridSize && this.gameMode == gameMode
    {
      this.gridSize := gridSize;
      this.gameMode := gameMode;
    }

    function Cfg(): (cfg: Config)
      reads this
    {
      Config(gridSize, gameMode)
    }

    method SetGameMode(mode: GameMode)
      modifies this
      ensures gameMode == mode
    {
      gameMode := mode;
    }

    function GetGameMode(): (mode: GameMode)
      reads this
      ensures Cfg().mode == mode
    {
      gameMode
    }

    /** `createInitialState`; food placement excludes only the head cell. */
    method CreateInitialState(draws: seq<real>) returns (s: GameState, attempts: nat)
      requires ValidDraws(draws)
      ensures s.snake == InitialSnake(gridSize)
      ensures s.direction == Right && s.score == 0 && !s.isGameOver && !s.isPaused
      ensures (s.food, attempts) == PlaceFood(gridSize, [InitialSnake(gridSize)[0]], draws)
    {
      var centerX := gridSize / 2;
      var centerY := gridSize / 2;
      var food;
      food, attempts := GenerateFood([Position(centerX, centerY)], draws);
      s := GameState(
        [Position(centerX, centerY), Position(centerX - 1, centerY), Position(centerX - 2, centerY)],
        food, Right, 0, false, false);
    }

    /** `generateFood`: the do-while rejection loop over the draws. */
    method GenerateFood(snake: seq<Position>, draws: seq<real>) returns (food: Position, attempts: nat)
      requires ValidDraws(draws)
      ensures (food, attempts) == PlaceFood(gridSize, snake, draws)
      ensures InGrid(gridSize, food) && 1 <= attempts <= MaxAttempts
      ensures attempts < MaxAttempts ==> food !in snake
    {
      attempts := 0;
      food := DrawCell(gridSize, draws, attempts);
      attempts := attempts + 1;
      while attempts < MaxAttempts && Contains(snake, food)
        invariant 1 <= attempts <= MaxAttempts
        invariant food == DrawCell(gridSize, draws, attempts - 1)
        invariant AttemptsFrom(gridSize, snake, draws, 0) == AttemptsFrom(gridSize, snake, draws, attempts - 1)
        decreases MaxAttempts - attempts
      {
        food := DrawCell(gridSize, draws, attempts);
        attempts := attempts + 1;
      }
    }

    /** `getNextHeadPosition`: updates the two coordinates through a `switch`,
        then wraps them in pass-through mode. */
    method GetNextHeadPosition(head: Position, direction: Direction) returns (p: Position)
      ensures p == NextHead(Cfg(), head, direction)
    {
      var newX := head.x;
      var newY := head.y;
      match direction {
        case Up => newY := newY - 1;
        case Down => newY := newY + 1;
        case Left => newX := newX - 1;
        case Right => newX := newX + 1;
      }
      if gameMode == PassThrough {
        newX := JsRem(newX + gridSize, gridSize);
        newY := JsRem(newY + gridSize, gridSize);
      }
      p := Position(newX, newY);
    }

    /** `moveSnake`: builds the grown body, then pops its tail unless the head
        reached the food. */
    method MoveSnake(state: GameState, newDirection: Option<Direction>, draws: seq<real>)
      returns (next: GameState, attempts: nat)
      requires CanTick(state) && ValidDraws(draws)
      ensures (next, attempts) == Tick(Cfg(), state, newDirection, draws)
    {
      if state.isGameOver || state.isPaused {
        return state, 0;
      }
      var direction := if newDirection.Some? && IsValidDirectionChange(state.direction, newDirection.value)
        then newDirection.value else state.direction;
      assert direction == EffectiveDirection(state.direction, newDirection);
      var head := state.snake[0];
      var newHead := GetNextHeadPosition(head, direction);
      if CheckCollision(Cfg(), newHead, state.snake) {
        return state.(isGameOver := true), 0;
      }
      assert Tick(Cfg(), state, newDirection, draws) == Advance(gridSize, state, direction, newHead, draws);
      var newSnake := [newHead] + state.snake;
      var newFood := state.food;
      var newScore := state.score;
      attempts := 0;
      if CheckFoodCollision(newHead, state.food) {
        newFood, attempts := GenerateFood(newSnake, draws);
        newScore := newScore + FoodReward;
      } else {
        newSnake := newSnake[..|newSnake| - 1];
        assert newSnake == [newHead] + state.snake[..|state.snake| - 1];
      }
      next := state.(snake := newSnake, food := newFood, direction := direction, score := newScore);
    }
  }
}
