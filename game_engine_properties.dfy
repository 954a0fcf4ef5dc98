/** What the engine promises: the tick's outcomes, the wrap-around of
    pass-through mode, the shape invariants a tick preserves, and the
    scenarios of frontend/src/lib/__tests__/gameEngine.test.ts. */
module GameEngineProperties {
  import opened GameTypes
  import opened Wrappers
  import opened GameEngine

  // ---------------------------------------------------------------------------
  // Directions

  lemma OppositeIsInvolution(d: Direction)
    ensures Opposite(Opposite(d)) == d && Opposite(d) != d
    ensures IsValidDirectionChange(d, d)
  {
  }

  // ---------------------------------------------------------------------------
  // Movement

  /** Sum of the coordinate distances. */
  function Manhattan(a: Position, b: Position): nat {
    (if a.x >= b.x then a.x - b.x else b.x - a.x) + (if a.y >= b.y then a.y - b.y else b.y - a.y)
  }

  /** `(v + n) % n` maps the one-step range [-1, n] back into the grid. */
  lemma WrapInRange(v: int, n: GridSize)
    requires -1 <= v <= n
    ensures JsRem(v + n, n) == if v < 0 then n - 1 else if v < n then v else 0
  {
    var a := v + n;
    assert 0 <= a;
    if v < 0 {
      assert a == n - 1;
      assert a % n == a;
    } else if v < n {
      assert a == v + 1 * n;
      assert a % n == v;
    } else {
      assert a == 0 + 2 * n;
      assert a % n == 0;
    }
  }

  /** In walls mode the head moves exactly one cell along exactly one axis,
      the axis of the direction. */
  lemma NextHeadWalls(cfg: Config, head: Position, d: Direction)
    requires cfg.mode == Walls
    ensures NextHead(cfg, head, d) == Step(head, d)
    ensures Manhattan(head, NextHead(cfg, head, d)) == 1
    ensures d == Left || d == Right ==> NextHead(cfg, head, d).y == head.y
    ensures d == Up || d == Down ==> NextHead(cfg, head, d).x == head.x
  {
  }

  /** In pass-through mode a head inside the grid stays inside it: an
      ordinary step when it stays on the board, the opposite edge when it
      leaves it. */
  lemma {:induction false} NextHeadPassThrough(cfg: Config, head: Position, d: Direction)
    requires cfg.mode == PassThrough && InGrid(cfg.gridSize, head)
    ensures InGrid(cfg.gridSize, NextHead(cfg, head, d))
    ensures InGrid(cfg.gridSize, Step(head, d)) ==> NextHead(cfg, head, d) == Step(head, d)
    ensures head.x == 0 && d == Left ==> NextHead(cfg, head, d) == Position(cfg.gridSize - 1, head.y)
    ensures head.x == cfg.gridSize - 1 && d == Right ==> NextHead(cfg, head, d) == Position(0, head.y)
    ensures head.y == 0 && d == Up ==> NextHead(cfg, head, d) == Position(head.x, cfg.gridSize - 1)
    ensures head.y == cfg.gridSize - 1 && d == Down ==> NextHead(cfg, head, d) == Position(head.x, 0)
  {
    var p := Step(head, d);
    WrapInRange(p.x, cfg.gridSize);
    WrapInRange(p.y, cfg.gridSize);
  }

  /** On a grid of side at least 2 a tick always moves the head off its cell. */
  lemma NextHeadMoves(cfg: Config, head: Position, d: Direction)
    requires cfg.gridSize >= 2 && InGrid(cfg.gridSize, head)
    ensures NextHead(cfg, head, d) != head
  {
    if cfg.mode == PassThrough {
      NextHeadPassThrough(cfg, head, d);
    }
  }

  // ---------------------------------------------------------------------------
  // The outcomes of one tick

  /** A game that is over or paused is a fixed point of the tick, whatever
      direction is requested. */
  lemma TickHalted(cfg: Config, s: GameState, requested: Option<Direction>, draws: seq<real>)
    requires ValidDraws(draws) && (s.isGameOver || s.isPaused)
    ensures Tick(cfg, s, requested, draws) == (s, 0)
  {
  }

  /** The head the tick tries to move to. */
  function Candidate(cfg: Config, s: GameState, requested: Option<Direction>): Position
    requires |s.snake| >= 1
  {
    NextHead(cfg, s.snake[0], EffectiveDirection(s.direction, requested))
  }

  /** Walls mode: leaving the grid ends the game and changes nothing else. */
  lemma TickWallCollision(cfg: Config, s: GameState, requested: Option<Direction>, draws: seq<real>)
    requires ValidDraws(draws) && !s.isGameOver && !s.isPaused && |s.snake| >= 1
    requires cfg.mode == Walls && !InGrid(cfg.gridSize, Candidate(cfg, s, requested))
    ensures Tick(cfg, s, requested, draws) == (s.(isGameOver := true), 0)
  {
  }

  /** Either mode: running into any non-head segment of the pre-move body,
      the vacating tail included, ends the game and changes nothing else. */
  lemma TickSelfCollision(cfg: Config, s: GameState, requested: Option<Direction>, draws: seq<real>, i: nat)
    requires ValidDraws(draws) && !s.isGameOver && !s.isPaused
    requires 1 <= i < |s.snake| && s.snake[i] == Candidate(cfg, s, requested)
    ensures Tick(cfg, s, requested, draws) == (s.(isGameOver := true), 0)
  {
  }

  /** Pass-through mode: the boundary alone never ends the game. */
  lemma TickPassThroughSurvivesEdges(cfg: Config, s: GameState, requested: Option<Direction>, draws: seq<real>)
    requires ValidDraws(draws) && !s.isGameOver && !s.isPaused && |s.snake| >= 1
    requires cfg.mode == PassThrough && InGrid(cfg.gridSize, s.snake[0])
    requires Candidate(cfg, s, requested) !in s.snake[1..]
    ensures !Tick(cfg, s, requested, draws).0.isGameOver
    ensures Tick(cfg, s, requested, draws).0.snake[0] == Candidate(cfg, s, requested)
    ensures InGrid(cfg.gridSize, Tick(cfg, s, requested, draws).0.snake[0])
  {
    NextHeadPassThrough(cfg, s.snake[0], EffectiveDirection(s.direction, requested));
    assert !CheckCollision(cfg, Candidate(cfg, s, requested), s.snake);
  }

  /** A safe tick without food: the head is prepended and the tail dropped, so
      the length is kept; food and score stay; the direction is the effective
      one. */
  lemma TickMove(cfg: Config, s: GameState, requested: Option<Direction>, draws: seq<real>)
    requires ValidDraws(draws) && !s.isGameOver && !s.isPaused && |s.snake| >= 1
    requires !CheckCollision(cfg, Candidate(cfg, s, requested), s.snake)
    requires Candidate(cfg, s, requested) != s.food
    ensures var (r, attempts) := Tick(cfg, s, requested, draws);
      && r.snake == [Candidate(cfg, s, requested)] + s.snake[..|s.snake| - 1]
      && |r.snake| == |s.snake|
      && r.food == s.food && r.score == s.score
      && r.direction == EffectiveDirection(s.direction, requested)
      && !r.isGameOver && r.isPaused == s.isPaused && attempts == 0
  {
    var dir := EffectiveDirection(s.direction, requested);
    var head := Candidate(cfg, s, requested);
    assert Tick(cfg, s, requested, draws) == (s.(snake := [head] + s.snake[..|s.snake| - 1], direction := dir), 0);
  }

  /** A safe tick onto the food: the whole old body stays behind the new head,
      the score grows by exactly 10, and new food is drawn on the grid, off the
      grown body unless the 100-draw cap was reached. */
  lemma TickEat(cfg: Config, s: GameState, requested: Option<Direction>, draws: seq<real>)
    requires ValidDraws(draws) && !s.isGameOver && !s.isPaused && |s.snake| >= 1
    requires !CheckCollision(cfg, Candidate(cfg, s, requested), s.snake)
    requires Candidate(cfg, s, requested) == s.food
    ensures var (r, attempts) := Tick(cfg, s, requested, draws);
      && r.snake == [Candidate(cfg, s, requested)] + s.snake
      && |r.snake| == |s.snake| + 1
      && r.score == s.score + FoodReward
      && r.direction == EffectiveDirection(s.direction, requested)
      && !r.isGameOver && r.isPaused == s.isPaused
      && InGrid(cfg.gridSize, r.food)
      && 1 <= attempts <= MaxAttempts
      && (attempts < MaxAttempts ==> r.food !in r.snake)
  {
    var dir := EffectiveDirection(s.direction, requested);
    var grown := [Candidate(cfg, s, requested)] + s.snake;
    var placed := PlaceFood(cfg.gridSize, grown, draws);
    assert Tick(cfg, s, requested, draws)
        == (s.(snake := grown, food := placed.0, direction := dir, score := s.score + FoodReward), placed.1);
  }

  // ---------------------------------------------------------------------------
  // Invariants a tick preserves

  predicate AllInGrid(n: int, snake: seq<Position>) {
    forall i :: 0 <= i < |snake| ==> InGrid(n, snake[i])
  }

  predicate Distinct(snake: seq<Position>) {
    forall i, j :: 0 <= i < j < |snake| ==> snake[i] != snake[j]
  }

  /** `a` is one move away from `b` under the configuration's boundary policy. */
  predicate Neighbours(cfg: Config, a: Position, b: Position) {
    a == NextHead(cfg, b, Up) || a == NextHead(cfg, b, Down)
    || a == NextHead(cfg, b, Left) || a == NextHead(cfg, b, Right)
  }

  /** Every segment is one move away from the segment behind it. */
  predicate Linked(cfg: Config, snake: seq<Position>) {
    forall i :: 1 <= i < |snake| ==> Neighbours(cfg, snake[i - 1], snake[i])
  }

  /** The shape of a game in play: a non-empty body on the grid, without
      repeated cells, each segment a move away from the next, and a score that
      is a non-negative multiple of the food reward. */
  predicate WellFormed(cfg: Config, s: GameState) {
    && |s.snake| >= 1
    && AllInGrid(cfg.gridSize, s.snake)
    && Distinct(s.snake)
    && Linked(cfg, s.snake)
    && s.score >= 0 && s.score % FoodReward == 0
  }

  /** Prepending a fresh head that is one move ahead of the old head keeps the
      body well-formed. */
  lemma {:induction false} PrependKeepsShape(cfg: Config, head: Position, body: seq<Position>)
    requires |body| >= 1 && AllInGrid(cfg.gridSize, body) && Distinct(body) && Linked(cfg, body)
    requires InGrid(cfg.gridSize, head) && head !in body && Neighbours(cfg, head, body[0])
    ensures AllInGrid(cfg.gridSize, [head] + body)
    ensures Distinct([head] + body)
    ensures Linked(cfg, [head] + body)
  {
    var t := [head] + body;
    forall i, j | 0 <= i < j < |t| ensures t[i] != t[j] {
      if i == 0 {
        assert t[j] == body[j - 1];
      } else {
        assert t[i] == body[i - 1] && t[j] == body[j - 1];
      }
    }
    forall i | 1 <= i < |t| ensures Neighbours(cfg, t[i - 1], t[i]) {
      if i >= 2 {
        assert t[i - 1] == body[i - 2] && t[i] == body[i - 1];
      }
    }
  }

  /** Dropping the last segment keeps the body well-formed. */
  lemma {:induction false} DropLastKeepsShape(cfg: Config, body: seq<Position>)
    requires |body| >= 2 && AllInGrid(cfg.gridSize, body) && Distinct(body) && Linked(cfg, body)
    ensures var t := body[..|body| - 1];
      AllInGrid(cfg.gridSize, t) && Distinct(t) && Linked(cfg, t)
  {
    var t := body[..|body| - 1];
    forall i | 1 <= i < |t| ensures Neighbours(cfg, t[i - 1], t[i]) {
      assert t[i - 1] == body[i - 1] && t[i] == body[i];
    }
  }

  /** The body after a safe step: the head prepended, the tail kept when the
      snake grows and dropped otherwise. */
  lemma {:induction false} StepKeepsShape(cfg: Config, head: Position, snake: seq<Position>, grow: bool)
    requires |snake| >= 1 && AllInGrid(cfg.gridSize, snake) && Distinct(snake) && Linked(cfg, snake)
    requires InGrid(cfg.gridSize, head) && head != snake[0] && Neighbours(cfg, head, snake[0])
    requires forall i :: 1 <= i < |snake| ==> snake[i] != head
    ensures var t := if grow then [head] + snake else [head] + snake[..|snake| - 1];
      AllInGrid(cfg.gridSize, t) && Distinct(t) && Linked(cfg, t)
  {
    if grow {
      PrependKeepsShape(cfg, head, snake);
    } else if |snake| == 1 {
      assert [head] + snake[..|snake| - 1] == [head];
    } else {
      var body := snake[..|snake| - 1];
      DropLastKeepsShape(cfg, snake);
      assert forall k :: 0 <= k < |body| ==> body[k] == snake[k];
      PrependKeepsShape(cfg, head, body);
    }
  }

  /** What a safe candidate head has in common in both modes. */
  lemma SafeHead(cfg: Config, snake: seq<Position>, dir: Direction)
    requires cfg.gridSize >= 2 && |snake| >= 1 && InGrid(cfg.gridSize, snake[0])
    requires !CheckCollision(cfg, NextHead(cfg, snake[0], dir), snake)
    ensures var head := NextHead(cfg, snake[0], dir);
      && InGrid(cfg.gridSize, head) && head != snake[0] && Neighbours(cfg, head, snake[0])
      && forall i :: 1 <= i < |snake| ==> snake[i] != head
  {
    if cfg.mode == PassThrough {
      NextHeadPassThrough(cfg, snake[0], dir);
    }
    NextHeadMoves(cfg, snake[0], dir);
    match dir
    case Up =>
    case Down =>
    case Left =>
    case Right =>
  }

  /** The state after a safe step is well-formed when the state before was. */
  lemma StepResultWellFormed(cfg: Config, s: GameState, r: GameState, head: Position, grow: bool)
    requires WellFormed(cfg, s)
    requires InGrid(cfg.gridSize, head) && head != s.snake[0] && Neighbours(cfg, head, s.snake[0])
    requires forall i :: 1 <= i < |s.snake| ==> s.snake[i] != head
    requires r.snake == if grow then [head] + s.snake else [head] + s.snake[..|s.snake| - 1]
    requires r.score == if grow then s.score + FoodReward else s.score
    ensures WellFormed(cfg, r)
  {
    StepKeepsShape(cfg, head, s.snake, grow);
  }

  /** A tick keeps a well-formed game well-formed, on any grid of side at
      least 2 and in either mode. */
  lemma {:induction false} TickPreservesWellFormed(cfg: Config, s: GameState, requested: Option<Direction>, draws: seq<real>)
    requires ValidDraws(draws) && cfg.gridSize >= 2 && WellFormed(cfg, s)
    ensures WellFormed(cfg, Tick(cfg, s, requested, draws).0)
  {
    if s.isGameOver || s.isPaused {
      return;
    }
    var dir := EffectiveDirection(s.direction, requested);
    var head := NextHead(cfg, s.snake[0], dir);
    if CheckCollision(cfg, head, s.snake) {
      return;
    }
    SafeHead(cfg, s.snake, dir);
    if head == s.food {
      TickEat(cfg, s, requested, draws);
      StepResultWellFormed(cfg, s, Tick(cfg, s, requested, draws).0, head, true);
    } else {
      TickMove(cfg, s, requested, draws);
      StepResultWellFormed(cfg, s, Tick(cfg, s, requested, draws).0, head, false);
    }
  }

  // ---------------------------------------------------------------------------
  // The initial state

  /** The starting body lies on the grid, three distinct cells in a row. */
  lemma InitialSnakeOnGrid(n: GridSize)
    requires n >= 4
    ensures AllInGrid(n, InitialSnake(n)) && Distinct(InitialSnake(n))
  {
    var c := n / 2;
    assert 2 <= c < n;
  }

  /** Each starting segment is one move to the right of the one behind it. */
  lemma InitialSnakeLinked(cfg: Config)
    requires cfg.gridSize >= 4
    ensures forall i :: 1 <= i < 3 ==> NextHead(cfg, InitialSnake(cfg.gridSize)[i], Right) == InitialSnake(cfg.gridSize)[i - 1]
    ensures Linked(cfg, InitialSnake(cfg.gridSize))
  {
    var s := InitialSnake(cfg.gridSize);
    InitialSnakeOnGrid(cfg.gridSize);
    if cfg.mode == PassThrough {
      NextHeadPassThrough(cfg, s[1], Right);
      NextHeadPassThrough(cfg, s[2], Right);
    }
    assert NextHead(cfg, s[1], Right) == s[0];
    assert NextHead(cfg, s[2], Right) == s[1];
  }

  /** On a grid of side at least 4 the starting snake fits and is
      well-formed. */
  lemma InitialStateWellFormed(cfg: Config, food: Position)
    requires cfg.gridSize >= 4
    ensures WellFormed(cfg, GameState(InitialSnake(cfg.gridSize), food, Right, 0, false, false))
  {
    InitialSnakeOnGrid(cfg.gridSize);
    InitialSnakeLinked(cfg);
  }

  /** Initial food placement excludes only the head, so the food can start on
      the second segment: on a 20-cell grid, the draws 0.45 and 0.5 give
      (9, 10) at the first attempt. */
  lemma InitialFoodMayCoverBody()
    ensures var draws := seq(2 * MaxAttempts, i => if i == 0 then 0.45 else 0.5);
      && ValidDraws(draws)
      && PlaceFood(20, [InitialSnake(20)[0]], draws).0 == InitialSnake(20)[1]
  {
    var draws := seq(2 * MaxAttempts, i => if i == 0 then 0.45 else 0.5);
    assert draws[0] == 0.45 && draws[1] == 0.5;
    assert DrawCell(20, draws, 0) == Position(9, 10);
  }

  // ---------------------------------------------------------------------------
  // Scenarios of the unit tests (grid of side 20)

  const Walls20 := Config(20, Walls)
  const Pass20 := Config(20, PassThrough)

  /** From the initial state a tick without input moves the head from (10, 10)
      to (11, 10) and keeps three segments and score 0, when no food is there. */
  lemma FirstTickMovesRight(food: Position, draws: seq<real>)
    requires ValidDraws(draws) && food != Position(11, 10)
    ensures var (r, _) := Tick(Walls20, GameState(InitialSnake(20), food, Right, 0, false, false), None, draws);
      r.snake == [Position(11, 10), Position(10, 10), Position(9, 10)] && r.score == 0 && !r.isGameOver
  {
  }

  /** Food right in front of the head: one more segment and ten more points. */
  lemma FoodInFrontGrows(draws: seq<real>)
    requires ValidDraws(draws)
    ensures var (r, _) := Tick(Walls20, GameState(InitialSnake(20), Position(11, 10), Right, 0, false, false), None, draws);
      |r.snake| == 4 && r.score == 10
  {
  }

  /** Walls mode, head (0, 0) moving left: the game is over. */
  lemma WallAtOrigin(draws: seq<real>)
    requires ValidDraws(draws)
    ensures Tick(Walls20, GameState([Position(0, 0)], Position(5, 5), Left, 0, false, false), None, draws).0.isGameOver
  {
  }

  /** Pass-through mode, head (0, 10) moving left: it reappears at (19, 10). */
  lemma PassThroughWrapsLeft(draws: seq<real>)
    requires ValidDraws(draws)
    ensures var (r, _) := Tick(Pass20, GameState([Position(0, 10)], Position(5, 5), Left, 0, false, false), None, draws);
      r.snake == [Position(19, 10)] && !r.isGameOver
  {
    WrapInRange(-1, 20);
    WrapInRange(10, 20);
  }

  /** Moving down from (5, 5) onto (5, 6), the tail that would have vacated its
      cell this tick, still ends the game. */
  lemma SelfCollisionWithVacatingTail(draws: seq<real>)
    requires ValidDraws(draws)
    ensures Tick(Walls20, GameState([Position(5, 5), Position(4, 5), Position(4, 6), Position(5, 6)],
                                    Position(10, 10), Down, 0, false, false), None, draws).0.isGameOver
  {
    var snake := [Position(5, 5), Position(4, 5), Position(4, 6), Position(5, 6)];
    assert snake[3] == Position(5, 6);
  }

  /** The direction pairs of the unit tests. */
  lemma DirectionChangeCases()
    ensures IsValidDirectionChange(Up, Left) && IsValidDirectionChange(Up, Right)
    ensures !IsValidDirectionChange(Up, Down) && !IsValidDirectionChange(Left, Right)
  {
  }
}
