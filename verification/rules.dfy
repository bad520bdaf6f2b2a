/**
 * The rules of the snake simulation in src/game.rs, stated on values.
 *
 * A Board is a snapshot of the fields of SnakeGameViewModel. Every operation
 * of the view model is specified here as a function or relation from the
 * board before to the board after; the class in module Game is proved to
 * follow these, and the lemmas below show that every operation keeps the
 * invariant Stable.
 */
module Rules {
  import opened Grid

  datatype GameState = Won | Playing | Lost | Paused

  datatype Direction = Left | Right | Up | Down

  /** The score at which the game is won: one point per cell of the board. */
  const WinningScore: nat := 2500

  /** The number of ticks a boost lasts. */
  const BoostLength: nat := 300

  /** How much a boost lowers the tick interval (in milliseconds). */
  const BoostGain: nat := 50

  /** The tick interval of a fresh game. */
  const InitialSpeed: nat := 100

  /** Above this score a move that eats nothing leaves the body alone. */
  const GrowthLimit: nat := 50

  datatype Board = Board(
    head: Cell,
    snake: seq<Cell>,       // the deque, front first; it holds the head cell itself
    dot: Cell,              // the food
    score: nat,
    state: GameState,
    direction: Direction,
    available: set<Cell>,
    boostTurns: nat,
    speed: nat)

  /** The direction a move may not take while the snake is heading d. */
  function Opposite(d: Direction): Direction {
    match d
    case Left => Right
    case Right => Left
    case Up => Down
    case Down => Up
  }

  /** The cell one step from c in direction d: Up increases y, Down decreases y. */
  function Neighbour(c: Cell, d: Direction): (r: Cell)
    ensures d == Up || d == Down ==> r.0 == c.0 && (r.1 - c.1 == 1 || c.1 - r.1 == 1)
    ensures d == Left || d == Right ==> r.1 == c.1 && (r.0 - c.0 == 1 || c.0 - r.0 == 1)
    ensures r != c
    ensures (d == Up ==> r.1 > c.1) && (d == Down ==> r.1 < c.1)
    ensures (d == Right ==> r.0 > c.0) && (d == Left ==> r.0 < c.0)
  {
    match d
    case Up => (c.0, c.1 + 1)
    case Down => (c.0, c.1 - 1)
    case Right => (c.0 + 1, c.1)
    case Left => (c.0 - 1, c.1)
  }

  /** A step in the opposite direction undoes a step: reversing would put the head on its own neck. */
  lemma NeighbourReversed(c: Cell, d: Direction)
    ensures Neighbour(Neighbour(c, d), Opposite(d)) == c
    ensures Opposite(Opposite(d)) == d && Opposite(d) != d
  {
  }

  // ---------------------------------------------------------------- speed

  function Min(a: int, b: int): int {
    if a < b then a else b
  }

  /**
   * The tick interval that the captures alone leave at `score`: 100, less 4
   * for every multiple of 5 in (0, min(score, 30)], less 1 for every
   * multiple of 100 in (0, score].
   */
  function BaseSpeed(score: nat): int {
    InitialSpeed - 4 * (Min(score, 30) / 5) - score / 100
  }

  /** The tick interval at `score` while `boostTurns` boosted ticks remain. */
  function ScheduledSpeed(score: nat, boostTurns: nat): int {
    BaseSpeed(score) - (if boostTurns > 0 then BoostGain else 0)
  }

  /** The amount the capture that brings the score to `score` takes off the tick interval. */
  function CaptureDrop(score: nat): nat {
    if 0 < score <= 30 && score % 5 == 0 then 4
    else if 0 < score && score % 100 == 0 then 1
    else 0
  }

  /** Each capture moves the tick interval exactly one step along the schedule. */
  lemma CaptureFollowsSchedule(score: nat)
    ensures BaseSpeed(score + 1) == BaseSpeed(score) - CaptureDrop(score + 1)
  {
    var s := score + 1;
    if s <= 30 {
      assert s / 100 == 0 && score / 100 == 0;
      if s % 5 == 0 {
        assert s / 5 == score / 5 + 1;
      } else {
        assert s / 5 == score / 5;
      }
    } else {
      assert Min(s, 30) == Min(score, 30) == 30;
      if s % 100 == 0 {
        assert s / 100 == score / 100 + 1;
      } else {
        assert s / 100 == score / 100;
      }
    }
  }

  /**
   * The schedule runs 100 -> 76 over scores 0..30 and ends at 51 at the
   * winning score, so the interval never drops below 1 even during a boost.
   */
  lemma SpeedBounds(score: nat, boostTurns: nat)
    requires score <= WinningScore
    ensures 51 <= BaseSpeed(score) <= InitialSpeed
    ensures score <= 30 ==> 76 <= BaseSpeed(score)
    ensures BaseSpeed(30) == 76 && BaseSpeed(WinningScore) == 51
    ensures ScheduledSpeed(score, boostTurns) >= 1
  {
    assert score / 100 <= 25;
    assert Min(score, 30) / 5 <= 6;
  }

  /**
   * On a board ready for update_game the tick interval can take the drop of
   * the next capture without going below 1, so the unsigned subtraction in
   * the source never underflows.
   */
  lemma CaptureSpeedSafe(m: Board)
    requires Ready(m)
    ensures m.speed >= CaptureDrop(m.score + 1) + 1
  {
    CaptureFollowsSchedule(m.score);
    SpeedBounds(m.score + 1, m.boostTurns);
  }

  /** The boost countdown at the end of update_game: the boosted ticks left afterwards. */
  function Countdown(turns: nat): nat {
    if turns == 1 then 0
    else if 2 <= turns <= BoostLength then turns - 1
    else turns
  }

  /** What the countdown gives back to the tick interval: the boost's 50 ms on its last tick. */
  function Refund(turns: nat): nat {
    if turns == 1 then BoostGain else 0
  }

  /** The countdown keeps the tick interval on schedule and the boost within its length. */
  lemma CountdownKeepsSchedule(score: nat, turns: nat)
    requires turns <= BoostLength
    ensures Countdown(turns) <= BoostLength
    ensures turns == 0 ==> Countdown(turns) == 0
    ensures turns > 0 ==> Countdown(turns) == turns - 1
    ensures ScheduledSpeed(score, Countdown(turns)) == ScheduledSpeed(score, turns) + Refund(turns)
  {
  }

  // ------------------------------------------------------------ invariant

  predicate Distinct(s: seq<Cell>) {
    forall i, j :: 0 <= i < j < |s| ==> s[i] != s[j]
  }

  /** The head lies on the board or one cell outside it. */
  predicate NearBoard(c: Cell) {
    -1 <= c.0 <= Size && -1 <= c.1 <= Size
  }

  /**
   * What holds of every board, including the moment between moving the head
   * and resolving the move in update_game.
   */
  ghost predicate Consistent(m: Board) {
    && NearBoard(m.head)
    && InBounds(m.dot)
    && |m.snake| == m.score <= WinningScore
    && (m.state == Won <==> m.score == WinningScore)
    && m.boostTurns <= BoostLength
    && m.speed == ScheduledSpeed(m.score, m.boostTurns)
    && Distinct(m.snake)
    && (forall i :: 0 <= i < |m.snake| ==> InBounds(m.snake[i]) && m.snake[i] !in m.available)
    && (forall c :: c in m.available ==> InBounds(c))
    && m.dot !in m.available
    && (m.score <= GrowthLimit ==> m.dot !in m.snake && |m.available| + m.score >= Size * Size - 2)
  }

  /** The invariant of every board a player can observe. */
  ghost predicate Stable(m: Board) {
    && Consistent(m)
    && (m.state != Lost ==> InBounds(m.head))
    && (m.state != Lost && 0 < m.score <= GrowthLimit ==> m.snake[0] == m.head)
  }

  /** On every stable board the tick interval lies in [1, 100], and above 50 whenever no boost runs. */
  lemma StableSpeedInRange(m: Board)
    requires Stable(m)
    ensures 1 <= m.speed <= InitialSpeed
    ensures m.boostTurns == 0 ==> m.speed > BoostGain
  {
    SpeedBounds(m.score, m.boostTurns);
  }

  /** A board on which update_game may run: its callers only move the head while Playing. */
  ghost predicate Ready(m: Board) {
    Consistent(m) && m.state == Playing
  }

  // ----------------------------------------------------------- operations

  /** The board that new and reset_game build from a random head, dot and direction. */
  function Initial(head: Cell, dot: Cell, direction: Direction): Board {
    Board(head, [], dot, 0, Playing, direction, AllCells() - {head, dot}, 0, InitialSpeed)
  }

  /** A fresh board is stable and leaves 2498 cells available. */
  lemma InitialStable(head: Cell, dot: Cell, direction: Direction)
    requires InBounds(head) && InBounds(dot) && head != dot
    ensures Stable(Initial(head, dot, direction))
    ensures |Initial(head, dot, direction).available| == Size * Size - 2
  {
    var m := Initial(head, dot, direction);
    AllButTwoSize(head, dot);
    forall c | c in m.available
      ensures InBounds(c)
    {
      AllCellsInBounds(c);
    }
  }

  /** Does the head just moved to sit on the body or off the board? */
  predicate Collides(m: Board) {
    m.head in m.snake || !InBounds(m.head)
  }

  /**
   * The food placement after a capture, from the cells `pool` still
   * available: with none left the dot stays where it was, otherwise some
   * cell of the pool becomes the dot and leaves the pool.
   */
  ghost predicate Redrawn(pool: set<Cell>, oldDot: Cell, dot: Cell, available: set<Cell>) {
    if pool == {} then dot == oldDot && available == {}
    else dot in pool && available == pool - {dot}
  }

  /**
   * update_game: m is the board with the head already moved, m' the board
   * afterwards. Collision, then capture, then a plain move, then in every
   * case the boost countdown.
   */
  ghost predicate Updated(m: Board, m': Board) {
    var turns, refund := Countdown(m.boostTurns), Refund(m.boostTurns);
    if Collides(m) then
      m' == m.(state := Lost, boostTurns := turns, speed := m.speed + refund)
    else if m.head == m.dot then
      var score := m.score + 1;
      var pool := m.available - {m.head};
      && m'.head == m.head && m'.direction == m.direction
      && m'.score == score
      && m'.snake == [m.head] + m.snake
      && m'.boostTurns == turns
      && m'.speed == m.speed - CaptureDrop(score) + refund
      && if score == WinningScore then
           m'.state == Won && m'.dot == m.dot && m'.available == pool
         else
           m'.state == m.state && Redrawn(pool, m.dot, m'.dot, m'.available)
    else if m.score <= GrowthLimit && m.state == Playing then
      var pushed := [m.head] + m.snake;
      var tail := pushed[|pushed| - 1];
      m' == m.(snake := pushed[..|pushed| - 1], available := (m.available - {m.head}) + {tail},
               boostTurns := turns, speed := m.speed + refund)
    else
      m' == m.(boostTurns := turns, speed := m.speed + refund)
  }

  /** up, down, left, right: ignored unless Playing and unless a reversal; otherwise step and resolve. */
  ghost predicate Moved(m: Board, d: Direction, m': Board) {
    if m.state != Playing || m.direction == Opposite(d) then m' == m
    else Updated(m.(direction := d, head := Neighbour(m.head, d)), m')
  }

  /** same_direction: a no-op unless Playing; otherwise a move in the current direction. */
  ghost predicate KeptDirection(m: Board, m': Board) {
    if m.state != Playing then m' == m else Moved(m, m.direction, m')
  }

  /** boost: allowed only above 50 ms, with no boost running and a positive score. */
  function Boosted(m: Board): (m': Board)
    ensures m'.speed <= m.speed
    ensures m' != m ==> m.boostTurns == 0 && m'.boostTurns == BoostLength && m'.speed + BoostGain == m.speed
    ensures m' != m <==> m.speed > BoostGain && m.boostTurns == 0 && m.score > 0
    ensures m'.(boostTurns := m.boostTurns, speed := m.speed) == m
  {
    if m.speed > BoostGain && m.boostTurns == 0 && m.score > 0 then
      m.(boostTurns := BoostLength, speed := m.speed - BoostGain)
    else m
  }

  /** The space key: Playing and Paused swap, Won and Lost stay. */
  function Toggled(s: GameState): (r: GameState)
    ensures (s == Playing || s == Paused) <==> (r == Playing || r == Paused)
    ensures r != s <==> s == Playing || s == Paused
  {
    match s
    case Playing => Paused
    case Paused => Playing
    case _ => s
  }

  // --------------------------------------------------------------- lemmas

  lemma RedrawnFacts(pool: set<Cell>, oldDot: Cell, dot: Cell, available: set<Cell>)
    requires Redrawn(pool, oldDot, dot, available)
    ensures available <= pool && dot !in available
    ensures pool != {} ==> dot in pool && |available| == |pool| - 1
    ensures pool != {} ==> available == pool - {dot}
    ensures pool == {} ==> dot == oldDot && available == {}
  {
  }

  /** update_game keeps the invariant; it also brings the head back onto the board unless the game is lost. */
  lemma UpdatePreservesStable(m: Board, m': Board)
    requires Ready(m) && Updated(m, m')
    ensures Stable(m')
  {
    CountdownKeepsSchedule(m.score, m.boostTurns);
    if Collides(m) {
    } else if m.head == m.dot {
      CaptureStable(m, m');
    } else if m.score <= GrowthLimit && m.state == Playing {
      PlainMoveStable(m, m');
    }
  }

  lemma CaptureStable(m: Board, m': Board)
    requires Ready(m) && !Collides(m) && m.head == m.dot && Updated(m, m')
    ensures Stable(m')
  {
    CountdownKeepsSchedule(m.score, m.boostTurns);
    var score := m.score + 1;
    var pool := m.available - {m.head};
    assert pool == m.available;
    CaptureFollowsSchedule(m.score);
    SpeedBounds(score, m'.boostTurns);
    forall i | 0 <= i < |m'.snake|
      ensures InBounds(m'.snake[i]) && m'.snake[i] !in m'.available
    {
      if i > 0 {
        assert m'.snake[i] == m.snake[i - 1];
      }
    }
    if score != WinningScore {
      if score <= GrowthLimit {
        assert |pool| > 0;
      }
      RedrawnFacts(pool, m.dot, m'.dot, m'.available);
    }
  }

  lemma PlainMoveStable(m: Board, m': Board)
    requires Ready(m) && !Collides(m) && m.head != m.dot && m.score <= GrowthLimit && Updated(m, m')
    ensures Stable(m')
  {
    CountdownKeepsSchedule(m.score, m.boostTurns);
    var pushed := [m.head] + m.snake;
    var tail := pushed[|pushed| - 1];
    var rest := m.available - {m.head};
    assert tail !in rest && tail != m.dot by {
      if |m.snake| > 0 {
        assert tail == m.snake[|m.snake| - 1];
      }
    }
    assert |m'.available| == |rest| + 1;
    forall i | 0 <= i < |m'.snake|
      ensures InBounds(m'.snake[i]) && m'.snake[i] !in m'.available
    {
      if i > 0 {
        assert m'.snake[i] == m.snake[i - 1];
      }
    }
  }

  /** Each of up, down, left and right keeps the invariant. */
  lemma MovePreservesStable(m: Board, d: Direction, m': Board)
    requires Stable(m) && Moved(m, d, m')
    ensures Stable(m')
  {
    if m.state == Playing && m.direction != Opposite(d) {
      UpdatePreservesStable(m.(direction := d, head := Neighbour(m.head, d)), m');
    }
  }

  /** same_direction is never turned away as a reversal: while Playing it always resolves a step. */
  lemma KeptDirectionSteps(m: Board, m': Board)
    requires m.state == Playing && KeptDirection(m, m')
    ensures Updated(m.(head := Neighbour(m.head, m.direction)), m')
  {
    NeighbourReversed(m.head, m.direction);
    assert m.(direction := m.direction, head := Neighbour(m.head, m.direction))
        == m.(head := Neighbour(m.head, m.direction));
  }

  /** On a stable board with no boost running the tick interval is above 50 ms, so boost's speed test never refuses. */
  lemma BoostNeedsOnlyScore(m: Board)
    requires Stable(m) && m.boostTurns == 0
    ensures m.speed > BoostGain
    ensures Boosted(m).boostTurns == (if m.score > 0 then BoostLength else 0)
  {
    SpeedBounds(m.score, 0);
  }

  /** boost keeps the invariant. */
  lemma BoostPreservesStable(m: Board)
    requires Stable(m)
    ensures Stable(Boosted(m))
  {
  }

  /** The pause toggle keeps the invariant. */
  lemma TogglePreservesStable(m: Board)
    requires Stable(m)
    ensures Stable(m.(state := Toggled(m.state)))
  {
  }

  /** A move requested after the game is lost, as the second half of a double move is, changes nothing. */
  lemma NoMoveAfterLoss(m: Board, d: Direction, m': Board)
    requires m.state == Lost && Moved(m, d, m')
    ensures m' == m
  {
  }

  /** Collision: the game is lost and the body, score, food and free cells stay; only the countdown runs. */
  lemma CollisionKeepsBoard(m: Board, m': Board)
    requires Ready(m) && Collides(m) && Updated(m, m')
    ensures m'.state == Lost
    ensures m'.snake == m.snake && m'.score == m.score && m'.dot == m.dot && m'.available == m.available
    ensures m'.boostTurns == Countdown(m.boostTurns)
  {
  }

  /**
   * Capture: the score rises by exactly one, the body grows by the head cell
   * at its front and nothing else in it moves, and the new food is a cell
   * that was free (or, with no cell free or the game won, stays put); the
   * free cells lose exactly the new food's cell.
   */
  lemma CaptureGrows(m: Board, m': Board)
    requires Ready(m) && !Collides(m) && m.head == m.dot && Updated(m, m')
    ensures m'.score == m.score + 1 && |m'.snake| == |m.snake| + 1
    ensures m'.snake[0] == m.head && m'.snake[1..] == m.snake
    ensures m'.state == (if m'.score == WinningScore then Won else Playing)
    ensures m'.state == Playing && m.available != {} ==> m'.dot in m.available && m'.dot !in m'.available
    ensures m'.state == Playing && m.available == {} ==> m'.dot == m.dot
    ensures m'.state == Won ==> m'.dot == m.dot
    ensures m'.available == m.available - {m'.dot}
  {
    assert m.available - {m.head} == m.available;
  }

  /**
   * A plain move: up to score 50 the body keeps its length, its front becomes
   * the head and the cell it leaves is free again; above 50 the body and the
   * free cells do not change at all.
   */
  lemma PlainMoveShape(m: Board, m': Board)
    requires Ready(m) && !Collides(m) && m.head != m.dot && Updated(m, m')
    ensures |m'.snake| == |m.snake| && m'.score == m.score && m'.dot == m.dot
    ensures m.score <= GrowthLimit && m.score > 0 ==>
      m'.snake == [m.head] + m.snake[..|m.snake| - 1] && m'.available == (m.available - {m.head}) + {m.snake[|m.snake| - 1]}
    ensures m.score == 0 ==> m'.snake == [] && m'.available == m.available + {m.head}
    ensures m.score > GrowthLimit ==> m'.snake == m.snake && m'.available == m.available
  {
    if m.score <= GrowthLimit && m.score > 0 {
      var pushed := [m.head] + m.snake;
      assert pushed[..|pushed| - 1] == [m.head] + m.snake[..|m.snake| - 1];
    }
    if m.score == 0 {
      assert (m.available - {m.head}) + {m.head} == m.available + {m.head};
    }
  }
}
