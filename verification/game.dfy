/**
 * SnakeGameViewModel of src/game.rs: the game state as an object whose
 * methods update its fields in place, and the key dispatch of
 * handle_events over an abstract input event.
 *
 * Every method is proved against the rules of module Rules: its new state is
 * the board those rules give for its old state, and the invariant Stable is
 * kept. Random choices (the starting head, food and direction, and the cell
 * the next food is placed on) come in as parameters or as a choice among the
 * free cells.
 */
module Game {
  import opened Grid
  import opened Rules

  datatype Option<T> = None | Some(value: T)

  /**
   * The free cells of a fresh board: every cell but the head and the food,
   * gathered column by column as the nested loops in new and reset_game do.
   */
  method FreeCells(head: Cell, dot: Cell) returns (free: set<Cell>)
    ensures free == AllCells() - {head, dot}
  {
    free := {};
    for x := 0 to Size
      invariant free == Columns(x) - {head, dot}
    {
      for y := 0 to Size
        invariant free == (Columns(x) + ColumnPrefix(x, y)) - {head, dot}
      {
        if dot != (x, y) && head != (x, y) {
          free := free + {(x, y)};
        }
        assert ColumnPrefix(x, y + 1) == ColumnPrefix(x, y) + {(x, y)};
      }
      assert Columns(x + 1) == Columns(x) + ColumnPrefix(x, Size);
    }
  }

  class SnakeGameViewModel {
    var head: Cell
    var snake: seq<Cell>
    var dot: Cell
    var score: nat
    var state: GameState
    var direction: Direction
    var available: set<Cell>
    var boostTurns: nat
    var speed: nat

    /** The fields as a value. */
    ghost function Model(): Board
      reads this
    {
      Board(head, snake, dot, score, state, direction, available, boostTurns, speed)
    }

    ghost predicate Valid()
      reads this
    {
      Stable(Model())
    }

    /** new, with its random head, food and direction passed in. */
    constructor (head0: Cell, dot0: Cell, direction0: Direction)
      requires InBounds(head0) && InBounds(dot0) && head0 != dot0
      ensures Valid()
      ensures Model() == Initial(head0, dot0, direction0)
    {
      var free := FreeCells(head0, dot0);
      head := head0;
      snake := [];
      dot := dot0;
      score := 0;
      state := Playing;
      direction := direction0;
      available := free;
      speed := InitialSpeed;
      boostTurns := 0;
      InitialStable(head0, dot0, direction0);
    }

    /** reset_game, with its random head, food and direction passed in. */
    method ResetGame(head0: Cell, dot0: Cell, direction0: Direction)
      requires InBounds(head0) && InBounds(dot0) && head0 != dot0
      modifies this
      ensures Valid()
      ensures Model() == Initial(head0, dot0, direction0)
    {
      var free := FreeCells(head0, dot0);
      head := head0;
      snake := [];
      dot := dot0;
      score := 0;
      state := Playing;
      direction := direction0;
      available := free;
      speed := InitialSpeed;
      boostTurns := 0;
      InitialStable(head0, dot0, direction0);
    }

    method Boost()
      requires Valid()
      modifies this
      ensures Valid()
      ensures Model() == Boosted(old(Model()))
    {
      if speed > BoostGain && boostTurns == 0 && score > 0 {
        boostTurns := BoostLength;
        speed := speed - BoostGain;
      }
      BoostPreservesStable(old(Model()));
    }

    /**
     * get_random_point_from_set: None when no cell is free, otherwise some
     * free cell. Which one the source picks (uniformly at random, through the
     * hash set's iteration order) is not modelled.
     */
    method GetRandomPointFromSet() returns (p: Option<Cell>)
      ensures p == None <==> available == {}
      ensures p.Some? ==> p.value in available
    {
      if available == {} {
        return None;
      }
      var c :| c in available;
      p := Some(c);
    }

    /**
     * update_game: resolves the move the head has just made. Its one demand
     * is that the tick interval, an unsigned integer, can take the drop of a
     * capture; Stable boards always can (CaptureSpeedSafe).
     */
    method UpdateGame()
      requires speed >= CaptureDrop(score + 1)
      modifies this
      ensures Updated(old(Model()), Model())
    {
      ghost var m := Model();
      if head in snake || !(0 <= head.0 < Size) || !(0 <= head.1 < Size) {
        state := Lost;
      } else if dot == head {
        score := score + 1;
        snake := [head] + snake;
        available := available - {head};
        // the match on the new score: 4 ms off at 5, 10, ..., 30, 1 ms off at every hundred
        speed := speed - CaptureDrop(score);
        if score == WinningScore {
          state := Won;
        } else {
          var p := GetRandomPointFromSet();
          if p.Some? {
            available := available - {p.value};
            dot := p.value;
          }
        }
      } else if score <= GrowthLimit && state == Playing {
        snake := [head] + snake;
        available := available - {head};
        // pop_back always yields a cell here: the deque was just pushed to
        var tail := snake[|snake| - 1];
        snake := snake[..|snake| - 1];
        available := available + {tail};
      }
      TickBoost();
    }

    /** The boost countdown that closes update_game. */
    method TickBoost()
      modifies this`boostTurns, this`speed
      ensures boostTurns == Countdown(old(boostTurns)) && speed == old(speed) + Refund(old(boostTurns))
    {
      if boostTurns == 1 {
        boostTurns := 0;
        speed := speed + BoostGain;
      } else if 2 <= boostTurns <= BoostLength {
        boostTurns := boostTurns - 1;
      }
    }

    method Up()
      requires Valid()
      modifies this
      ensures Valid()
      ensures Moved(old(Model()), Direction.Up, Model())
    {
      if state != Playing || direction == Direction.Down {
        return;
      }
      direction := Direction.Up;
      head := (head.0, head.1 + 1);
      ghost var stepped := Model();
      assert stepped == old(Model()).(direction := Direction.Up, head := Neighbour(old(head), Direction.Up));
      CaptureSpeedSafe(stepped);
      UpdateGame();
      UpdatePreservesStable(stepped, Model());
    }

    method Down()
      requires Valid()
      modifies this
      ensures Valid()
      ensures Moved(old(Model()), Direction.Down, Model())
    {
      if state != Playing || direction == Direction.Up {
        return;
      }
      direction := Direction.Down;
      head := (head.0, head.1 - 1);
      ghost var stepped := Model();
      assert stepped == old(Model()).(direction := Direction.Down, head := Neighbour(old(head), Direction.Down));
      CaptureSpeedSafe(stepped);
      UpdateGame();
      UpdatePreservesStable(stepped, Model());
    }

    method Right()
      requires Valid()
      modifies this
      ensures Valid()
      ensures Moved(old(Model()), Direction.Right, Model())
    {
      if state != Playing || direction == Direction.Left {
        return;
      }
      direction := Direction.Right;
      head := (head.0 + 1, head.1);
      ghost var stepped := Model();
      assert stepped == old(Model()).(direction := Direction.Right, head := Neighbour(old(head), Direction.Right));
      CaptureSpeedSafe(stepped);
      UpdateGame();
      UpdatePreservesStable(stepped, Model());
    }

    method Left()
      requires Valid()
      modifies this
      ensures Valid()
      ensures Moved(old(Model()), Direction.Left, Model())
    {
      if state != Playing || direction == Direction.Right {
        return;
      }
      direction := Direction.Left;
      head := (head.0 - 1, head.1);
      ghost var stepped := Model();
      assert stepped == old(Model()).(direction := Direction.Left, head := Neighbour(old(head), Direction.Left));
      CaptureSpeedSafe(stepped);
      UpdateGame();
      UpdatePreservesStable(stepped, Model());
    }

    /** One of up, down, left and right, chosen by d. */
    method Go(d: Direction)
      requires Valid()
      modifies this
      ensures Valid()
      ensures Moved(old(Model()), d, Model())
    {
      match d
      case Up => Up();
      case Down => Down();
      case Left => Left();
      case Right => Right();
    }

    method SameDirection()
      requires Valid()
      modifies this
      ensures Valid()
      ensures KeptDirection(old(Model()), Model())
      ensures old(state) == Playing ==> Updated(old(Model()).(head := Neighbour(old(head), old(direction))), Model())
    {
      if state != Playing {
        return;
      }
      Go(direction);
      KeptDirectionSteps(old(Model()), Model());
    }

    /**
     * handle_events, once the poll has produced `event`; `head0`, `dot0` and
     * `direction0` are the random draws reset_game would make. Returns
     * whether the player asked to quit.
     */
    method HandleEvents(event: Event, head0: Cell, dot0: Cell, direction0: Direction) returns (quit: bool)
      requires Valid()
      requires InBounds(head0) && InBounds(dot0) && head0 != dot0
      modifies this
      ensures Valid()
      ensures quit <==> event.Press? && event.code == Char('q')
      ensures Handled(old(Model()), event, Initial(head0, dot0, direction0), Model())
    {
      quit := false;
      match event
      case Timeout =>
        SameDirection();
      case Unhandled =>
      case Press(code, controlOnly) =>
        match Decode(code, controlOnly)
        case Quit =>
          quit := true;
        case NewGame =>
          if state != Playing {
            ResetGame(head0, dot0, direction0);
          }
        case Steer(d, twice) =>
          Go(d);
          if twice {
            ghost var mid := Model();
            Go(d);
            assert Moved(old(Model()), d, mid) && Moved(mid, d, Model());
          }
        case PauseToggle =>
          if state == Playing {
            state := Paused;
          } else if state == Paused {
            state := Playing;
          }
          TogglePreservesStable(old(Model()));
        case BoostRequest =>
          Boost();
        case Ignored =>
    }
  }

  // ------------------------------------------------------------ key input

  /** The keys handle_events tells apart; OtherKey stands for every other key. */
  datatype KeyCode = Char(c: char) | UpKey | DownKey | LeftKey | RightKey | Enter | OtherKey

  /**
   * What the poll in handle_events produced: a key press (controlOnly: the
   * modifiers are exactly Control), no event before the timeout, or an event
   * that is not a key press (a release, a resize, the mouse).
   */
  datatype Event = Press(code: KeyCode, controlOnly: bool) | Timeout | Unhandled

  /**
   * The commands the key match selects. NewGame stands for both 'n' and
   * Enter; both reset only outside Playing, where a guard keeps 'n' from its
   * arm and the match falls through to the catch-all.
   */
  datatype Command = Quit | NewGame | Steer(direction: Direction, twice: bool) | PauseToggle | BoostRequest | Ignored

  /** The direction a key steers towards: the arrows and vi's k, j, h, l. */
  function KeyDirection(code: KeyCode): Option<Direction> {
    match code
    case UpKey => Some(Direction.Up)
    case DownKey => Some(Direction.Down)
    case LeftKey => Some(Direction.Left)
    case RightKey => Some(Direction.Right)
    case Char(c) =>
      if c == 'k' then Some(Direction.Up)
      else if c == 'j' then Some(Direction.Down)
      else if c == 'h' then Some(Direction.Left)
      else if c == 'l' then Some(Direction.Right)
      else None
    case _ => None
  }

  /** The arm of the key match in handle_events that a key press lands in. */
  function Decode(code: KeyCode, controlOnly: bool): (r: Command)
    ensures r == Quit <==> code == Char('q')
    ensures r == NewGame <==> code == Char('n') || code == Enter
    ensures r.Steer? <==> KeyDirection(code).Some?
    ensures r.Steer? ==> r.direction == KeyDirection(code).value && r.twice == controlOnly
    ensures r == PauseToggle <==> code == Char(' ')
    ensures r == BoostRequest <==> code == Char('b')
  {
    if code == Char('q') then Quit
    else if code == Char('n') then NewGame
    else if KeyDirection(code).Some? then Steer(KeyDirection(code).value, controlOnly)
    else if code == Char(' ') then PauseToggle
    else if code == Char('b') then BoostRequest
    else if code == Enter then NewGame
    else Ignored
  }

  /** The modifiers matter only to the direction keys: Control doubles a step and changes no other arm. */
  lemma ControlOnlyDoubles(code: KeyCode)
    ensures !Decode(code, true).Steer? ==> Decode(code, true) == Decode(code, false)
    ensures Decode(code, true).Steer? ==> Decode(code, false) == Decode(code, true).(twice := false)
  {
  }

  /** The effect of handle_events on the board, given the board a reset would produce. */
  ghost predicate Handled(m: Board, event: Event, restart: Board, m': Board) {
    match event
    case Timeout => KeptDirection(m, m')
    case Unhandled => m' == m
    case Press(code, controlOnly) =>
      match Decode(code, controlOnly)
      case Quit => m' == m
      case NewGame => m' == (if m.state != Playing then restart else m)
      case Steer(d, twice) =>
        if twice then exists mid :: Moved(m, d, mid) && Moved(mid, d, m')
        else Moved(m, d, m')
      case PauseToggle => m' == m.(state := Toggled(m.state))
      case BoostRequest => m' == Boosted(m)
      case Ignored => m' == m
  }
}
