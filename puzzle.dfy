/** The game object: the original board, the live board with its visited
    marks, the player, the move counter and the count of unmarked cells. */
module Puzzle {
  import opened Grid
  import opened Marks
  import opened Play
  import opened Reachability
  import opened Solver

  /** What a call to move_player comes to: an unknown key, a move whose first
      cell is an obstacle, or a slide, with whether the board is now covered. */
  datatype MoveOutcome = Invalid | Blocked | Moved(solved: bool)

  class SliderPuzzle {
    const originalBoard: Board
    const initialR: int
    const initialC: int
    var board: Board
    var countUnmarkedCells: int
    var playerR: int
    var playerC: int
    var moves: nat

    /** The live board is the original with some cells marked, and the count
        is the number of cells still unmarked. */
    ghost predicate Consistent()
      reads this`board, this`countUnmarkedCells
    {
      Rectangular(originalBoard) && Pristine(originalBoard) &&
      InBounds(originalBoard, Pos(initialR, initialC)) && originalBoard[initialR][initialC] == Empty &&
      MarkedFrom(originalBoard, board) &&
      countUnmarkedCells == CountEmpty(board)
    }

    /** Consistent, and the player stands on a visited cell of the board. */
    ghost predicate Valid()
      reads this`board, this`countUnmarkedCells, this`playerR, this`playerC
    {
      Consistent() &&
      InBounds(board, Pos(playerR, playerC)) && board[playerR][playerC] == Visited
    }

    /** The game as a search state: the player and the cells covered so far. */
    ghost function State(): Search
      reads this
    {
      Search(Pos(playerR, playerC), VisitedCells(board))
    }

    /** The live board has the shape and the walls of the original. */
    lemma BoardShape()
      requires Consistent()
      ensures Rectangular(board) && |board| == |originalBoard| && |board[0]| == |originalBoard[0]|
      ensures forall p :: IsObstacle(board, p) == IsObstacle(originalBoard, p)
    {
    }

    /** __init__: the count of unmarked cells is taken on the board as given,
        then the start cell is marked visited. */
    constructor (b: Board, r: int, c: int)
      requires Rectangular(b) && Pristine(b)
      requires InBounds(b, Pos(r, c)) && b[r][c] == Empty
      ensures Valid()
      ensures originalBoard == b && initialR == r && initialC == c
      ensures board == Mark(b, Pos(r, c)) && countUnmarkedCells == CountEmpty(b) - 1
      ensures playerR == r && playerC == c && moves == 0
    {
      originalBoard := b;
      initialR := r;
      initialC := c;
      board := b;
      countUnmarkedCells := CountEmpty(b);
      playerR := r;
      playerC := c;
      moves := 0;
      new;
      MarkAsVisited(r, c);
    }

    /** is_obstacle: off the board (whose width is that of the first row) or
        a wall. Marks never make a cell an obstacle: the answer depends on the
        walls of the original board alone. */
    function IsObstacleAt(r: int, c: int): (blocked: bool)
      reads this
      requires Consistent()
      ensures blocked <==> IsObstacle(originalBoard, Pos(r, c))
    {
      BoardShape();
      !(0 <= r < |board| && 0 <= c < |board[0]| && board[r][c] != Wall)
    }

    /** is_visited: the cell carries the visited mark. */
    function IsVisitedAt(r: int, c: int): (visited: bool)
      reads this
      requires Consistent() && InBounds(board, Pos(r, c))
      ensures visited <==> Pos(r, c) in VisitedCells(board)
      ensures visited ==> Pos(r, c) in Walkable(originalBoard)
    {
      assert Pos(r, c) in VisitedCells(board) ==> board[r][c] == Visited;
      board[r][c] == Visited
    }

    /** mark_as_visited: a visited cell or an obstacle is left alone; an
        unmarked cell is marked and the count goes down by one. */
    method MarkAsVisited(r: int, c: int)
      requires Consistent() && InBounds(board, Pos(r, c))
      modifies this`board, this`countUnmarkedCells
      ensures Consistent()
      ensures board == Mark(old(board), Pos(r, c))
      ensures !IsObstacle(originalBoard, Pos(r, c)) ==> board[r][c] == Visited
      ensures countUnmarkedCells == old(countUnmarkedCells) - (if old(board)[r][c] == Empty then 1 else 0)
    {
      if IsVisitedAt(r, c) || IsObstacleAt(r, c) {
        return;
      }
      CountAfterMark(board, Pos(r, c));
      MarkAllKeepsMarked(originalBoard, board, [Pos(r, c)]);
      assert MarkAll(board, [Pos(r, c)]) == Mark(board, Pos(r, c));
      board := board[r := board[r][c := Visited]];
      countUnmarkedCells := countUnmarkedCells - 1;
    }

    /** move_player: an unknown key or a first cell that is an obstacle
        changes nothing. Otherwise the move is counted once, and the player
        slides to the stop point, marking every cell passed; the result says
        whether no unmarked cell remains. */
    method MovePlayer(direction: string) returns (outcome: MoveOutcome)
      requires Valid()
      modifies this`board, this`countUnmarkedCells, this`playerR, this`playerC, this`moves
      ensures Valid()
      ensures outcome == Invalid <==> ParseDir(direction).None?
      ensures outcome == Blocked <==>
        ParseDir(direction).Some? && IsObstacle(originalBoard, Step(old(State()).pos, ParseDir(direction).value))
      ensures !outcome.Moved? ==>
        board == old(board) && countUnmarkedCells == old(countUnmarkedCells) &&
        playerR == old(playerR) && playerC == old(playerC) && moves == old(moves)
      ensures outcome.Moved? ==>
        var d := ParseDir(direction).value;
        moves == old(moves) + 1 &&
        Pos(playerR, playerC) == StopPoint(originalBoard, old(State()).pos, d) &&
        board == MarkAll(old(board), SlidePath(originalBoard, old(State()).pos, d)) &&
        Move(originalBoard, old(State()), d) == Some(State())
      ensures outcome.Moved? ==> (outcome.solved <==> countUnmarkedCells == 0)
      ensures outcome.Moved? ==> (outcome.solved <==> Goal(originalBoard, State()))
    {
      var parsed := ParseDir(direction);
      if parsed.None? {
        return Invalid;
      }
      var d := parsed.value;
      var from := Pos(playerR, playerC);
      var first := Step(from, d);
      if IsObstacleAt(first.r, first.c) {
        return Blocked;
      }
      moves := moves + 1;
      ghost var b0 := board;
      SlideFrom(from, d);
      MovedState(old(State()), b0, d);
      Coverage(originalBoard, board);
      return Moved(countUnmarkedCells == 0);
    }

    /** The loop of move_player: steps the player on while the next cell is
        free, marking each cell entered, and stops where the next cell is an
        obstacle. */
    method SlideFrom(from: Pos, d: Dir)
      requires Valid() && Pos(playerR, playerC) == from
      modifies this`board, this`countUnmarkedCells, this`playerR, this`playerC
      ensures Valid()
      ensures Pos(playerR, playerC) == StopPoint(originalBoard, from, d)
      ensures board == MarkAll(old(board), SlidePath(originalBoard, from, d))
    {
      ghost var path := SlidePath(originalBoard, from, d);
      ghost var k := 0;
      while true
        invariant Valid()
        invariant k <= |path| && Pos(playerR, playerC) == Offset(from, d, k)
        invariant board == MarkAll(old(board), path[..k])
        decreases |path| - k
      {
        var next := Step(Pos(playerR, playerC), d);
        StepFurther(from, d, k);
        if IsObstacleAt(next.r, next.c) {
          SlideEndsWhereBlocked(originalBoard, from, d, k);
          break;
        }
        SlideStep(next, from, d, k, old(board));
        k := k + 1;
      }
      assert path[..k] == path;
    }

    /** The body of the sliding loop once the next cell is known to be free:
        the player steps onto it, and one more cell of the slide is marked. */
    method SlideStep(next: Pos, ghost from: Pos, ghost d: Dir, ghost k: nat, ghost b0: Board)
      requires Valid() && Pos(playerR, playerC) == Offset(from, d, k) && next == Offset(from, d, k + 1)
      requires k <= |SlidePath(originalBoard, from, d)| && !IsObstacle(originalBoard, Offset(from, d, k + 1))
      requires board == MarkAll(b0, SlidePath(originalBoard, from, d)[..k])
      modifies this`board, this`countUnmarkedCells, this`playerR, this`playerC
      ensures Valid() && Pos(playerR, playerC) == Offset(from, d, k + 1)
      ensures k + 1 <= |SlidePath(originalBoard, from, d)|
      ensures board == MarkAll(b0, SlidePath(originalBoard, from, d)[..k + 1])
    {
      SlideCellFree(from, d, k);
      StepOnto(next);
      MarkAllSnoc(b0, SlidePath(originalBoard, from, d), k);
    }

    /** One step of the slide: the player moves onto a free cell and marks it. */
    method StepOnto(next: Pos)
      requires Consistent() && !IsObstacle(originalBoard, next)
      modifies this`board, this`countUnmarkedCells, this`playerR, this`playerC
      ensures Valid() && Pos(playerR, playerC) == next
      ensures board == Mark(old(board), next)
    {
      BoardShape();
      MarkAsVisited(next.r, next.c);
      playerR, playerC := next.r, next.c;
    }

    /** The next cell of a slide that is not blocked is its next path cell,
        and a cell of the live board. */
    lemma SlideCellFree(from: Pos, d: Dir, k: nat)
      requires Consistent()
      requires k <= |SlidePath(originalBoard, from, d)| && !IsObstacle(originalBoard, Offset(from, d, k + 1))
      ensures k < |SlidePath(originalBoard, from, d)|
      ensures SlidePath(originalBoard, from, d)[k] == Offset(from, d, k + 1)
      ensures InBounds(board, Offset(from, d, k + 1))
    {
    }

    /** After a slide from the old state, the game state is the move's result. */
    lemma MovedState(before: Search, b0: Board, d: Dir)
      requires Consistent() && MarkedFrom(originalBoard, b0)
      requires before == Search(before.pos, VisitedCells(b0)) && before.pos in Walkable(originalBoard)
      requires !IsObstacle(originalBoard, Step(before.pos, d))
      requires Pos(playerR, playerC) == StopPoint(originalBoard, before.pos, d)
      requires board == MarkAll(b0, SlidePath(originalBoard, before.pos, d))
      ensures Move(originalBoard, before, d) == Some(State())
    {
      var path := SlidePath(originalBoard, before.pos, d);
      SlideStaysWalkable(originalBoard, before.pos, d);
      VisitedAfterMarkAll(originalBoard, b0, path);
    }

    /** get_stop_point_in_direction: slides from (r, c) while the next cell is
        free; from a walkable cell it stops on a walkable cell in the same row
        or column whose next cell is an obstacle. */
    method GetStopPointInDirection(r: int, c: int, direction: string) returns (stop: Pos)
      requires Consistent() && ParseDir(direction).Some?
      ensures stop == StopPoint(originalBoard, Pos(r, c), ParseDir(direction).value)
      ensures Pos(r, c) in Walkable(originalBoard) ==>
        var d := ParseDir(direction).value;
        stop in Walkable(originalBoard) && IsObstacle(originalBoard, Step(stop, d)) &&
        (d == Up || d == Down ==> stop.c == c) && (d == Left || d == Right ==> stop.r == r)
    {
      var d := ParseDir(direction).value;
      stop := SlideTo(Pos(r, c), d);
      if Pos(r, c) in Walkable(originalBoard) {
        ObstacleIffNotWalkable(originalBoard, Pos(r, c));
        StopPointIsBlocked(originalBoard, Pos(r, c), d);
        ObstacleIffNotWalkable(originalBoard, stop);
      }
    }

    /** get_stop_points: the stop point in each direction, in the order of the
        direction table. */
    method GetStopPoints(r: int, c: int) returns (stops: seq<Pos>)
      requires Consistent()
      ensures |stops| == |Directions|
      ensures forall i :: 0 <= i < |stops| ==> stops[i] == StopPoint(originalBoard, Pos(r, c), Directions[i])
    {
      stops := [];
      for i := 0 to |Directions|
        invariant |stops| == i
        invariant forall j :: 0 <= j < i ==> stops[j] == StopPoint(originalBoard, Pos(r, c), Directions[j])
      {
        var stop := SlideTo(Pos(r, c), Directions[i]);
        stops := stops + [stop];
      }
    }

    /** The sliding loop both stop-point queries share: step while the next
        cell is not an obstacle. */
    method SlideTo(p: Pos, d: Dir) returns (stop: Pos)
      requires Consistent()
      ensures stop == StopPoint(originalBoard, p, d)
    {
      ghost var path := SlidePath(originalBoard, p, d);
      ghost var k := 0;
      stop := p;
      while true
        invariant 0 <= k <= |path| && stop == Offset(p, d, k)
        decreases |path| - k
      {
        var next := Step(stop, d);
        StepFurther(p, d, k);
        if IsObstacleAt(next.r, next.c) {
          SlideEndsWhereBlocked(originalBoard, p, d, k);
          break;
        }
        assert path[k] == next;
        stop := next;
        k := k + 1;
      }
    }

    /** get_list_unvisited_cells: the unmarked cells in row-major order; there
        are as many of them as the count of unmarked cells, and they are the
        walkable cells not yet visited. */
    method GetListUnvisitedCells() returns (cells: seq<Pos>)
      requires Consistent()
      ensures |cells| == countUnmarkedCells
      ensures forall p :: p in cells <==> p in Walkable(originalBoard) && p !in VisitedCells(board)
      ensures forall i, j :: 0 <= i < j < |cells| ==> Before(cells[i], cells[j])
    {
      BoardShape();
      cells := ListEmptyCells(board, {});
      SortedLength(cells);
      CountIsCardinality(board);
      assert Cells(cells) == EmptyCells(board);
      Coverage(originalBoard, board);
    }

    /** get_player_position: the player stands on a visited walkable cell. */
    function PlayerPosition(): (p: Pos)
      reads this
      requires Valid()
      ensures p in Walkable(originalBoard) && p in VisitedCells(board)
    {
      assert Pos(playerR, playerC) in VisitedCells(board);
      Pos(playerR, playerC)
    }

    /** is_solvable, as __init__ runs it: on the original board from the start. */
    method IsSolvableFromStart() returns (solvable: bool, unreachable: seq<Pos>)
      requires Consistent()
      ensures solvable <==>
        forall c :: c in Walkable(originalBoard) ==> Coverable(originalBoard, Pos(initialR, initialC), c)
      ensures forall c :: c in unreachable <==>
        c in Walkable(originalBoard) && !Coverable(originalBoard, Pos(initialR, initialC), c)
      ensures forall i, j :: 0 <= i < j < |unreachable| ==> Before(unreachable[i], unreachable[j])
    {
      assert Pos(initialR, initialC) in Walkable(originalBoard);
      solvable, unreachable := IsSolvable(originalBoard, Pos(initialR, initialC));
    }

    /** The solvability verdict is_solvable is meant to give: whether some
        sequence of moves from the start covers the original board. */
    method SolvableFromStart() returns (solvable: bool)
      requires Consistent()
      ensures solvable <==> exists ds :: Covering(originalBoard, Search(Pos(initialR, initialC), {Pos(initialR, initialC)}), ds)
    {
      assert Pos(initialR, initialC) in Walkable(originalBoard);
      solvable := SolvableExactly(originalBoard, Pos(initialR, initialC));
    }

    /** solve_puzzle: from the current position and the cells marked so far,
        the shortest sequence of moves that covers every walkable cell, or
        None when no sequence does. */
    method SolvePuzzle() returns (r: Option<seq<Dir>>)
      requires Valid()
      ensures r.Some? ==> Covering(originalBoard, State(), r.value)
      ensures r.Some? ==> forall ds :: |ds| < |r.value| ==> !Covering(originalBoard, State(), ds)
      ensures r.None? ==> forall ds :: !Covering(originalBoard, State(), ds)
      ensures VisitedCells(board) == Walkable(originalBoard) ==> r == Some([])
    {
      var allCells := EmptyCells(originalBoard);
      PristineEmptyIsWalkable(originalBoard);
      var g := BuildSlideGraph(originalBoard, allCells);
      var start := Pos(playerR, playerC);
      var visitedNow := VisitedCells(board);
      var initial := Search(start, visitedNow + {start});
      Coverage(originalBoard, board);
      assert start in visitedNow;
      assert initial == State();
      r := ShortestCover(originalBoard, g, allCells, initial);
      if VisitedCells(board) == Walkable(originalBoard) {
        assert Covering(originalBoard, State(), []);
      }
    }
  }
}
