# Slider puzzle, modelled in Dafny

A model of the `SliderPuzzle` class of `slider_puzzle.py`, with proofs about it.

The game is played on a rectangular board of empty cells (0) and walls (1).
- A player stands on one empty cell.
- A move slides the player in one direction (`w`, `s`, `a` or `d`) until the next cell is a wall or off the board.
- Every cell the player enters is marked visited (`'X'`). The cell the player starts on is marked as the game begins.
- The game is won when no empty cell is left.

The class also answers two questions about the board:
- `is_solvable` explores the stop points reachable from the start. It reports whether every empty cell lies on one of the slides it explored.
- `solve_puzzle` runs a breadth-first search over game states, a game state being a position plus a set of covered cells. It returns the shortest list of moves that covers the board from the current state, or `None`.

Modules:

- `Grid` (grid.dfy) covers the geometry: cells, positions, the direction table, the obstacle test, and the slide (`SlidePath`, `StopPoint`). It also holds the stepping loop of `is_solvable` and `solve_puzzle` (`TracePath`). The loops of `move_player` and of the stop-point queries are methods of the class (`SlideFrom`, `SlideTo`).
- `Marks` (marks.dfy) covers the bookkeeping on the live board: counting the empty cells, marking cells visited, and listing the unmarked cells in row-major order.
- `Play` (play.dfy) is the game as values. A `Search` holds the player's position and the set of covered cells. `Move` plays one slide and `Replay` plays a sequence of them. `Covering` says that a sequence of moves covers every walkable cell.
- `Reachability` (reachability.dfy) models `is_solvable`, a breadth-first search over stop points, and states exactly what it decides: `Coverable`.
- `Solver` (solver.dfy) models `solve_puzzle`. It builds the slide graph, then runs the breadth-first search over `Search` states. That search is proved sound, shortest, and complete.
- `Puzzle` (puzzle.dfy) is the class `SliderPuzzle`. Its fields mirror the object's: the original board, the start, the live board, the player, the move counter, and the count of unmarked cells. Its methods update them in place. Its invariant `Valid` says three things:
  - the live board is the original with some empty cells marked;
  - the count equals the number of unmarked cells;
  - the player stands on a visited cell.
- `SolvabilityGap` (solvability_gap.dfy) shows that `is_solvable` can answer "solvable" for a board that no sequence of moves covers (see Findings).

## Model

| member | source | states |
|---|---|---|
| Puzzle.SliderPuzzle.constructor | slider_puzzle.py:11-33 | The start must be an empty cell. The count starts as the number of empty cells, then the start cell is marked and counted off. The player is at the start and no moves have been made. |
| Puzzle.SliderPuzzle.IsObstacleAt | slider_puzzle.py:49-51 | Off the board or a wall, and nothing else. The answer depends only on the original board's walls, so visited marks never create obstacles. |
| Puzzle.SliderPuzzle.IsVisitedAt | slider_puzzle.py:53-55 | True exactly for cells in the visited set. Every visited cell is walkable on the original board. |
| Puzzle.SliderPuzzle.MarkAsVisited | slider_puzzle.py:57-62 | A visited cell or a wall is left alone. Otherwise the cell is marked and the count drops by exactly one. The count still equals the number of unmarked cells afterwards. |
| Puzzle.SliderPuzzle.MovePlayer | slider_puzzle.py:64-95 | An unknown key gives `Invalid` and a blocked first cell gives `Blocked`; neither changes any state. Otherwise the move counter goes up by one. The player ends at the stop point, and exactly the slide's cells are marked. The new state is `Move` of the old one. The result is true iff no unmarked cell remains, which is iff every walkable cell is covered. |
| Puzzle.SliderPuzzle.SlideFrom | slider_puzzle.py:81-91 | The slide loop leaves the player on the stop point. The board becomes the old board with the slide's cells marked, and the invariant holds. |
| Puzzle.SliderPuzzle.StepOnto | slider_puzzle.py:90-91 | One step of the loop: the next free cell is marked and the player stands on it. |
| Puzzle.SliderPuzzle.SlideStep | slider_puzzle.py:84-91 | One pass of the loop once the next cell is free: the player stands on it, and the board is the old one with one more cell of the slide marked. |
| Puzzle.SliderPuzzle.MovedState | slider_puzzle.py:80-95 | After a slide, the game state (position and visited cells) is exactly the result of `Move` on the state before it. |
| Puzzle.SliderPuzzle.GetStopPointInDirection | slider_puzzle.py:157-163 | Returns the stop point of the slide. From a walkable cell, the stop point is walkable, in the same row or column, and blocked beyond. |
| Puzzle.SliderPuzzle.GetStopPoints | slider_puzzle.py:97-105 | Four stop points, one per direction, in the order of the direction table. |
| Puzzle.SliderPuzzle.SlideTo | slider_puzzle.py:99-104 | The stepping loop stops at the slide's stop point. |
| Puzzle.SliderPuzzle.GetListUnvisitedCells | slider_puzzle.py:149-155 | Lists exactly the walkable cells not yet visited, in strictly increasing row-major order. There are as many as the count of unmarked cells. |
| Puzzle.SliderPuzzle.PlayerPosition | slider_puzzle.py:45-47 | The player's cell is walkable and visited. |
| Puzzle.SliderPuzzle.IsSolvableFromStart | slider_puzzle.py:31 | `is_solvable` as `__init__` runs it, on the original board from the start. True iff every walkable cell is `Coverable`. The unreachable list holds exactly the walkable cells that are not `Coverable`, in row-major order. |
| Puzzle.SliderPuzzle.SolvableFromStart | slider_puzzle.py:107-147 | The verdict `is_solvable` is meant to give: true iff some sequence of moves from the start covers the board. |
| Puzzle.SliderPuzzle.SolvePuzzle | slider_puzzle.py:165-226 | Any result is a covering sequence of moves from the current state, and no shorter sequence covers the board. `None` only when no sequence covers it. `Some([])` when every walkable cell is already visited. |
| Grid.ParseDir | slider_puzzle.py:29 | Exactly the four keys are known, and each names the direction whose key it is. |
| Grid.ObstacleIffNotWalkable | slider_puzzle.py:49-51 | A cell is an obstacle iff it is not walkable. |
| Grid.StopPointIsBlocked | slider_puzzle.py:157-163 | From a free cell, the stop point is free, blocked beyond, and in the same row (horizontal) or column (vertical). |
| Grid.SlideStaysWalkable | slider_puzzle.py:81-91 | A slide from a walkable cell passes through and stops on walkable cells only. |
| Grid.SlideUnique | slider_puzzle.py:83-88 | A run of free cells followed by an obstacle is the slide: the slide's length is determined. |
| Grid.SlideEndsWhereBlocked | slider_puzzle.py:86-88 | A partial slide whose next cell is an obstacle is the whole slide. |
| Grid.GeometryUnchanged | slider_puzzle.py:57-62 | Two boards with the same walls have the same walkable cells and the same slides, so marking never changes geometry. |
| Grid.TracePath | slider_puzzle.py:119-126 | The loop records exactly the slide's cells, in order, and stops at the stop point. |
| Marks.CountIsCardinality | slider_puzzle.py:24 | `sum(row.count(0))` is the number of empty cells. |
| Marks.CountAfterMark | slider_puzzle.py:57-62 | Marking an empty cell lowers the number of empty cells by exactly one. |
| Marks.EmptyAfterMark | slider_puzzle.py:61 | Marking an empty cell removes exactly that cell from the empty cells. |
| Marks.MarkAllEffect | slider_puzzle.py:81-91 | Marking a path marks exactly its empty cells and changes no other cell. |
| Marks.MarkAllKeepsMarked | slider_puzzle.py:57-62 | Marking keeps the live board a marked copy of the original. |
| Marks.Coverage | slider_puzzle.py:95 | The visited and the empty cells split the walkable cells between them. The count is zero iff every walkable cell is visited. |
| Marks.VisitedAfterMarkAll | slider_puzzle.py:81-91 | Marking walkable cells adds exactly those cells to the visited set. |
| Marks.ListEmptyCells | slider_puzzle.py:149-155 | Lists exactly the empty cells outside the skip set, in strictly increasing row-major order. |
| Marks.SortedLength | slider_puzzle.py:149-155 | A strictly ordered list has no repeats: its length is the number of cells in it. |
| Play.MoveStaysInside | slider_puzzle.py:216-217 | A move keeps the position and the covered cells walkable. It never uncovers a cell, and it covers the cell it stops on. |
| Play.ReplayMonotone | slider_puzzle.py:216-222 | Along any sequence of moves, coverage only grows and stays walkable. |
| Reachability.ExpandDir | slider_puzzle.py:118-137 | One direction from a dequeued stop queues the slide's stop point if it is new. It adds the slide's cells, every one of them coverable. |
| Reachability.ExpandStop | slider_puzzle.py:115-137 | After the four directions, every slide out of the stop has its stop point seen and its cells collected. |
| Reachability.ExploreNext | slider_puzzle.py:115-137 | One round keeps the search invariant. Either a new cell is seen or the queue shrinks, so the search terminates. |
| Reachability.ExploreStops | slider_puzzle.py:111-137 | The collected cells are exactly the `Coverable` cells: the start, and the cells on a slide out of a stop point reachable from the start. |
| Reachability.ClosedCollectsCoverable | slider_puzzle.py:115-137 | A set of stops closed under slides collects every coverable cell. |
| Reachability.CoverableIsWalkable | slider_puzzle.py:139 | Every coverable cell is walkable, so comparing counts is comparing sets. |
| Reachability.IsSolvable | slider_puzzle.py:107-147 | True iff every walkable cell is `Coverable`, iff the list of uncovered cells is empty. That list holds exactly the walkable, non-coverable cells, in row-major order. |
| Solver.EdgesAreMoves | slider_puzzle.py:176-190 | Every edge out of a cell is the unblocked slide in its own direction. |
| Solver.MovesAreEdges | slider_puzzle.py:176-190 | Every unblocked direction has its edge. |
| Solver.EdgesFromAreMoves | slider_puzzle.py:176-190 | The edges out of a cell are exactly the unblocked slides. |
| Solver.EdgeIsMove | slider_puzzle.py:216-217 | Following an edge from a state is playing its move. |
| Solver.BuildSlideGraph | slider_puzzle.py:172-190 | The graph has an entry for exactly the walkable cells with at least one unblocked slide. Each entry holds that cell's edges. |
| Solver.EdgesOf | slider_puzzle.py:177-190 | The edges out of one cell, in the order of the direction table. |
| Solver.EdgeOf | slider_puzzle.py:178-190 | No edge when the first cell is an obstacle. Otherwise the edge is the slide's end point, cells and direction. |
| Solver.LookupIsEdges | slider_puzzle.py:216 | `slide_graph.get(p, [])` is the list of edges out of a walkable cell. |
| Solver.Advance | slider_puzzle.py:207-222 | One dequeue and expansion keeps the layered breadth-first invariant. It either visits a new state or shrinks the queue. |
| Solver.ExpandEntry | slider_puzzle.py:216-222 | Every successor of the dequeued state is visited afterwards. Each unvisited one is queued with its path extended by one move. |
| Solver.FoundIsShortest | slider_puzzle.py:210-213 | The first goal state dequeued carries a covering path, and no shorter path covers. |
| Solver.ExhaustedHasNone | slider_puzzle.py:224-226 | When the queue runs empty, no sequence of moves covers the board. |
| Solver.NoShorterCover | slider_puzzle.py:207-213 | No sequence shorter than the current distance level covers the board. |
| Solver.ShortestCover | slider_puzzle.py:192-226 | A result is a covering sequence and is shortest. `None` only when none exists. |
| Solver.SolvableExactly | slider_puzzle.py:107-147 | The corrected solvability check: true iff some sequence of moves from the start covers the board. |
| SolvabilityGap.CoverIsCoverable | slider_puzzle.py:107-147 | If some sequence of moves covers the board, every walkable cell is `Coverable`, so a "not solvable" answer is always right. |
| SolvabilityGap.ReplayCoverable | slider_puzzle.py:115-137 | Along any replay from the start, the player is at the reached stop point and every covered cell is coverable. |
| SolvabilityGap.PlusPassesCheck | slider_puzzle.py:139-147 | On the plus-shaped board from its centre, every walkable cell is `Coverable`. |
| SolvabilityGap.PlusHasNoCover | slider_puzzle.py:107-147 | On the same board, no sequence of moves covers every walkable cell. |
| SolvabilityGap.CheckOverclaims | slider_puzzle.py:107-147 | The plus-shaped board is a valid board on which `IsSolvable` answers true, while no covering sequence of moves exists. |

## Left out

- Printing is not modelled. This covers `print_board`, the messages of `move_player`, `is_solvable` and `solve_puzzle`, and the verdict `__init__` prints on line 31.
- `main` and the interactive input loop are not modelled; they are I/O.
- Puzzle.SliderPuzzle.constructor: the exception for a start cell that is not empty is modelled as a precondition, not as a raised error.
- Puzzle.SliderPuzzle.constructor: the start must be on the board. With a negative start the test on line 20 reads a cell through Python's wrap-around and may accept it, so the player can start off the board. `is_solvable` then counts the off-board start as a covered cell (line 113), so its count test on line 139 can go either way, and a move toward the board can slide onto it. The model excludes such a start.
- Boards are rectangular and hold only 0 and 1 when a game starts (`Rectangular`, `Pristine`). Other cell values are not modelled.
- Negative indices are treated as off the board, as the obstacle test does. Python's wrap-around for negative list indices is not modelled. It is reachable through the start test of `__init__` (line 20, see the constructor line above), and through `is_visited` and `mark_as_visited` called directly with negative arguments.
- The `deepcopy` in `__init__` and the aliasing of the caller's list with `self.board` are not modelled. The original board is an immutable value, and the caller's list cannot be changed behind the object's back.
- The `_stop_points_mapping` and `_stop_points` caches that `is_solvable` fills are not modelled. Nothing in the class reads them.
- Directions are the datatype `Dir`, and `KeyOf`/`ParseDir` connect them to the keys `w`, `s`, `a` and `d`.
- Puzzle.SliderPuzzle.MovePlayer: returns a `MoveOutcome` where the source returns `None` or a bool. `Invalid` (line 70) and `Blocked` (line 78) both stand for `None`, and `Moved(s)` stands for the bool `s` of line 95.
- Puzzle.SliderPuzzle.SolvePuzzle: returns a sequence of `Dir` where the source returns the keys; the keys are `KeyOf` of each entry.
- Puzzle.SliderPuzzle.GetStopPointInDirection: requires a known key. The source raises `KeyError` for an unknown one, and that error is not modelled.
- `is_solvable` is modelled on the original board from the initial position. That is the board `__init__` passes it, since it runs before the start is marked. Calls on a later board are not modelled.
- The slide graph stores entries only for cells with at least one edge. `Lookup` gives the empty list for the others, as `slide_graph.get(p, [])` does.
- The `if path_segment:` test in the graph builder is always true, because the first cell is known to be free. The model drops the test.
- `solve_puzzle` computes the walkable cells twice, on lines 174 and 193. The model computes them once.

## Findings

| source | as written | input that shows it | evidently intended | confidence | as-written member | corrected member |
|---|---|---|---|---|---|---|
| slider_puzzle.py:107-147 | `is_solvable` answers true when every empty cell lies on some slide out of some stop point reachable from the start. It never checks that one sequence of moves passes through all of those slides. | board `[[1,0,1],[0,0,0],[1,0,1]]`, start (1, 1): every arm is one slide from the centre, yet after the first slide the player only shuttles along one bar | true iff some sequence of moves from the start covers every empty cell | not executed; proved in Dafny | SolvabilityGap.CheckOverclaims | Solver.SolvableExactly |
