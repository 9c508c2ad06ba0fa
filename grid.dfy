/** Geometry of the slider puzzle: cells, positions, the four directions, the
    obstacle test and the slide that carries the player until it is blocked. */
module Grid {

  datatype Option<+T> = None | Some(value: T)

  /** A board cell: 0 (Empty), 1 (Wall) or the visited mark 'X' (Visited). */
  datatype Cell = Empty | Wall | Visited

  /** Rows of cells; the board the game is built from holds no Visited cell. */
  type Board = seq<seq<Cell>>

  datatype Pos = Pos(r: int, c: int)

  /** The four moves, in the order of the direction table: w, s, a, d. */
  datatype Dir = Up | Down | Left | Right

  const Directions: seq<Dir> := [Up, Down, Left, Right]

  /** Where d stands in the direction table. */
  function DirIndex(d: Dir): (i: nat)
    ensures i < |Directions| && Directions[i] == d
  {
    match d
    case Up => 0
    case Down => 1
    case Left => 2
    case Right => 3
  }

  /** The key that names a direction. */
  function KeyOf(d: Dir): string {
    match d
    case Up => "w"
    case Down => "s"
    case Left => "a"
    case Right => "d"
  }

  /** Looks a key up in the direction table: exactly the four keys are known,
      and each one names the direction whose key it is. */
  function ParseDir(key: string): (r: Option<Dir>)
    ensures r.Some? ==> KeyOf(r.value) == key
    ensures forall d :: KeyOf(d) == key ==> r == Some(d)
  {
    if key == "w" then Some(Up)
    else if key == "s" then Some(Down)
    else if key == "a" then Some(Left)
    else if key == "d" then Some(Right)
    else None
  }

  predicate Rectangular(b: Board) {
    |b| >= 1 && forall r :: 0 <= r < |b| ==> |b[r]| == |b[0]|
  }

  /** No cell of the board carries the visited mark. */
  predicate Pristine(b: Board) {
    forall r, c :: 0 <= r < |b| && 0 <= c < |b[r]| ==> b[r][c] != Visited
  }

  predicate InBounds(b: Board, p: Pos) {
    0 <= p.r < |b| && 0 <= p.c < |b[p.r]|
  }

  /** The cells a player may stand on: every cell on the board that is not a wall. */
  function Walkable(b: Board): set<Pos> {
    set r, c | 0 <= r < |b| && 0 <= c < |b[r]| && b[r][c] != Wall :: Pos(r, c)
  }

  /** Off the board, or a wall; a visited cell is not an obstacle. */
  predicate IsObstacle(b: Board, p: Pos) {
    !(InBounds(b, p) && b[p.r][p.c] != Wall)
  }

  /** The cells of the first n rows of the board. */
  function Area(b: Board, n: nat): (area: set<Pos>)
    requires n <= |b|
    ensures forall p: Pos :: 0 <= p.r < n && 0 <= p.c < |b[p.r]| ==> p in area
  {
    if n == 0 then {} else Area(b, n - 1) + RowArea(b, n - 1, |b[n - 1]|)
  }

  /** The cells of row r among its first n columns. */
  function RowArea(b: Board, r: nat, n: nat): (area: set<Pos>)
    ensures forall c :: 0 <= c < n ==> Pos(r, c) in area
  {
    if n == 0 then {} else RowArea(b, r, n - 1) + {Pos(r, n - 1)}
  }

  /** The obstacles are exactly the cells outside the walkable set. */
  lemma ObstacleIffNotWalkable(b: Board, p: Pos)
    ensures IsObstacle(b, p) <==> p !in Walkable(b)
  {
    if !IsObstacle(b, p) {
      assert p == Pos(p.r, p.c);
    }
  }

  /** The cells of a path, as a set. */
  function Cells(path: seq<Pos>): set<Pos> {
    set p | p in path
  }

  /** The cell k steps from p in direction d. */
  function Offset(p: Pos, d: Dir, k: int): Pos {
    match d
    case Up => Pos(p.r - k, p.c)
    case Down => Pos(p.r + k, p.c)
    case Left => Pos(p.r, p.c - k)
    case Right => Pos(p.r, p.c + k)
  }

  function Step(p: Pos, d: Dir): Pos {
    Offset(p, d, 1)
  }

  /** One more step beyond the cell k steps away is k + 1 steps away. */
  lemma StepFurther(p: Pos, d: Dir, k: int)
    ensures Step(Offset(p, d, k), d) == Offset(p, d, k + 1)
  {
  }

  /** How many cells lie between p and the edge of the board in direction d. */
  function Room(b: Board, p: Pos, d: Dir): nat {
    match d
    case Up => if p.r > 0 then p.r else 0
    case Down => if p.r < |b| then |b| - p.r else 0
    case Left => if p.c > 0 then p.c else 0
    case Right => if 0 <= p.r < |b| && p.c < |b[p.r]| then |b[p.r]| - p.c else 0
  }

  /** The cells a slide from p in direction d passes through, in order, the
      cell where it stops included: the longest run of walkable cells next to p. */
  function SlidePath(b: Board, p: Pos, d: Dir): (path: seq<Pos>)
    ensures forall i :: 0 <= i < |path| ==> path[i] == Offset(p, d, i + 1) && !IsObstacle(b, path[i])
    ensures IsObstacle(b, Offset(p, d, |path| + 1))
    decreases Room(b, p, d)
  {
    var q := Step(p, d);
    if IsObstacle(b, q) then []
    else
      ShiftedOffsets(p, d);
      [q] + SlidePath(b, q, d)
  }

  /** The cells beyond the next one are the cells beyond p, one further on. */
  lemma ShiftedOffsets(p: Pos, d: Dir)
    ensures forall i :: Offset(Step(p, d), d, i) == Offset(p, d, i + 1)
  {
  }

  /** The cell where a slide from p in direction d stops. */
  function StopPoint(b: Board, p: Pos, d: Dir): Pos {
    Offset(p, d, |SlidePath(b, p, d)|)
  }

  /** The stop point stays in the row or column of p, is walkable when p is,
      and the next cell beyond it is an obstacle. */
  lemma StopPointIsBlocked(b: Board, p: Pos, d: Dir)
    requires !IsObstacle(b, p)
    ensures var s := StopPoint(b, p, d);
      !IsObstacle(b, s) && IsObstacle(b, Step(s, d)) &&
      (d == Up || d == Down ==> s.c == p.c) && (d == Left || d == Right ==> s.r == p.r)
  {
    var path := SlidePath(b, p, d);
    if path != [] {
      assert path[|path| - 1] == StopPoint(b, p, d);
    }
  }

  /** A slide from a walkable cell passes only through walkable cells and stops on one. */
  lemma SlideStaysWalkable(b: Board, p: Pos, d: Dir)
    requires p in Walkable(b)
    ensures forall q :: q in SlidePath(b, p, d) ==> q in Walkable(b)
    ensures StopPoint(b, p, d) in Walkable(b)
  {
    ObstacleIffNotWalkable(b, p);
    StopPointIsBlocked(b, p, d);
    ObstacleIffNotWalkable(b, StopPoint(b, p, d));
    forall q | q in SlidePath(b, p, d) ensures q in Walkable(b) {
      ObstacleIffNotWalkable(b, q);
    }
  }

  /** A run of k walkable cells followed by an obstacle is the slide:
      the slide is the only such run. */
  lemma {:induction false} SlideUnique(b: Board, p: Pos, d: Dir, k: nat)
    requires forall i :: 1 <= i <= k ==> !IsObstacle(b, Offset(p, d, i))
    requires IsObstacle(b, Offset(p, d, k + 1))
    ensures |SlidePath(b, p, d)| == k
    decreases k
  {
    if k > 0 {
      var q := Step(p, d);
      assert !IsObstacle(b, Offset(p, d, 1));
      forall i | 1 <= i <= k - 1 ensures !IsObstacle(b, Offset(q, d, i)) {
        assert Offset(q, d, i) == Offset(p, d, i + 1);
      }
      assert Offset(q, d, k) == Offset(p, d, k + 1);
      SlideUnique(b, q, d, k - 1);
    }
  }

  /** Two boards with the same shape and the same walls. */
  predicate SameWalls(b: Board, b': Board) {
    |b| == |b'| &&
    (forall r :: 0 <= r < |b| ==> |b[r]| == |b'[r]|) &&
    (forall r, c :: 0 <= r < |b| && 0 <= c < |b[r]| ==> (b[r][c] == Wall <==> b'[r][c] == Wall))
  }

  /** Visited marks do not change the geometry: boards with the same walls
      have the same obstacles and the same slides. */
  lemma {:induction false} GeometryUnchanged(b: Board, b': Board, p: Pos, d: Dir)
    requires SameWalls(b, b')
    ensures Walkable(b) == Walkable(b')
    ensures SlidePath(b, p, d) == SlidePath(b', p, d)
    decreases Room(b, p, d)
  {
    assert forall q :: IsObstacle(b, q) == IsObstacle(b', q);
    forall q | q in Walkable(b) ensures q in Walkable(b') {
      ObstacleIffNotWalkable(b, q);
      ObstacleIffNotWalkable(b', q);
    }
    forall q | q in Walkable(b') ensures q in Walkable(b) {
      ObstacleIffNotWalkable(b, q);
      ObstacleIffNotWalkable(b', q);
    }
    var q := Step(p, d);
    if !IsObstacle(b, q) {
      GeometryUnchanged(b, b', q, d);
    }
  }

  /** A slide followed for k of its cells, whose next cell is an obstacle,
      has ended: k is its length. */
  lemma SlideEndsWhereBlocked(b: Board, p: Pos, d: Dir, k: nat)
    requires k <= |SlidePath(b, p, d)| && IsObstacle(b, Offset(p, d, k + 1))
    ensures k == |SlidePath(b, p, d)|
  {
    var full := SlidePath(b, p, d);
    forall i | 1 <= i <= k ensures !IsObstacle(b, Offset(p, d, i)) {
      assert full[i - 1] == Offset(p, d, i);
    }
    SlideUnique(b, p, d, k);
  }

  /** Steps from p in direction d until the next cell is an obstacle,
      recording every cell entered. */
  method TracePath(b: Board, p: Pos, d: Dir) returns (path: seq<Pos>, stop: Pos)
    ensures path == SlidePath(b, p, d) && stop == StopPoint(b, p, d)
  {
    ghost var full := SlidePath(b, p, d);
    path, stop := [], p;
    while true
      invariant |path| <= |full| && path == full[..|path|]
      invariant stop == Offset(p, d, |path|)
      decreases |full| - |path|
    {
      var next := Step(stop, d);
      StepFurther(p, d, |path|);
      if IsObstacle(b, next) {
        SlideEndsWhereBlocked(b, p, d, |path|);
        break;
      }
      stop := next;
      path := path + [next];
    }
  }
}
