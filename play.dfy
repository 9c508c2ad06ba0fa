/** The game as a sequence of slides over values: the position of the player
    and the set of covered cells, with no board mutated. The solver searches
    these states; the live game is shown to follow them. */
module Play {
  import opened Grid

  /** A game state: where the player stands and which cells are covered. */
  datatype Search = Search(pos: Pos, covered: set<Pos>)

  /** One move: blocked when the cell next to the player is an obstacle;
      otherwise the player slides to the stop point, covering every cell passed. */
  function Move(b: Board, st: Search, d: Dir): Option<Search> {
    if IsObstacle(b, Step(st.pos, d)) then None
    else Some(Search(StopPoint(b, st.pos, d), st.covered + Cells(SlidePath(b, st.pos, d))))
  }

  /** Plays the moves of ds in order; None as soon as one of them is blocked. */
  function Replay(b: Board, st: Search, ds: seq<Dir>): Option<Search> {
    if ds == [] then Some(st)
    else match Replay(b, st, ds[..|ds| - 1])
      case None => None
      case Some(mid) => Move(b, mid, ds[|ds| - 1])
  }

  /** Every walkable cell is covered, and nothing else. */
  predicate Goal(b: Board, st: Search) {
    st.covered == Walkable(b)
  }

  /** ds can be played from st without a blocked move and leaves every walkable cell covered. */
  predicate Covering(b: Board, st: Search, ds: seq<Dir>) {
    Replay(b, st, ds).Some? && Goal(b, Replay(b, st, ds).value)
  }

  /** Inside the walkable cells. */
  predicate Inside(b: Board, st: Search) {
    st.pos in Walkable(b) && st.covered <= Walkable(b)
  }

  /** A move keeps the player and the covered cells on walkable cells, and
      covers at least what was covered before and the cell it stops on. */
  lemma MoveStaysInside(b: Board, st: Search, d: Dir)
    requires Inside(b, st) && Move(b, st, d).Some?
    ensures Inside(b, Move(b, st, d).value)
    ensures st.covered <= Move(b, st, d).value.covered
    ensures Move(b, st, d).value.pos in Move(b, st, d).value.covered
  {
    SlideStaysWalkable(b, st.pos, d);
    var path := SlidePath(b, st.pos, d);
    ObstacleIffNotWalkable(b, Step(st.pos, d));
    assert path != [];
    assert path[|path| - 1] == StopPoint(b, st.pos, d);
  }

  lemma ReplayAppend(b: Board, st: Search, ds: seq<Dir>, d: Dir)
    ensures Replay(b, st, ds + [d]) ==
      if Replay(b, st, ds).None? then None else Move(b, Replay(b, st, ds).value, d)
  {
    assert (ds + [d])[..|ds|] == ds;
  }

  /** Coverage never shrinks along a replay, and it stays inside the walkable cells. */
  lemma {:induction false} ReplayMonotone(b: Board, st: Search, ds: seq<Dir>)
    requires Inside(b, st) && Replay(b, st, ds).Some?
    ensures Inside(b, Replay(b, st, ds).value)
    ensures st.covered <= Replay(b, st, ds).value.covered
  {
    if ds != [] {
      var init := ds[..|ds| - 1];
      ReplayMonotone(b, st, init);
      MoveStaysInside(b, Replay(b, st, init).value, ds[|ds| - 1]);
    }
  }
}
