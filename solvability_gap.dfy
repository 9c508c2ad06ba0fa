/** What the solvability check of the initial board decides, compared with
    what it is meant to decide: whether some sequence of moves from the start
    covers every walkable cell. */
module SolvabilityGap {
  import opened Grid
  import opened Play
  import opened Reachability

  /** The check is necessary: when some sequence of moves covers the board,
      every walkable cell lies on a slide out of a stop point reachable from
      the start, so a "not solvable" verdict is always right. */
  lemma CoverIsCoverable(b: Board, start: Pos, ds: seq<Dir>)
    requires Covering(b, Search(start, {start}), ds)
    ensures forall c :: c in Walkable(b) ==> Coverable(b, start, c)
  {
    ReplayCoverable(b, start, ds);
  }

  /** Along a replay from the start, the player stands on the stop point the
      moves lead to, and every covered cell is coverable. */
  lemma {:induction false} ReplayCoverable(b: Board, start: Pos, ds: seq<Dir>)
    requires Replay(b, Search(start, {start}), ds).Some?
    ensures Replay(b, Search(start, {start}), ds).value.pos == Follow(b, start, ds)
    ensures forall c :: c in Replay(b, Search(start, {start}), ds).value.covered ==> Coverable(b, start, c)
  {
    if ds != [] {
      ReplayCoverable(b, start, ds[..|ds| - 1]);
      MoveCoverable(b, start, ds, Replay(b, Search(start, {start}), ds[..|ds| - 1]).value);
    }
  }

  /** The last move of ds keeps the player on the stop point ds leads to and
      covers only coverable cells. */
  lemma MoveCoverable(b: Board, start: Pos, ds: seq<Dir>, mid: Search)
    requires ds != [] && mid.pos == Follow(b, start, ds[..|ds| - 1])
    requires forall c :: c in mid.covered ==> Coverable(b, start, c)
    requires Move(b, mid, ds[|ds| - 1]).Some?
    ensures Move(b, mid, ds[|ds| - 1]).value.pos == Follow(b, start, ds)
    ensures forall c :: c in Move(b, mid, ds[|ds| - 1]).value.covered ==> Coverable(b, start, c)
  {
    var d := ds[|ds| - 1];
    forall c | c in Cells(SlidePath(b, mid.pos, d)) ensures Coverable(b, start, c) {
      assert c in SlidePath(b, Follow(b, start, ds[..|ds| - 1]), d);
    }
  }

  /** A plus-shaped board: a centre cell with one walkable arm in each direction. */
  const Plus: Board := [[Wall, Empty, Wall], [Empty, Empty, Empty], [Wall, Empty, Wall]]

  const Centre: Pos := Pos(1, 1)

  /** The upright bar and the crossbar of the plus. */
  const Column: set<Pos> := {Pos(0, 1), Pos(1, 1), Pos(2, 1)}
  const Row: set<Pos> := {Pos(1, 0), Pos(1, 1), Pos(1, 2)}

  lemma PlusShape()
    ensures Rectangular(Plus) && Pristine(Plus)
  {
    assert forall r :: 0 <= r < |Plus| ==> Plus[r] == [Wall, Empty, Wall] || Plus[r] == [Empty, Empty, Empty];
  }

  lemma PlusWalkable()
    ensures Walkable(Plus) == Column + Row
  {
    forall p | p in Walkable(Plus) ensures p in Column + Row {
      assert Plus[p.r][p.c] != Wall;
    }
    assert Plus[0][1] != Wall && Plus[2][1] != Wall && Plus[1][0] != Wall && Plus[1][1] != Wall && Plus[1][2] != Wall;
    assert Pos(0, 1) == Pos(0, 1);
  }

  /** The slides out of the centre: one cell to the end of each arm. */
  lemma CentreSlides(d: Dir)
    ensures SlidePath(Plus, Centre, d) == [Offset(Centre, d, 1)]
  {
    match d
    case Up =>
      assert !IsObstacle(Plus, Pos(0, 1)) && IsObstacle(Plus, Pos(-1, 1));
      SlideUnique(Plus, Centre, d, 1);
    case Down =>
      assert !IsObstacle(Plus, Pos(2, 1)) && IsObstacle(Plus, Pos(3, 1));
      SlideUnique(Plus, Centre, d, 1);
    case Left =>
      assert !IsObstacle(Plus, Pos(1, 0)) && IsObstacle(Plus, Pos(1, -1));
      SlideUnique(Plus, Centre, d, 1);
    case Right =>
      assert !IsObstacle(Plus, Pos(1, 2)) && IsObstacle(Plus, Pos(1, 3));
      SlideUnique(Plus, Centre, d, 1);
  }

  /** From the end of an arm the only move that is not blocked is the one
      back across the centre. */
  lemma ArmDirection(p: Pos, d: Dir)
    requires p in {Pos(0, 1), Pos(2, 1), Pos(1, 0), Pos(1, 2)}
    requires !IsObstacle(Plus, Step(p, d))
    ensures d == Opposite(p)
  {
  }

  lemma TopArm()
    ensures SlidePath(Plus, Pos(0, 1), Down) == [Centre, Pos(2, 1)]
  {
    assert !IsObstacle(Plus, Centre) && !IsObstacle(Plus, Pos(2, 1)) && IsObstacle(Plus, Pos(3, 1));
    SlideUnique(Plus, Pos(0, 1), Down, 2);
  }

  lemma BottomArm()
    ensures SlidePath(Plus, Pos(2, 1), Up) == [Centre, Pos(0, 1)]
  {
    assert !IsObstacle(Plus, Centre) && !IsObstacle(Plus, Pos(0, 1)) && IsObstacle(Plus, Pos(-1, 1));
    SlideUnique(Plus, Pos(2, 1), Up, 2);
  }

  lemma LeftArm()
    ensures SlidePath(Plus, Pos(1, 0), Right) == [Centre, Pos(1, 2)]
  {
    assert !IsObstacle(Plus, Centre) && !IsObstacle(Plus, Pos(1, 2)) && IsObstacle(Plus, Pos(1, 3));
    SlideUnique(Plus, Pos(1, 0), Right, 2);
  }

  lemma RightArm()
    ensures SlidePath(Plus, Pos(1, 2), Left) == [Centre, Pos(1, 0)]
  {
    assert !IsObstacle(Plus, Centre) && !IsObstacle(Plus, Pos(1, 0)) && IsObstacle(Plus, Pos(1, -1));
    SlideUnique(Plus, Pos(1, 2), Left, 2);
  }

  /** The direction from the end of an arm back across the centre. */
  function Opposite(p: Pos): Dir {
    if p == Pos(0, 1) then Down else if p == Pos(2, 1) then Up else if p == Pos(1, 0) then Right else Left
  }

  lemma CellsOfPair(p: Pos, q: Pos)
    ensures Cells([p, q]) == {p, q} && Cells([p]) == {p}
  {
    assert forall c :: c in [p, q] <==> c == p || c == q;
  }

  /** Where a game on the plus started at the centre can be: at the start, or
      at the end of an arm with only cells of that arm's bar covered. */
  predicate OnOneBar(st: Search) {
    st == Search(Centre, {Centre}) ||
    (st.pos in {Pos(0, 1), Pos(2, 1)} && st.covered <= Column) ||
    (st.pos in {Pos(1, 0), Pos(1, 2)} && st.covered <= Row)
  }

  lemma MoveStaysOnOneBar(st: Search, d: Dir)
    requires OnOneBar(st) && Move(Plus, st, d).Some?
    ensures OnOneBar(Move(Plus, st, d).value)
  {
    if st.pos == Centre {
      FirstMove(d);
    } else {
      ArmMove(st, d);
    }
  }

  /** The first slide goes from the centre to the end of one arm. */
  lemma FirstMove(d: Dir)
    ensures Move(Plus, Search(Centre, {Centre}), d).Some?
    ensures OnOneBar(Move(Plus, Search(Centre, {Centre}), d).value)
  {
    CentreSlides(d);
    var far := Offset(Centre, d, 1);
    CellsOfPair(far, far);
    assert Move(Plus, Search(Centre, {Centre}), d).value == Search(far, {Centre, far});
    match d
    case Up => assert far == Pos(0, 1);
    case Down => assert far == Pos(2, 1);
    case Left => assert far == Pos(1, 0);
    case Right => assert far == Pos(1, 2);
  }

  /** Every later slide crosses the centre to the other end of the same bar. */
  lemma ArmMove(st: Search, d: Dir)
    requires OnOneBar(st) && st.pos != Centre && Move(Plus, st, d).Some?
    ensures OnOneBar(Move(Plus, st, d).value)
  {
    var covered := st.covered;
    if st.pos == Pos(0, 1) {
      assert st == Search(Pos(0, 1), covered);
      TopMove(covered, d);
    } else if st.pos == Pos(2, 1) {
      assert st == Search(Pos(2, 1), covered);
      BottomMove(covered, d);
    } else if st.pos == Pos(1, 0) {
      assert st == Search(Pos(1, 0), covered);
      LeftMove(covered, d);
    } else {
      assert st == Search(Pos(1, 2), covered);
      RightMove(covered, d);
    }
  }

  /** From the end of each arm, the one free slide crosses the centre to the
      end of the opposite arm. */
  lemma TopMove(covered: set<Pos>, d: Dir)
    requires Move(Plus, Search(Pos(0, 1), covered), d).Some?
    ensures Move(Plus, Search(Pos(0, 1), covered), d) == Some(Search(Pos(2, 1), covered + {Centre, Pos(2, 1)}))
  {
    ArmDirection(Pos(0, 1), d);
    assert d == Down;
    TopArm();
    CellsOfPair(Centre, Pos(2, 1));
  }

  lemma BottomMove(covered: set<Pos>, d: Dir)
    requires Move(Plus, Search(Pos(2, 1), covered), d).Some?
    ensures Move(Plus, Search(Pos(2, 1), covered), d) == Some(Search(Pos(0, 1), covered + {Centre, Pos(0, 1)}))
  {
    ArmDirection(Pos(2, 1), d);
    assert d == Up;
    BottomArm();
    CellsOfPair(Centre, Pos(0, 1));
  }

  lemma LeftMove(covered: set<Pos>, d: Dir)
    requires Move(Plus, Search(Pos(1, 0), covered), d).Some?
    ensures Move(Plus, Search(Pos(1, 0), covered), d) == Some(Search(Pos(1, 2), covered + {Centre, Pos(1, 2)}))
  {
    ArmDirection(Pos(1, 0), d);
    assert d == Right;
    LeftArm();
    CellsOfPair(Centre, Pos(1, 2));
  }

  lemma RightMove(covered: set<Pos>, d: Dir)
    requires Move(Plus, Search(Pos(1, 2), covered), d).Some?
    ensures Move(Plus, Search(Pos(1, 2), covered), d) == Some(Search(Pos(1, 0), covered + {Centre, Pos(1, 0)}))
  {
    ArmDirection(Pos(1, 2), d);
    assert d == Left;
    RightArm();
    CellsOfPair(Centre, Pos(1, 0));
  }

  lemma {:induction false} ReplayStaysOnOneBar(ds: seq<Dir>)
    requires Replay(Plus, Search(Centre, {Centre}), ds).Some?
    ensures OnOneBar(Replay(Plus, Search(Centre, {Centre}), ds).value)
  {
    if ds != [] {
      var init := ds[..|ds| - 1];
      ReplayStaysOnOneBar(init);
      MoveStaysOnOneBar(Replay(Plus, Search(Centre, {Centre}), init).value, ds[|ds| - 1]);
    }
  }

  /** The check of is_solvable passes on the plus from its centre: every arm
      is one slide out of the start. */
  lemma PlusPassesCheck()
    ensures forall c :: c in Walkable(Plus) ==> Coverable(Plus, Centre, c)
  {
    PlusWalkable();
    forall c | c in Column + Row ensures Coverable(Plus, Centre, c) {
      if c == Pos(0, 1) {
        CentreCoverable(Up);
      } else if c == Pos(2, 1) {
        CentreCoverable(Down);
      } else if c == Pos(1, 0) {
        CentreCoverable(Left);
      } else if c == Pos(1, 2) {
        CentreCoverable(Right);
      }
    }
  }

  /** The end of each arm lies on the slide from the centre towards it. */
  lemma CentreCoverable(d: Dir)
    ensures Coverable(Plus, Centre, Offset(Centre, d, 1))
  {
    CentreSlides(d);
    assert Offset(Centre, d, 1) in SlidePath(Plus, Follow(Plus, Centre, []), d);
  }

  /** ...yet no sequence of moves covers the plus: after the first slide the
      player only shuttles along one bar and never reaches the other. */
  lemma PlusHasNoCover()
    ensures forall ds :: !Covering(Plus, Search(Centre, {Centre}), ds)
  {
    PlusWalkable();
    forall ds | Replay(Plus, Search(Centre, {Centre}), ds).Some?
      ensures !Goal(Plus, Replay(Plus, Search(Centre, {Centre}), ds).value)
    {
      ReplayStaysOnOneBar(ds);
      assert Pos(1, 0) !in Column && Pos(0, 1) !in Row;
    }
  }

  /** The check of is_solvable is not sufficient: on the plus it holds for
      every walkable cell, so IsSolvable answers true, while no sequence of
      moves covers the board. */
  lemma CheckOverclaims()
    ensures Rectangular(Plus) && Pristine(Plus) && Centre in Walkable(Plus)
    ensures forall c :: c in Walkable(Plus) ==> Coverable(Plus, Centre, c)
    ensures forall ds :: !Covering(Plus, Search(Centre, {Centre}), ds)
  {
    PlusShape();
    PlusWalkable();
    PlusPassesCheck();
    PlusHasNoCover();
  }
}
