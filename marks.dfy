/** Bookkeeping on the live board: counting the cells still unmarked, marking
    cells visited, and listing the unmarked cells. */
module Marks {
  import opened Grid

  /** row.count(0): the Empty cells of one row. */
  function CountRow(row: seq<Cell>): nat {
    if row == [] then 0
    else CountRow(row[..|row| - 1]) + (if row[|row| - 1] == Empty then 1 else 0)
  }

  /** sum(row.count(0) for row in board): the Empty cells of the whole board. */
  function CountEmpty(b: Board): nat {
    if b == [] then 0 else CountEmpty(b[..|b| - 1]) + CountRow(b[|b| - 1])
  }

  function EmptyCells(b: Board): set<Pos> {
    set r, c | 0 <= r < |b| && 0 <= c < |b[r]| && b[r][c] == Empty :: Pos(r, c)
  }

  function VisitedCells(b: Board): set<Pos> {
    set r, c | 0 <= r < |b| && 0 <= c < |b[r]| && b[r][c] == Visited :: Pos(r, c)
  }

  /** The Empty cells of row r among its first n columns. */
  function RowCells(b: Board, r: nat, n: nat): set<Pos>
    requires r < |b| && n <= |b[r]|
  {
    set c | 0 <= c < n && b[r][c] == Empty :: Pos(r, c)
  }

  /** The Empty cells of the first n rows. */
  function RowsCells(b: Board, n: nat): set<Pos>
    requires n <= |b|
  {
    set r, c | 0 <= r < n && 0 <= c < |b[r]| && b[r][c] == Empty :: Pos(r, c)
  }

  lemma {:induction false} RowCount(b: Board, r: nat, n: nat)
    requires r < |b| && n <= |b[r]|
    ensures |RowCells(b, r, n)| == CountRow(b[r][..n])
  {
    if n > 0 {
      RowCount(b, r, n - 1);
      assert b[r][..n][..n - 1] == b[r][..n - 1];
      if b[r][n - 1] == Empty {
        assert RowCells(b, r, n) == RowCells(b, r, n - 1) + {Pos(r, n - 1)};
      } else {
        assert RowCells(b, r, n) == RowCells(b, r, n - 1);
      }
    } else {
      assert RowCells(b, r, n) == {};
    }
  }

  lemma {:induction false} RowsCount(b: Board, n: nat)
    requires n <= |b|
    ensures |RowsCells(b, n)| == CountEmpty(b[..n])
  {
    if n > 0 {
      RowsCount(b, n - 1);
      RowCount(b, n - 1, |b[n - 1]|);
      assert b[..n][..n - 1] == b[..n - 1];
      assert b[n - 1][..|b[n - 1]|] == b[n - 1];
      var last := RowCells(b, n - 1, |b[n - 1]|);
      assert RowsCells(b, n) == RowsCells(b, n - 1) + last;
      assert RowsCells(b, n - 1) * last == {};
    } else {
      assert RowsCells(b, n) == {};
    }
  }

  /** The running count is the number of Empty cells on the board. */
  lemma CountIsCardinality(b: Board)
    ensures CountEmpty(b) == |EmptyCells(b)|
  {
    RowsCount(b, |b|);
    assert b[..|b|] == b;
    assert RowsCells(b, |b|) == EmptyCells(b);
  }

  /** Marks one cell visited when it is on the board and Empty; a visited cell,
      a wall or a cell off the board is left as it is. */
  function Mark(b: Board, p: Pos): Board {
    if InBounds(b, p) && b[p.r][p.c] == Empty then b[p.r := b[p.r][p.c := Visited]] else b
  }

  /** Marks the cells of ps, one after the other. */
  function MarkAll(b: Board, ps: seq<Pos>): Board {
    if ps == [] then b else Mark(MarkAll(b, ps[..|ps| - 1]), ps[|ps| - 1])
  }

  /** Marking the first k + 1 cells of ps is marking the first k, then the next. */
  lemma MarkAllSnoc(b: Board, ps: seq<Pos>, k: nat)
    requires k < |ps|
    ensures MarkAll(b, ps[..k + 1]) == Mark(MarkAll(b, ps[..k]), ps[k])
  {
    assert ps[..k + 1][..k] == ps[..k];
  }

  /** Marking the cells of ps visits exactly the Empty cells among them and
      changes no other cell: the shape stays, walls stay, Visited stays. */
  lemma {:induction false} MarkAllEffect(b: Board, ps: seq<Pos>)
    ensures |MarkAll(b, ps)| == |b|
    ensures forall r :: 0 <= r < |b| ==> |MarkAll(b, ps)[r]| == |b[r]|
    ensures forall r, c :: 0 <= r < |b| && 0 <= c < |b[r]| ==>
      MarkAll(b, ps)[r][c] == if Pos(r, c) in ps && b[r][c] == Empty then Visited else b[r][c]
  {
    if ps != [] {
      var init := ps[..|ps| - 1];
      MarkAllEffect(b, init);
      forall r, c | 0 <= r < |b| && 0 <= c < |b[r]|
        ensures Pos(r, c) in ps <==> Pos(r, c) in init || Pos(r, c) == ps[|ps| - 1]
      {
        assert ps == init + [ps[|ps| - 1]];
      }
    }
  }

  /** Marking one Empty cell takes exactly one off the count of Empty cells. */
  lemma CountAfterMark(b: Board, p: Pos)
    requires InBounds(b, p) && b[p.r][p.c] == Empty
    ensures CountEmpty(Mark(b, p)) == CountEmpty(b) - 1
  {
    CountIsCardinality(b);
    CountIsCardinality(Mark(b, p));
    EmptyAfterMark(b, p);
  }

  /** Marking an Empty cell removes exactly that cell from the Empty cells. */
  lemma EmptyAfterMark(b: Board, p: Pos)
    requires InBounds(b, p) && b[p.r][p.c] == Empty
    ensures EmptyCells(Mark(b, p)) == EmptyCells(b) - {p}
  {
    var b' := Mark(b, p);
    forall q | q in EmptyCells(b') ensures q in EmptyCells(b) && q != p {
      assert b'[q.r][q.c] == Empty;
    }
    forall q | q in EmptyCells(b) && q != p ensures q in EmptyCells(b') {
      assert b'[q.r][q.c] == b[q.r][q.c];
    }
  }

  /** b is orig with some of its Empty cells marked visited: the walls and the
      shape are those of orig and no mark was ever taken off. */
  predicate MarkedFrom(orig: Board, b: Board) {
    SameWalls(orig, b) &&
    forall r, c :: 0 <= r < |orig| && 0 <= c < |orig[r]| ==>
      b[r][c] == orig[r][c] || (orig[r][c] == Empty && b[r][c] == Visited)
  }

  /** Marking keeps a board marked from the board the game started with. */
  lemma MarkAllKeepsMarked(orig: Board, b: Board, ps: seq<Pos>)
    requires MarkedFrom(orig, b)
    ensures MarkedFrom(orig, MarkAll(b, ps)) && MarkedFrom(b, MarkAll(b, ps))
  {
    MarkAllEffect(b, ps);
  }

  /** On a board marked from a board with no marks, the visited cells and the
      Empty cells split the walkable cells of the original between them, and
      the count of Empty cells is zero exactly when everything walkable is visited. */
  lemma Coverage(orig: Board, b: Board)
    requires Pristine(orig) && MarkedFrom(orig, b)
    ensures VisitedCells(b) <= Walkable(orig)
    ensures EmptyCells(b) == Walkable(orig) - VisitedCells(b)
    ensures CountEmpty(b) == 0 <==> VisitedCells(b) == Walkable(orig)
  {
    CountIsCardinality(b);
    forall p | p in Walkable(orig) ensures p in EmptyCells(b) || p in VisitedCells(b) {
      assert orig[p.r][p.c] != Wall;
    }
  }

  /** Marking walkable cells adds exactly those cells to the visited ones. */
  lemma VisitedAfterMarkAll(orig: Board, b: Board, ps: seq<Pos>)
    requires MarkedFrom(orig, b)
    requires forall i :: 0 <= i < |ps| ==> ps[i] in Walkable(orig)
    ensures VisitedCells(MarkAll(b, ps)) == VisitedCells(b) + Cells(ps)
  {
    MarkAllEffect(b, ps);
    var b' := MarkAll(b, ps);
    forall p | p in ps ensures p in VisitedCells(b') {
      assert orig[p.r][p.c] != Wall;
    }
  }

  /** Cells in row-major order. */
  predicate Before(p: Pos, q: Pos) {
    p.r < q.r || (p.r == q.r && p.c < q.c)
  }

  /** The Empty cells of the board that are not in skip, in row-major order. */
  method ListEmptyCells(b: Board, skip: set<Pos>) returns (cells: seq<Pos>)
    requires Rectangular(b)
    ensures forall i :: 0 <= i < |cells| ==> cells[i] in EmptyCells(b) && cells[i] !in skip
    ensures forall p :: p in EmptyCells(b) && p !in skip ==> p in cells
    ensures forall i, j :: 0 <= i < j < |cells| ==> Before(cells[i], cells[j])
  {
    cells := [];
    var r := 0;
    while r < |b|
      invariant 0 <= r <= |b|
      invariant forall i :: 0 <= i < |cells| ==> cells[i] in EmptyCells(b) && cells[i] !in skip && cells[i].r < r
      invariant forall p :: p in EmptyCells(b) && p !in skip && p.r < r ==> p in cells
      invariant forall i, j :: 0 <= i < j < |cells| ==> Before(cells[i], cells[j])
    {
      var c := 0;
      while c < |b[0]|
        invariant 0 <= c <= |b[0]|
        invariant forall i :: 0 <= i < |cells| ==> cells[i] in EmptyCells(b) && cells[i] !in skip && Before(cells[i], Pos(r, c))
        invariant forall p :: p in EmptyCells(b) && p !in skip && Before(p, Pos(r, c)) ==> p in cells
        invariant forall i, j :: 0 <= i < j < |cells| ==> Before(cells[i], cells[j])
      {
        if b[r][c] == Empty && Pos(r, c) !in skip {
          cells := cells + [Pos(r, c)];
        }
        c := c + 1;
      }
      r := r + 1;
    }
  }

  /** A list in strictly increasing order has as many entries as distinct cells. */
  lemma {:induction false} SortedLength(cells: seq<Pos>)
    requires forall i, j :: 0 <= i < j < |cells| ==> Before(cells[i], cells[j])
    ensures |Cells(cells)| == |cells|
  {
    if cells != [] {
      var init := cells[..|cells| - 1];
      var last := cells[|cells| - 1];
      SortedLength(init);
      assert Cells(cells) == Cells(init) + {last};
      assert last !in init by {
        forall i | 0 <= i < |init| ensures init[i] != last {
          assert Before(cells[i], cells[|cells| - 1]);
        }
      }
    }
  }

  /** On a board with no marks the Empty cells are the walkable ones. */
  lemma PristineEmptyIsWalkable(b: Board)
    requires Pristine(b)
    ensures EmptyCells(b) == Walkable(b)
  {
  }

  /** A subset is no larger than its superset, and one as large is the superset. */
  lemma SubsetCard(a: set<Pos>, s: set<Pos>)
    requires a <= s
    ensures |a| <= |s|
    ensures |a| == |s| ==> a == s
  {
    assert s == a + (s - a);
  }
}
