/** The solvability check run on the initial board: a breadth-first search over
    stop points from the start, collecting every cell on an explored slide. */
module Reachability {
  import opened Grid
  import opened Marks
  import opened Play

  /** The stop point reached from s by sliding in each direction of ds in turn;
      a blocked direction leaves the player where it is. */
  function Follow(b: Board, s: Pos, ds: seq<Dir>): Pos {
    if ds == [] then s else StopPoint(b, Follow(b, s, ds[..|ds| - 1]), ds[|ds| - 1])
  }

  /** c is the start, or lies on a slide out of a stop point reachable from s. */
  ghost predicate Coverable(b: Board, s: Pos, c: Pos) {
    c == s || exists ds: seq<Dir>, d: Dir :: c in SlidePath(b, Follow(b, s, ds), d)
  }

  lemma FollowAppend(b: Board, s: Pos, ds: seq<Dir>, d: Dir)
    ensures Follow(b, s, ds + [d]) == StopPoint(b, Follow(b, s, ds), d)
  {
    assert (ds + [d])[..|ds|] == ds;
  }

  /** Every slide out of q ends in stops and lies in cells. */
  ghost predicate Expanded(b: Board, q: Pos, stops: set<Pos>, cells: set<Pos>) {
    forall d :: StopPoint(b, q, d) in stops && Cells(SlidePath(b, q, d)) <= cells
  }

  /** A set of stop points that holds s and every stop point one slide away
      from its members holds every stop point reachable from s. */
  lemma {:induction false} ClosedHoldsReachable(b: Board, s: Pos, stops: set<Pos>, ds: seq<Dir>)
    requires s in stops
    requires forall q, d :: q in stops ==> StopPoint(b, q, d) in stops
    ensures Follow(b, s, ds) in stops
  {
    if ds != [] {
      ClosedHoldsReachable(b, s, stops, ds[..|ds| - 1]);
    }
  }

  /** What the search knows of its sets: each stop point seen is reached from
      start by the moves recorded for it, and each collected cell lies on a
      slide out of a reachable stop point. */
  ghost predicate SearchSound(b: Board, start: Pos, stops: set<Pos>, cells: set<Pos>,
                              route: map<Pos, seq<Dir>>)
  {
    start in cells && start in stops &&
    route.Keys == stops &&
    (forall q :: q in stops ==> Follow(b, start, route[q]) == q) &&
    (forall c :: c in cells ==> Coverable(b, start, c))
  }

  /** queue' is queue with the stop points added to stops appended: each of
      them is new, queued once, and walkable. */
  ghost predicate Enqueued(b: Board, queue: seq<Pos>, stops: set<Pos>, queue': seq<Pos>, stops': set<Pos>) {
    stops <= stops' &&
    |queue| <= |queue'| && queue'[..|queue|] == queue &&
    (forall k :: |queue| <= k < |queue'| ==> queue'[k] in stops' && queue'[k] !in stops) &&
    (forall q :: q in stops' ==> q in stops || q in queue') &&
    (forall q :: q in stops' ==> q in stops || !IsObstacle(b, q))
  }

  /** One dequeued stop point cur: for each of the four directions, trace the
      slide, queue its stop point when it is new, and collect its cells. */
  method ExpandStop(b: Board, start: Pos, cur: Pos, queue: seq<Pos>, stops: set<Pos>,
                    cells: set<Pos>, ghost route: map<Pos, seq<Dir>>)
    returns (queue': seq<Pos>, stops': set<Pos>, cells': set<Pos>, ghost route': map<Pos, seq<Dir>>)
    requires SearchSound(b, start, stops, cells, route) && cur in stops
    ensures SearchSound(b, start, stops', cells', route')
    ensures cells <= cells' && Expanded(b, cur, stops', cells')
    ensures Enqueued(b, queue, stops, queue', stops')
  {
    queue', stops', cells', route' := queue, stops, cells, route;
    for i := 0 to |Directions|
      invariant SearchSound(b, start, stops', cells', route')
      invariant cells <= cells' && Enqueued(b, queue, stops, queue', stops')
      invariant StopsOut(b, cur, i) <= stops' && CellsOut(b, cur, i) <= cells'
    {
      ghost var queue0, stops0 := queue', stops';
      queue', stops', cells', route' := ExpandDir(b, start, cur, Directions[i], queue', stops', cells', route');
      EnqueuedTrans(b, queue, stops, queue0, stops0, queue', stops');
    }
    AllDirections(b, cur);
  }

  /** One direction out of the dequeued stop point cur: trace the slide, queue
      its stop point when it is new, and collect its cells. */
  method ExpandDir(b: Board, start: Pos, cur: Pos, d: Dir, queue: seq<Pos>, stops: set<Pos>,
                   cells: set<Pos>, ghost route: map<Pos, seq<Dir>>)
    returns (queue': seq<Pos>, stops': set<Pos>, cells': set<Pos>, ghost route': map<Pos, seq<Dir>>)
    requires SearchSound(b, start, stops, cells, route) && cur in stops
    ensures SearchSound(b, start, stops', cells', route')
    ensures cells <= cells' && Enqueued(b, queue, stops, queue', stops')
    ensures StopPoint(b, cur, d) in stops' && Cells(SlidePath(b, cur, d)) <= cells'
  {
    queue', stops', route' := queue, stops, route;
    var path, newStop := TracePath(b, cur, d);
    FollowAppend(b, start, route[cur], d);
    if newStop != cur && newStop !in stops {
      assert newStop == path[|path| - 1];
      stops' := stops + {newStop};
      route' := route[newStop := route[cur] + [d]];
      queue' := queue + [newStop];
    }
    forall c | c in path ensures Coverable(b, start, c) {
      assert c in SlidePath(b, Follow(b, start, route[cur]), d);
    }
    cells' := cells + Cells(path);
  }

  /** Two rounds of queueing make one. */
  lemma EnqueuedTrans(b: Board, q0: seq<Pos>, s0: set<Pos>, q1: seq<Pos>, s1: set<Pos>, q2: seq<Pos>, s2: set<Pos>)
    requires Enqueued(b, q0, s0, q1, s1) && Enqueued(b, q1, s1, q2, s2)
    ensures Enqueued(b, q0, s0, q2, s2)
  {
    assert q2[..|q0|] == q1[..|q0|];
    forall k | |q0| <= k < |q2| ensures q2[k] in s2 && q2[k] !in s0 {
      if k < |q1| {
        assert q2[k] == q2[..|q1|][k];
      }
    }
  }

  /** The stop points of the slides out of p in the first n directions. */
  function StopsOut(b: Board, p: Pos, n: nat): set<Pos>
    requires n <= |Directions|
  {
    if n == 0 then {} else StopsOut(b, p, n - 1) + {StopPoint(b, p, Directions[n - 1])}
  }

  /** The cells of the slides out of p in the first n directions. */
  function CellsOut(b: Board, p: Pos, n: nat): set<Pos>
    requires n <= |Directions|
  {
    if n == 0 then {} else CellsOut(b, p, n - 1) + Cells(SlidePath(b, p, Directions[n - 1]))
  }

  /** The four directions cover every slide out of p. */
  lemma AllDirections(b: Board, p: Pos)
    ensures forall d :: StopPoint(b, p, d) in StopsOut(b, p, 4) && Cells(SlidePath(b, p, d)) <= CellsOut(b, p, 4)
  {
    forall d ensures StopPoint(b, p, d) in StopsOut(b, p, 4) && Cells(SlidePath(b, p, d)) <= CellsOut(b, p, 4) {
      var j := DirIndex(d);
      OutGrows(b, p, j + 1, 4);
    }
  }

  lemma {:induction false} OutGrows(b: Board, p: Pos, n: nat, m: nat)
    requires n <= m <= |Directions|
    ensures StopsOut(b, p, n) <= StopsOut(b, p, m) && CellsOut(b, p, n) <= CellsOut(b, p, m)
    decreases m - n
  {
    if n < m {
      OutGrows(b, p, n, m - 1);
    }
  }

  /** The breadth-first search itself: from start, every stop point not yet
      seen is queued once, and every cell on a slide out of a dequeued stop
      point is collected. The result is exactly the coverable cells. */
  method ExploreStops(b: Board, start: Pos) returns (reachable: set<Pos>)
    ensures forall c :: c in reachable <==> Coverable(b, start, c)
  {
    var queue := [start];
    var visitedStops := {start};
    reachable := {start};
    ghost var done: set<Pos> := {};
    ghost var route: map<Pos, seq<Dir>> := map[start := []];
    StartFrontier(b, start);
    while queue != []
      invariant Frontier(b, start, queue, visitedStops, reachable, route, done)
      decreases |Area(b, |b|) - visitedStops|, |queue|
    {
      queue, visitedStops, reachable, route, done := ExploreNext(b, start, queue, visitedStops, reachable, route, done);
    }
    FrontierExhausted(b, start, visitedStops, reachable, route, done);
  }

  /** The search starts with start queued, seen and collected, by no move. */
  lemma StartFrontier(b: Board, start: Pos)
    ensures Frontier(b, start, [start], {start}, {start}, map[start := []], {})
  {
    assert Coverable(b, start, start);
  }

  /** With the queue empty, the collected cells are exactly the coverable ones. */
  lemma FrontierExhausted(b: Board, start: Pos, stops: set<Pos>, cells: set<Pos>,
                          route: map<Pos, seq<Dir>>, done: set<Pos>)
    requires Frontier(b, start, [], stops, cells, route, done)
    ensures forall c :: c in cells <==> Coverable(b, start, c)
  {
    assert stops == done;
    ClosedCollectsCoverable(b, start, stops, cells);
  }

  /** One round of the search: the head of the queue is dequeued and expanded. */
  method ExploreNext(b: Board, start: Pos, queue: seq<Pos>, stops: set<Pos>, cells: set<Pos>,
                     ghost route: map<Pos, seq<Dir>>, ghost done: set<Pos>)
    returns (queue': seq<Pos>, stops': set<Pos>, cells': set<Pos>,
             ghost route': map<Pos, seq<Dir>>, ghost done': set<Pos>)
    requires queue != [] && Frontier(b, start, queue, stops, cells, route, done)
    ensures Frontier(b, start, queue', stops', cells', route', done')
    ensures |Area(b, |b|) - stops'| < |Area(b, |b|) - stops| ||
            (|Area(b, |b|) - stops'| == |Area(b, |b|) - stops| && |queue'| < |queue|)
  {
    var cur := queue[0];
    queue', stops', cells', route' := ExpandStop(b, start, cur, queue[1..], stops, cells, route);
    ExpandKeepsFrontier(b, start, queue, stops, cells, route, done, queue', stops', cells', route');
    ExpandUsesUp(b, queue, stops, queue', stops');
    done' := done + {cur};
  }

  /** The state of the search between two dequeues: every stop point seen is
      queued or done, and every done one has been expanded. */
  ghost predicate Frontier(b: Board, start: Pos, queue: seq<Pos>, stops: set<Pos>, cells: set<Pos>,
                           route: map<Pos, seq<Dir>>, done: set<Pos>)
  {
    SearchSound(b, start, stops, cells, route) &&
    (forall i :: 0 <= i < |queue| ==> queue[i] in stops) &&
    (forall q :: q in stops ==> q in done || q in queue) &&
    done <= stops &&
    (forall q :: q in done ==> Expanded(b, q, stops, cells))
  }

  /** Expanding the head of the queue keeps the search state and uses up
      either a cell not yet seen or an entry of the queue. */
  lemma ExpandKeepsFrontier(b: Board, start: Pos, queue: seq<Pos>, stops: set<Pos>, cells: set<Pos>,
                            route: map<Pos, seq<Dir>>, done: set<Pos>,
                            queue': seq<Pos>, stops': set<Pos>, cells': set<Pos>, route': map<Pos, seq<Dir>>)
    requires queue != [] && Frontier(b, start, queue, stops, cells, route, done)
    requires SearchSound(b, start, stops', cells', route')
    requires cells <= cells' && Expanded(b, queue[0], stops', cells')
    requires Enqueued(b, queue[1..], stops, queue', stops')
    ensures Frontier(b, start, queue', stops', cells', route', done + {queue[0]})
  {
    QueueAdvances(b, queue, stops, done, queue', stops');
    forall q | q in done ensures Expanded(b, q, stops', cells') {
      ExpandedGrows(b, q, stops, cells, stops', cells');
    }
  }

  /** Expanding the head of the queue uses up either a cell not yet seen or
      an entry of the queue. */
  lemma ExpandUsesUp(b: Board, queue: seq<Pos>, stops: set<Pos>, queue': seq<Pos>, stops': set<Pos>)
    requires queue != [] && Enqueued(b, queue[1..], stops, queue', stops')
    requires forall i :: 0 <= i < |queue| ==> queue[i] in stops
    ensures |Area(b, |b|) - stops'| < |Area(b, |b|) - stops| ||
            (|Area(b, |b|) - stops'| == |Area(b, |b|) - stops| && |queue'| < |queue|)
  {
    var tail := queue[1..];
    if |queue'| > |tail| {
      MeasureShrinks(b, stops, stops', queue'[|tail|]);
    } else {
      NothingEnqueued(b, queue, stops, queue', stops');
    }
  }

  /** When the queue did not grow past the old tail, no stop point was added. */
  lemma NothingEnqueued(b: Board, queue: seq<Pos>, stops: set<Pos>, queue': seq<Pos>, stops': set<Pos>)
    requires queue != [] && Enqueued(b, queue[1..], stops, queue', stops') && |queue'| <= |queue| - 1
    requires forall i :: 0 <= i < |queue| ==> queue[i] in stops
    ensures stops' == stops
  {
    assert queue' == queue'[..|queue| - 1] == queue[1..];
    forall q | q in stops' && q in queue' ensures q in stops {
      var i :| 0 <= i < |queue'| && queue'[i] == q;
      assert queue'[i] == queue[i + 1];
    }
  }

  /** Dequeuing the head and appending the new stop points keeps every stop
      point seen either queued or done. */
  lemma QueueAdvances(b: Board, queue: seq<Pos>, stops: set<Pos>, done: set<Pos>,
                      queue': seq<Pos>, stops': set<Pos>)
    requires queue != [] && Enqueued(b, queue[1..], stops, queue', stops')
    requires forall i :: 0 <= i < |queue| ==> queue[i] in stops
    requires forall q :: q in stops ==> q in done || q in queue
    ensures forall i :: 0 <= i < |queue'| ==> queue'[i] in stops'
    ensures forall q :: q in stops' ==> q in done + {queue[0]} || q in queue'
  {
    var tail := queue[1..];
    forall k | 0 <= k < |queue'| ensures queue'[k] in stops' {
      if k < |tail| {
        assert queue'[k] == queue'[..|tail|][k];
      }
    }
    forall q | q in stops' ensures q in done + {queue[0]} || q in queue' {
      if q in stops && q !in done && q != queue[0] {
        var i :| 0 <= i < |queue| && queue[i] == q;
        assert q == tail[i - 1] == queue'[..|tail|][i - 1];
      }
    }
  }

  lemma ExpandedGrows(b: Board, q: Pos, stops: set<Pos>, cells: set<Pos>, stops': set<Pos>, cells': set<Pos>)
    requires Expanded(b, q, stops, cells) && stops <= stops' && cells <= cells'
    ensures Expanded(b, q, stops', cells')
  {
  }

  /** When every stop point seen has been expanded, the collected cells hold
      every coverable cell. */
  lemma ClosedCollectsCoverable(b: Board, start: Pos, stops: set<Pos>, cells: set<Pos>)
    requires start in stops && start in cells
    requires forall q :: q in stops ==> Expanded(b, q, stops, cells)
    ensures forall c :: Coverable(b, start, c) ==> c in cells
  {
    forall q, d | q in stops ensures StopPoint(b, q, d) in stops {
      assert Expanded(b, q, stops, cells);
    }
    forall c | Coverable(b, start, c) ensures c in cells {
      if c != start {
        var ds, d :| c in SlidePath(b, Follow(b, start, ds), d);
        ClosedHoldsReachable(b, start, stops, ds);
        assert Expanded(b, Follow(b, start, ds), stops, cells);
      }
    }
  }

  /** Adding an in-bounds cell not yet seen shrinks the set of cells not yet seen. */
  lemma MeasureShrinks(b: Board, stops: set<Pos>, stops': set<Pos>, q: Pos)
    requires stops <= stops' && q in stops' && q !in stops && !IsObstacle(b, q)
    ensures |Area(b, |b|) - stops'| < |Area(b, |b|) - stops|
  {
    var A := Area(b, |b|);
    assert A - stops' <= (A - stops) - {q};
    SubsetCard(A - stops', (A - stops) - {q});
  }


  /** Only walkable cells are coverable from a walkable start. */
  lemma CoverableIsWalkable(b: Board, s: Pos, c: Pos)
    requires s in Walkable(b) && Coverable(b, s, c)
    ensures c in Walkable(b)
  {
    if c != s {
      var ds, d :| c in SlidePath(b, Follow(b, s, ds), d);
      ObstacleIffNotWalkable(b, c);
    }
  }

  /** is_solvable: the board is solvable when the cells lying on explored
      slides are as many as the board's Empty cells; otherwise the Empty cells
      no slide reaches are listed in row-major order. */
  method IsSolvable(b: Board, start: Pos) returns (solvable: bool, unreachable: seq<Pos>)
    requires Rectangular(b) && Pristine(b) && start in Walkable(b)
    ensures solvable <==> forall c :: c in Walkable(b) ==> Coverable(b, start, c)
    ensures solvable <==> unreachable == []
    ensures forall c :: c in unreachable <==> c in Walkable(b) && !Coverable(b, start, c)
    ensures forall i, j :: 0 <= i < j < |unreachable| ==> Before(unreachable[i], unreachable[j])
  {
    var reachable := ExploreStops(b, start);
    forall c | c in reachable ensures c in Walkable(b) {
      CoverableIsWalkable(b, start, c);
    }
    var total := CountEmpty(b);
    CountIsCardinality(b);
    PristineEmptyIsWalkable(b);
    SubsetCard(reachable, Walkable(b));
    assert (forall c :: c in Walkable(b) ==> Coverable(b, start, c)) <==> reachable == Walkable(b);
    if |reachable| != total {
      unreachable := ListEmptyCells(b, reachable);
      solvable := false;
    } else {
      unreachable := [];
      solvable := true;
    }
  }
}
