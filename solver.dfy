/** The optimal solver: a graph of every slide out of every walkable cell,
    then a breadth-first search over game states (position and covered
    cells) for the shortest sequence of moves that covers the board. */
module Solver {
  import opened Grid
  import opened Play

  /** One slide of the graph: where it stops, the cells it passes, its direction. */
  datatype Edge = Edge(to: Pos, cells: set<Pos>, dir: Dir)

  /** The slide out of p in direction d, as an edge. */
  function EdgeFor(b: Board, p: Pos, d: Dir): Edge {
    Edge(StopPoint(b, p, d), Cells(SlidePath(b, p, d)), d)
  }

  /** The edges out of p in the first n directions of the table, skipping
      the directions whose first cell is an obstacle. */
  function EdgesIn(b: Board, p: Pos, n: nat): seq<Edge>
    requires n <= |Directions|
  {
    if n == 0 then []
    else
      var d := Directions[n - 1];
      EdgesIn(b, p, n - 1) + (if IsObstacle(b, Step(p, d)) then [] else [EdgeFor(b, p, d)])
  }

  function EdgesFrom(b: Board, p: Pos): seq<Edge> {
    EdgesIn(b, p, |Directions|)
  }

  /** Every edge out of p is the unblocked slide in its own direction. */
  lemma {:induction false} EdgesAreMoves(b: Board, p: Pos, n: nat)
    requires n <= |Directions|
    ensures forall e :: e in EdgesIn(b, p, n) ==> e == EdgeFor(b, p, e.dir) && !IsObstacle(b, Step(p, e.dir))
  {
    if n > 0 {
      EdgesAreMoves(b, p, n - 1);
      var d := Directions[n - 1];
      var rest := EdgesIn(b, p, n - 1);
      var last: seq<Edge> := if IsObstacle(b, Step(p, d)) then [] else [EdgeFor(b, p, d)];
      assert EdgesIn(b, p, n) == rest + last;
      forall e: Edge | e in rest + last ensures e == EdgeFor(b, p, e.dir) && !IsObstacle(b, Step(p, e.dir)) {
        if e !in rest {
          assert e == EdgeFor(b, p, d);
        }
      }
    }
  }

  /** Every unblocked direction among the first n has its edge. */
  lemma {:induction false} MovesAreEdges(b: Board, p: Pos, n: nat)
    requires n <= |Directions|
    ensures forall j :: 0 <= j < n && !IsObstacle(b, Step(p, Directions[j])) ==>
      EdgeFor(b, p, Directions[j]) in EdgesIn(b, p, n)
  {
    if n > 0 {
      MovesAreEdges(b, p, n - 1);
      var d := Directions[n - 1];
      var rest := EdgesIn(b, p, n - 1);
      var last: seq<Edge> := if IsObstacle(b, Step(p, d)) then [] else [EdgeFor(b, p, d)];
      assert EdgesIn(b, p, n) == rest + last;
      forall j | 0 <= j < n && !IsObstacle(b, Step(p, Directions[j])) ensures EdgeFor(b, p, Directions[j]) in rest + last {
        if j == n - 1 {
          assert (rest + last)[|rest|] == EdgeFor(b, p, d);
        }
      }
    }
  }

  /** The edges out of p are exactly the moves that are not blocked. */
  lemma EdgesFromAreMoves(b: Board, p: Pos)
    ensures forall e :: e in EdgesFrom(b, p) ==> e == EdgeFor(b, p, e.dir) && !IsObstacle(b, Step(p, e.dir))
    ensures forall d :: !IsObstacle(b, Step(p, d)) <==> EdgeFor(b, p, d) in EdgesFrom(b, p)
  {
    EdgesAreMoves(b, p, |Directions|);
    MovesAreEdges(b, p, |Directions|);
    forall d | !IsObstacle(b, Step(p, d)) ensures EdgeFor(b, p, d) in EdgesFrom(b, p) {
      var j := DirIndex(d);
    }
  }

  /** Following an edge from a state is playing its move. */
  lemma EdgeIsMove(b: Board, st: Search, e: Edge)
    requires e in EdgesFrom(b, st.pos)
    ensures Move(b, st, e.dir) == Some(Search(e.to, st.covered + e.cells))
  {
    EdgesFromAreMoves(b, st.pos);
  }

  /** A slide whose first cell is walkable is not empty and ends at its stop point. */
  lemma SlideEndsAtStop(b: Board, p: Pos, d: Dir)
    requires !IsObstacle(b, Step(p, d))
    ensures SlidePath(b, p, d) != []
    ensures SlidePath(b, p, d)[|SlidePath(b, p, d)| - 1] == StopPoint(b, p, d)
  {
  }

  /** A traced slide whose first cell is free is not empty, and its last
      cell, its cells and its direction make the edge of that slide. */
  lemma SegmentIsEdge(b: Board, p: Pos, d: Dir, segment: seq<Pos>)
    requires segment == SlidePath(b, p, d) && !IsObstacle(b, Step(p, d))
    ensures segment != [] && Edge(segment[|segment| - 1], Cells(segment), d) == EdgeFor(b, p, d)
  {
    SlideEndsAtStop(b, p, d);
  }

  /** g holds, for every walkable cell with a slide out of it, the edges out
      of it in the order of the direction table, and nothing else. */
  ghost predicate SlideGraph(b: Board, g: map<Pos, seq<Edge>>) {
    (forall p :: p in g <==> p in Walkable(b) && EdgesFrom(b, p) != []) &&
    (forall p :: p in g ==> g[p] == EdgesFrom(b, p))
  }

  /** The edges out of p, none when p has no entry. */
  function Lookup(g: map<Pos, seq<Edge>>, p: Pos): seq<Edge> {
    if p in g then g[p] else []
  }

  lemma LookupIsEdges(b: Board, g: map<Pos, seq<Edge>>, p: Pos)
    requires SlideGraph(b, g) && p in Walkable(b)
    ensures Lookup(g, p) == EdgesFrom(b, p)
  {
  }

  /** Builds the slide graph: for every walkable cell and every direction
      whose first cell is free, trace the slide and record its end point,
      its cells and its direction. */
  method BuildSlideGraph(b: Board, walkable: set<Pos>) returns (g: map<Pos, seq<Edge>>)
    requires walkable == Walkable(b)
    ensures SlideGraph(b, g)
  {
    g := map[];
    var todo := walkable;
    while todo != {}
      invariant todo <= walkable
      invariant forall p :: p in g <==> p in walkable - todo && EdgesFrom(b, p) != []
      invariant forall p :: p in g ==> g[p] == EdgesFrom(b, p)
      decreases |todo|
    {
      var p :| p in todo;
      var edges := EdgesOf(b, p);
      if edges != [] {
        g := g[p := edges];
      }
      todo := todo - {p};
    }
  }

  /** The edges out of p, one for each direction whose first cell is free,
      in the order of the direction table. */
  method EdgesOf(b: Board, p: Pos) returns (edges: seq<Edge>)
    ensures edges == EdgesFrom(b, p)
  {
    edges := [];
    for i := 0 to |Directions|
      invariant edges == EdgesIn(b, p, i)
    {
      var edge := EdgeOf(b, p, Directions[i]);
      if edge.Some? {
        edges := edges + [edge.value];
      }
    }
  }

  /** The edge for one direction: none when the first cell is an obstacle,
      otherwise the traced slide's last cell, its cells and the direction. */
  method EdgeOf(b: Board, p: Pos, d: Dir) returns (edge: Option<Edge>)
    ensures edge == if IsObstacle(b, Step(p, d)) then None else Some(EdgeFor(b, p, d))
  {
    if IsObstacle(b, Step(p, d)) {
      return None;
    }
    var segment, stop := TracePath(b, p, d);
    SegmentIsEdge(b, p, d, segment);
    return Some(Edge(segment[|segment| - 1], Cells(segment), d));
  }

  /** A queued state with the moves that reach it from the start of the search. */
  datatype Entry = Entry(state: Search, path: seq<Dir>)

  /** Every move out of s leads to a state already seen, at most one move further. */
  ghost predicate Closed(b: Board, s: Search, dist: map<Search, nat>)
    requires s in dist
  {
    forall d :: Move(b, s, d).Some? ==>
      Move(b, s, d).value in dist && dist[Move(b, s, d).value] <= dist[s] + 1
  }

  lemma ClosedGrows(b: Board, s: Search, dist: map<Search, nat>, t: Search, n: nat)
    requires s in dist && t !in dist && Closed(b, s, dist)
    ensures Closed(b, s, dist[t := n])
  {
    forall d | Move(b, s, d).Some?
      ensures Move(b, s, d).value in dist[t := n] && dist[t := n][Move(b, s, d).value] <= dist[t := n][s] + 1
    {
      assert Move(b, s, d).value in dist;
    }
  }

  /** The queue entries are reached from init by their moves, and their
      distances are the lengths of those moves, in order and within one of
      level. */
  ghost predicate QueueOk(b: Board, init: Search, queue: seq<Entry>, dist: map<Search, nat>, level: nat) {
    (forall i :: 0 <= i < |queue| ==>
      Replay(b, init, queue[i].path) == Some(queue[i].state) &&
      queue[i].state in dist && dist[queue[i].state] == |queue[i].path| &&
      level <= |queue[i].path| <= level + 1) &&
    (forall i, j :: 0 <= i < j < |queue| ==> |queue[i].path| <= |queue[j].path|)
  }

  /** Every state seen has a distance, init at 0; none is further than one
      past level, and every state nearer than level is done. */
  ghost predicate Distances(init: Search, visited: set<Search>, dist: map<Search, nat>,
                            done: set<Search>, level: nat)
  {
    dist.Keys == visited && done <= visited &&
    init in dist && dist[init] == 0 &&
    (forall s :: s in visited ==> dist[s] <= level + 1) &&
    (forall s :: s in visited && dist[s] < level ==> s in done)
  }

  /** The done states are no further than level, are not goals, and have
      every move out of them seen. */
  ghost predicate DoneOk(b: Board, dist: map<Search, nat>, done: set<Search>, level: nat) {
    forall s :: s in done ==> s in dist && dist[s] <= level && !Goal(b, s) && Closed(b, s, dist)
  }

  /** Every state seen is settled or still queued. */
  ghost predicate Tracked(visited: set<Search>, settled: set<Search>, queue: seq<Entry>) {
    forall s :: s in visited ==> s in settled || exists i :: 0 <= i < |queue| && queue[i].state == s
  }

  /** The state of the search between two dequeues: every state seen is done
      (expanded, not a goal) or still queued. */
  ghost predicate Layered(b: Board, init: Search, queue: seq<Entry>, visited: set<Search>,
                          dist: map<Search, nat>, done: set<Search>, level: nat)
  {
    QueueOk(b, init, queue, dist, level) && Distances(init, visited, dist, done, level) &&
    DoneOk(b, dist, done, level) && Tracked(visited, done, queue)
  }

  /** While the head cur of the queue is being expanded: as Layered at the
      level of cur, with cur neither done nor queued. */
  ghost predicate Expanding(b: Board, init: Search, cur: Entry, queue: seq<Entry>, visited: set<Search>,
                            dist: map<Search, nat>, done: set<Search>)
  {
    var level := |cur.path|;
    QueueOk(b, init, queue, dist, level) && Distances(init, visited, dist, done, level) &&
    DoneOk(b, dist, done, level) && Tracked(visited, done + {cur.state}, queue) &&
    cur.state in visited && dist[cur.state] == level &&
    Replay(b, init, cur.path) == Some(cur.state) && !Goal(b, cur.state)
  }

  /** Taking the head off the queue: every state nearer than it is done. */
  lemma DequeueKeeps(b: Board, init: Search, queue: seq<Entry>, visited: set<Search>,
                     dist: map<Search, nat>, done: set<Search>, level: nat)
    requires queue != [] && Layered(b, init, queue, visited, dist, done, level)
    requires !Goal(b, queue[0].state)
    ensures Expanding(b, init, queue[0], queue[1..], visited, dist, done)
  {
    var cur := queue[0];
    var rest := queue[1..];
    forall s | s in visited ensures s in done + {cur.state} || exists i :: 0 <= i < |rest| && rest[i].state == s {
      if s !in done && s != cur.state {
        var i :| 0 <= i < |queue| && queue[i].state == s;
        assert rest[i - 1].state == s;
      }
    }
    NearerAreDone(b, init, queue, visited, dist, done, level);
  }

  /** Every state nearer than the head of the queue is done. */
  lemma NearerAreDone(b: Board, init: Search, queue: seq<Entry>, visited: set<Search>,
                      dist: map<Search, nat>, done: set<Search>, level: nat)
    requires queue != [] && Layered(b, init, queue, visited, dist, done, level)
    ensures forall s :: s in visited && dist[s] < |queue[0].path| ==> s in done
  {
  }

  /** Adding a state one move beyond cur at the back of the queue keeps the
      expansion state. */
  lemma EnqueueKeeps(b: Board, init: Search, cur: Entry, queue: seq<Entry>, visited: set<Search>,
                     dist: map<Search, nat>, done: set<Search>, d: Dir, next: Search)
    requires Expanding(b, init, cur, queue, visited, dist, done)
    requires Move(b, cur.state, d) == Some(next) && next !in visited
    ensures Expanding(b, init, cur, queue + [Entry(next, cur.path + [d])], visited + {next},
                      dist[next := |cur.path| + 1], done)
  {
    var entry := Entry(next, cur.path + [d]);
    ReplayAppend(b, init, cur.path, d);
    QueueOkAppend(b, init, queue, dist, |cur.path|, entry);
    DistancesAdd(init, visited, dist, done, |cur.path|, next);
    DoneOkGrows(b, dist, done, |cur.path|, next);
    StillQueued(visited, done + {cur.state}, queue, entry);
  }

  /** Appending a new state one level further keeps the queue in order. */
  lemma QueueOkAppend(b: Board, init: Search, queue: seq<Entry>, dist: map<Search, nat>, level: nat, e: Entry)
    requires QueueOk(b, init, queue, dist, level) && e.state !in dist
    requires Replay(b, init, e.path) == Some(e.state) && |e.path| == level + 1
    ensures QueueOk(b, init, queue + [e], dist[e.state := level + 1], level)
  {
    var queue' := queue + [e];
    var dist' := dist[e.state := level + 1];
    forall i | 0 <= i < |queue'|
      ensures Replay(b, init, queue'[i].path) == Some(queue'[i].state) &&
        queue'[i].state in dist' && dist'[queue'[i].state] == |queue'[i].path| &&
        level <= |queue'[i].path| <= level + 1
    {
      if i < |queue| {
        assert queue'[i] == queue[i];
      }
    }
  }

  lemma DistancesAdd(init: Search, visited: set<Search>, dist: map<Search, nat>, done: set<Search>,
                     level: nat, t: Search)
    requires Distances(init, visited, dist, done, level) && t !in visited
    ensures Distances(init, visited + {t}, dist[t := level + 1], done, level)
  {
  }

  lemma DoneOkGrows(b: Board, dist: map<Search, nat>, done: set<Search>, level: nat, t: Search)
    requires DoneOk(b, dist, done, level) && t !in dist
    ensures DoneOk(b, dist[t := level + 1], done, level)
  {
    forall s | s in done ensures Closed(b, s, dist[t := level + 1]) {
      ClosedGrows(b, s, dist, t, level + 1);
    }
  }

  /** Every state seen stays settled or queued when a state is appended. */
  lemma StillQueued(visited: set<Search>, settled: set<Search>, queue: seq<Entry>, e: Entry)
    requires Tracked(visited, settled, queue)
    ensures Tracked(visited + {e.state}, settled, queue + [e])
  {
    var queue' := queue + [e];
    forall s | s in visited + {e.state}
      ensures s in settled || exists i :: 0 <= i < |queue'| && queue'[i].state == s
    {
      if s == e.state {
        assert queue'[|queue|].state == s;
      } else if s !in settled {
        var i :| 0 <= i < |queue| && queue[i].state == s;
        assert queue'[i].state == s;
      }
    }
  }

  /** Once every move out of cur has been seen, cur is done. */
  lemma FinishKeeps(b: Board, init: Search, cur: Entry, queue: seq<Entry>, visited: set<Search>,
                    dist: map<Search, nat>, done: set<Search>)
    requires Expanding(b, init, cur, queue, visited, dist, done)
    requires Closed(b, cur.state, dist)
    ensures Layered(b, init, queue, visited, dist, done + {cur.state}, |cur.path|)
  {
  }

  /** Under a search state where everything nearer than bound is done, every
      state reached by at most bound moves has been seen, no further than
      the number of moves. */
  lemma {:induction false} ReachedWithin(b: Board, init: Search, ds: seq<Dir>, dist: map<Search, nat>,
                                         done: set<Search>, bound: nat)
    requires init in dist && dist[init] == 0
    requires forall s :: s in dist && dist[s] < bound ==> s in done
    requires forall s :: s in done ==> s in dist && Closed(b, s, dist)
    requires |ds| <= bound && Replay(b, init, ds).Some?
    ensures Replay(b, init, ds).value in dist && dist[Replay(b, init, ds).value] <= |ds|
  {
    if ds != [] {
      var prefix := ds[..|ds| - 1];
      ReachedWithin(b, init, prefix, dist, done, bound);
      var mid := Replay(b, init, prefix).value;
      assert mid in done;
    }
  }

  /** No sequence shorter than bound covers, when everything nearer than
      bound is done and no done state is a goal. */
  lemma NoShorterCover(b: Board, init: Search, dist: map<Search, nat>, done: set<Search>, bound: nat)
    requires init in dist && dist[init] == 0
    requires forall s :: s in dist && dist[s] < bound ==> s in done
    requires forall s :: s in done ==> s in dist && Closed(b, s, dist) && !Goal(b, s)
    ensures forall ds :: |ds| < bound ==> !Covering(b, init, ds)
  {
    forall ds | |ds| < bound && Replay(b, init, ds).Some? ensures !Goal(b, Replay(b, init, ds).value) {
      ReachedWithin(b, init, ds, dist, done, bound);
    }
  }

  /** The state reached from st along edge e. */
  function Along(st: Search, e: Edge): Search {
    Search(e.to, st.covered + e.cells)
  }

  ghost predicate SeenWithin(dist: map<Search, nat>, s: Search, n: nat) {
    s in dist && dist[s] <= n
  }

  /** The states behind the first i edges out of st have been seen within n moves. */
  ghost predicate SeenUpTo(dist: map<Search, nat>, st: Search, edges: seq<Edge>, i: nat, n: nat)
    requires i <= |edges|
  {
    forall j :: 0 <= j < i ==> SeenWithin(dist, Along(st, edges[j]), n)
  }

  /** Giving a distance to a state not seen before keeps the distances of the others. */
  lemma SeenGrows(dist: map<Search, nat>, t: Search, n: nat, st: Search, edges: seq<Edge>, i: nat)
    requires t !in dist && i <= |edges| && SeenUpTo(dist, st, edges, i, n)
    ensures SeenUpTo(dist[t := n], st, edges, i, n)
  {
  }

  lemma SeenNext(dist: map<Search, nat>, st: Search, edges: seq<Edge>, i: nat, n: nat)
    requires i < |edges| && SeenUpTo(dist, st, edges, i, n)
    requires SeenWithin(dist, Along(st, edges[i]), n)
    ensures SeenUpTo(dist, st, edges, i + 1, n)
  {
  }

  /** Once the state behind every edge out of cur has been seen within one
      more move, every move out of cur has. */
  lemma ExpandedIsClosed(b: Board, cur: Entry, edges: seq<Edge>, dist: map<Search, nat>)
    requires edges == EdgesFrom(b, cur.state.pos)
    requires cur.state in dist && dist[cur.state] == |cur.path|
    requires SeenUpTo(dist, cur.state, edges, |edges|, |cur.path| + 1)
    ensures Closed(b, cur.state, dist)
  {
    EdgesFromAreMoves(b, cur.state.pos);
    forall d | Move(b, cur.state, d).Some?
      ensures Move(b, cur.state, d).value in dist && dist[Move(b, cur.state, d).value] <= dist[cur.state] + 1
    {
      var e := EdgeFor(b, cur.state.pos, d);
      EdgeIsMove(b, cur.state, e);
      var j :| 0 <= j < |edges| && edges[j] == e;
      assert SeenWithin(dist, Along(cur.state, edges[j]), |cur.path| + 1);
    }
  }

  /** A goal at the head of the queue is reached by its moves, and nothing shorter covers. */
  lemma FoundIsShortest(b: Board, init: Search, queue: seq<Entry>, visited: set<Search>,
                        dist: map<Search, nat>, done: set<Search>, level: nat)
    requires queue != [] && Layered(b, init, queue, visited, dist, done, level)
    requires Goal(b, queue[0].state)
    ensures Covering(b, init, queue[0].path)
    ensures forall ds :: |ds| < |queue[0].path| ==> !Covering(b, init, ds)
  {
    NearerAreDone(b, init, queue, visited, dist, done, level);
    NoShorterCover(b, init, dist, done, |queue[0].path|);
  }

  /** With the queue empty every state seen is done, and none is a goal. */
  lemma ExhaustedHasNone(b: Board, init: Search, visited: set<Search>,
                         dist: map<Search, nat>, done: set<Search>, level: nat)
    requires Layered(b, init, [], visited, dist, done, level)
    ensures forall ds :: !Covering(b, init, ds)
  {
    forall ds | Replay(b, init, ds).Some? ensures !Goal(b, Replay(b, init, ds).value) {
      ReachedWithin(b, init, ds, dist, done, |ds|);
    }
  }

  /** Every state of the search: a walkable position and a set of walkable cells. */
  ghost function AllStates(b: Board): set<Search> {
    var w := Walkable(b);
    set p, covered | p in w && covered in (set s: set<Pos> | s <= w) :: Search(p, covered)
  }

  lemma InAllStates(b: Board, st: Search)
    requires Inside(b, st)
    ensures st in AllStates(b)
  {
    var w := Walkable(b);
    assert st.covered in (set s: set<Pos> | s <= w);
    assert st == Search(st.pos, st.covered);
  }

  /** Seeing one more state of a finite universe leaves fewer to see. */
  lemma Shrinks(all: set<Search>, before: set<Search>, visited: set<Search>, next: Search)
    requires before <= visited && next in all && next !in visited
    ensures |all - (visited + {next})| < |all - before|
  {
    var rest := all - before;
    var after := all - (visited + {next});
    assert after <= rest - {next};
    assert rest - {next} == after + ((rest - {next}) - after);
  }

  /** The neighbour loop of the search: the state behind each edge out of
      cur, in order, is seen and queued one move further unless it was seen. */
  method ExpandEntry(b: Board, init: Search, cur: Entry, edges: seq<Edge>, queue: seq<Entry>,
                     visited: set<Search>, ghost dist: map<Search, nat>, ghost done: set<Search>)
    returns (queue': seq<Entry>, visited': set<Search>, ghost dist': map<Search, nat>)
    requires Expanding(b, init, cur, queue, visited, dist, done) && Inside(b, init)
    requires edges == EdgesFrom(b, cur.state.pos)
    ensures Expanding(b, init, cur, queue', visited', dist', done)
    ensures Closed(b, cur.state, dist')
    ensures visited <= visited'
    ensures (visited' == visited && queue' == queue) || |AllStates(b) - visited'| < |AllStates(b) - visited|
  {
    queue', visited', dist' := queue, visited, dist;
    ReplayMonotone(b, init, cur.path);
    for i := 0 to |edges|
      invariant Expanding(b, init, cur, queue', visited', dist', done)
      invariant SeenUpTo(dist', cur.state, edges, i, |cur.path| + 1)
      invariant visited <= visited'
      invariant (visited' == visited && queue' == queue) || |AllStates(b) - visited'| < |AllStates(b) - visited|
    {
      var e := edges[i];
      var next := Search(e.to, cur.state.covered + e.cells);
      EdgeIsMove(b, cur.state, e);
      if next !in visited' {
        MoveStaysInside(b, cur.state, e.dir);
        InAllStates(b, next);
        Shrinks(AllStates(b), visited, visited', next);
        EnqueueKeeps(b, init, cur, queue', visited', dist', done, e.dir, next);
        SeenGrows(dist', next, |cur.path| + 1, cur.state, edges, i);
        visited' := visited' + {next};
        dist' := dist'[next := |cur.path| + 1];
        queue' := queue' + [Entry(next, cur.path + [e.dir])];
      }
      SeenNext(dist', cur.state, edges, i, |cur.path| + 1);
    }
    ExpandedIsClosed(b, cur, edges, dist');
  }

  /** One round of the search whose head does not cover the board: the head
      is dequeued and every state one slide from it not seen before is queued
      behind the rest. */
  method Advance(b: Board, g: map<Pos, seq<Edge>>, init: Search, queue: seq<Entry>, visited: set<Search>,
                 ghost dist: map<Search, nat>, ghost done: set<Search>, ghost level: nat)
    returns (queue': seq<Entry>, visited': set<Search>, ghost dist': map<Search, nat>,
             ghost done': set<Search>, ghost level': nat)
    requires SlideGraph(b, g) && Inside(b, init)
    requires queue != [] && Layered(b, init, queue, visited, dist, done, level)
    requires !Goal(b, queue[0].state)
    ensures Layered(b, init, queue', visited', dist', done', level')
    ensures visited <= visited'
    ensures |AllStates(b) - visited'| < |AllStates(b) - visited| || (visited' == visited && |queue'| < |queue|)
  {
    var cur := queue[0];
    DequeueKeeps(b, init, queue, visited, dist, done, level);
    ReplayMonotone(b, init, cur.path);
    LookupIsEdges(b, g, cur.state.pos);
    var edges := Lookup(g, cur.state.pos);
    queue', visited', dist' := ExpandEntry(b, init, cur, edges, queue[1..], visited, dist, done);
    FinishKeeps(b, init, cur, queue', visited', dist', done);
    done' := done + {cur.state};
    level' := |cur.path|;
  }

  /** The search starts with init queued, reached by no move, at distance 0. */
  lemma StartLayered(b: Board, init: Search)
    ensures Layered(b, init, [Entry(init, [])], {init}, map[init := 0], {}, 0)
  {
    assert [Entry(init, [])][0].state == init;
  }

  /** The solver's search: states are dequeued in order of the number of
      moves that reach them; the first goal dequeued gives a shortest cover,
      and an exhausted queue means there is none. */
  method ShortestCover(b: Board, g: map<Pos, seq<Edge>>, walkable: set<Pos>, init: Search)
    returns (r: Option<seq<Dir>>)
    requires SlideGraph(b, g) && walkable == Walkable(b) && Inside(b, init)
    ensures r.Some? ==> Covering(b, init, r.value)
    ensures r.Some? ==> forall ds :: |ds| < |r.value| ==> !Covering(b, init, ds)
    ensures r.None? ==> forall ds :: !Covering(b, init, ds)
  {
    var queue := [Entry(init, [])];
    var visited := {init};
    ghost var dist: map<Search, nat> := map[init := 0];
    ghost var done: set<Search> := {};
    ghost var level: nat := 0;
    StartLayered(b, init);
    while queue != []
      invariant Layered(b, init, queue, visited, dist, done, level)
      decreases |AllStates(b) - visited|, |queue|
    {
      var cur := queue[0];
      if cur.state.covered == walkable {
        FoundIsShortest(b, init, queue, visited, dist, done, level);
        return Some(cur.path);
      }
      queue, visited, dist, done, level := Advance(b, g, init, queue, visited, dist, done, level);
    }
    ExhaustedHasNone(b, init, visited, dist, done, level);
    r := None;
  }

  /** Whether the board can be covered from start at all: the search of
      solve_puzzle from the initial state, where only start is covered. */
  method SolvableExactly(b: Board, start: Pos) returns (solvable: bool)
    requires start in Walkable(b)
    ensures solvable <==> exists ds :: Covering(b, Search(start, {start}), ds)
  {
    var walkable := Walkable(b);
    var g := BuildSlideGraph(b, walkable);
    var r := ShortestCover(b, g, walkable, Search(start, {start}));
    solvable := r.Some?;
  }
}
