/**
 * What the fill brush computes: the 4-connected region of cells that share
 * the start cell's original value, reached through such cells, takes the
 * fill colour, and nothing else changes.
 */
module FloodFill {
  import opened Raster

  /** A map position `(x, y)`. */
  type Cell = (int, int)

  /** The four neighbours in the order the fill enqueues them: up, down, left, right. */
  function Neighbours(c: Cell): (ns: seq<Cell>)
    ensures |ns| == 4
    ensures forall i :: 0 <= i < 4 ==> Adjacent(c, ns[i])
  {
    [(c.0, c.1 - 1), (c.0, c.1 + 1), (c.0 - 1, c.1), (c.0 + 1, c.1)]
  }

  /** Two cells one step apart horizontally or vertically. */
  predicate Adjacent(a: Cell, b: Cell)
  {
    (a.0 == b.0 && (a.1 - b.1 == 1 || b.1 - a.1 == 1))
    || (a.1 == b.1 && (a.0 - b.0 == 1 || b.0 - a.0 == 1))
  }

  /** In the map and holding `t`. */
  predicate Matches(g: Snapshot, w: int, h: int, t: int, c: Cell)
    requires IsGrid(g, w, h)
  {
    InBounds(w, h, c.0, c.1) && g[c.1][c.0] == t
  }

  /** A walk of adjacent cells, each in the map and holding `t`. */
  predicate IsWalk(g: Snapshot, w: int, h: int, t: int, p: seq<Cell>)
    requires IsGrid(g, w, h)
  {
    0 < |p|
    && (forall i :: 0 <= i < |p| ==> Matches(g, w, h, t, p[i]))
    && (forall i :: 0 < i < |p| ==> Adjacent(p[i - 1], p[i]))
  }

  /** `c` is 4-connected to `start` through cells holding `start`'s value. */
  ghost predicate Reachable(g: Snapshot, w: int, h: int, start: Cell, c: Cell)
    requires IsGrid(g, w, h) && InBounds(w, h, start.0, start.1)
  {
    exists p :: IsWalk(g, w, h, g[start.1][start.0], p) && p[0] == start && p[|p| - 1] == c
  }

  /**
   * The map after `applyFillBrush(sx, sy)` with colour `c`: unchanged when
   * the start is off the map or already holds `c`, otherwise exactly the
   * region reachable from the start takes `c`.
   */
  ghost function FillResult(g: Snapshot, w: nat, h: nat, sx: int, sy: int, c: Byte): (r: Snapshot)
    requires IsGrid(g, w, h)
    ensures IsGrid(r, w, h)
  {
    if !InBounds(w, h, sx, sy) || g[sy][sx] == c then g
    else seq(h, y requires 0 <= y < h =>
           seq(w, x requires 0 <= x < w => if Reachable(g, w, h, (sx, sy), (x, y)) then c else g[y][x]))
  }

  /** The start is reachable from itself, and every reachable cell holds the start's value. */
  lemma ReachableBasics(g: Snapshot, w: int, h: int, start: Cell, c: Cell)
    requires IsGrid(g, w, h) && InBounds(w, h, start.0, start.1)
    ensures Reachable(g, w, h, start, start)
    ensures Reachable(g, w, h, start, c) ==> Matches(g, w, h, g[start.1][start.0], c)
  {
    assert IsWalk(g, w, h, g[start.1][start.0], [start]);
  }

  /** A reachable cell's matching neighbour is reachable: extend the walk by one step. */
  lemma ReachableStep(g: Snapshot, w: int, h: int, start: Cell, c: Cell, n: Cell)
    requires IsGrid(g, w, h) && InBounds(w, h, start.0, start.1)
    requires Reachable(g, w, h, start, c) && Adjacent(c, n) && Matches(g, w, h, g[start.1][start.0], n)
    ensures Reachable(g, w, h, start, n)
  {
    var t := g[start.1][start.0];
    var p :| IsWalk(g, w, h, t, p) && p[0] == start && p[|p| - 1] == c;
    var q := p + [n];
    assert IsWalk(g, w, h, t, q);
    assert q[0] == start && q[|q| - 1] == n;
  }

  /**
   * A set of cells that contains the start and is closed under stepping to
   * matching neighbours contains every reachable cell (so the fill's region
   * is the smallest such set).
   */
  lemma ClosedContainsReachable(g: Snapshot, w: int, h: int, start: Cell, S: set<Cell>, c: Cell)
    requires IsGrid(g, w, h) && InBounds(w, h, start.0, start.1)
    requires start in S
    requires forall a, b :: a in S && Adjacent(a, b) && Matches(g, w, h, g[start.1][start.0], b) ==> b in S
    requires Reachable(g, w, h, start, c)
    ensures c in S
  {
    var t := g[start.1][start.0];
    var p :| IsWalk(g, w, h, t, p) && p[0] == start && p[|p| - 1] == c;
    WalkInClosed(g, w, h, t, S, p, |p|);
  }

  lemma {:induction false} WalkInClosed(g: Snapshot, w: int, h: int, t: int, S: set<Cell>, p: seq<Cell>, k: nat)
    requires IsGrid(g, w, h) && IsWalk(g, w, h, t, p) && p[0] in S
    requires forall a, b :: a in S && Adjacent(a, b) && Matches(g, w, h, t, b) ==> b in S
    requires 1 <= k <= |p|
    ensures p[k - 1] in S
  {
    if k > 1 {
      WalkInClosed(g, w, h, t, S, p, k - 1);
      assert Adjacent(p[k - 2], p[k - 1]) && Matches(g, w, h, t, p[k - 1]);
    }
  }

  /** On a map whose cells all hold one value, a fill from any cell repaints the whole map. */
  lemma UniformFillsAll(g: Snapshot, w: nat, h: nat, v: Byte, sx: int, sy: int, c: Byte)
    requires IsGrid(g, w, h) && InBounds(w, h, sx, sy) && v != c
    requires forall y, x :: 0 <= y < h && 0 <= x < w ==> g[y][x] == v
    ensures FillResult(g, w, h, sx, sy, c) == ConstGrid(w, h, c)
  {
    var r := FillResult(g, w, h, sx, sy, c);
    forall y, x | 0 <= y < h && 0 <= x < w
      ensures r[y][x] == c
    {
      UniformReachable(g, w, h, v, (sx, sy), (x, y));
    }
    assert forall y :: 0 <= y < h ==> r[y] == ConstGrid(w, h, c)[y];
  }

  /** On a uniform map an L-shaped walk (first along the row, then along the column) connects any two cells. */
  lemma UniformReachable(g: Snapshot, w: nat, h: nat, v: Byte, s: Cell, c: Cell)
    requires IsGrid(g, w, h) && InBounds(w, h, s.0, s.1) && InBounds(w, h, c.0, c.1)
    requires forall y, x :: 0 <= y < h && 0 <= x < w ==> g[y][x] == v
    ensures Reachable(g, w, h, s, c)
  {
    var row := RowWalk(s.1, s.0, c.0);
    var col := ColumnWalk(c.0, s.1, c.1);
    UniformWalk(g, w, h, v, row);
    UniformWalk(g, w, h, v, col);
    JoinWalks(g, w, h, v, row, col);
    var p := row + col[1..];
    assert p[0] == s && p[|p| - 1] == c;
  }

  lemma UniformWalk(g: Snapshot, w: nat, h: nat, v: Byte, p: seq<Cell>)
    requires IsGrid(g, w, h) && 0 < |p|
    requires forall y, x :: 0 <= y < h && 0 <= x < w ==> g[y][x] == v
    requires forall i :: 0 <= i < |p| ==> InBounds(w, h, p[i].0, p[i].1)
    requires forall i :: 0 < i < |p| ==> Adjacent(p[i - 1], p[i])
    ensures IsWalk(g, w, h, v, p)
  {
  }

  /** Two walks that meet end to start join into one. */
  lemma JoinWalks(g: Snapshot, w: int, h: int, t: int, p: seq<Cell>, q: seq<Cell>)
    requires IsGrid(g, w, h) && IsWalk(g, w, h, t, p) && IsWalk(g, w, h, t, q) && p[|p| - 1] == q[0]
    ensures IsWalk(g, w, h, t, p + q[1..])
  {
    var r := p + q[1..];
    forall i | 0 <= i < |r|
      ensures Matches(g, w, h, t, r[i])
    {
      if i >= |p| { assert r[i] == q[i - |p| + 1]; }
    }
    forall i | 0 < i < |r|
      ensures Adjacent(r[i - 1], r[i])
    {
      if i >= |p| {
        assert r[i - 1] == q[i - |p|] && r[i] == q[i - |p| + 1];
      }
    }
  }

  /** The cells of row y from column a to column b, one step at a time. */
  function RowWalk(y: int, a: int, b: int): (p: seq<Cell>)
    ensures |p| == (if a <= b then b - a else a - b) + 1
    ensures p[0] == (a, y) && p[|p| - 1] == (b, y)
    ensures forall i :: 0 <= i < |p| ==> p[i].1 == y && (a <= p[i].0 <= b || b <= p[i].0 <= a)
    ensures forall i :: 0 < i < |p| ==> Adjacent(p[i - 1], p[i])
    decreases if a <= b then b - a else a - b
  {
    if a == b then [(a, y)]
    else if a < b then [(a, y)] + RowWalk(y, a + 1, b)
    else [(a, y)] + RowWalk(y, a - 1, b)
  }

  /** The cells of column x from row a to row b, one step at a time. */
  function ColumnWalk(x: int, a: int, b: int): (p: seq<Cell>)
    ensures |p| == (if a <= b then b - a else a - b) + 1
    ensures p[0] == (x, a) && p[|p| - 1] == (x, b)
    ensures forall i :: 0 <= i < |p| ==> p[i].0 == x && (a <= p[i].1 <= b || b <= p[i].1 <= a)
    ensures forall i :: 0 < i < |p| ==> Adjacent(p[i - 1], p[i])
    decreases if a <= b then b - a else a - b
  {
    if a == b then [(x, a)]
    else if a < b then [(x, a)] + ColumnWalk(x, a + 1, b)
    else [(x, a)] + ColumnWalk(x, a - 1, b)
  }

  /**
   * Filling twice from the same start is the same as filling once: the
   * start itself takes the fill colour, so the second call returns early.
   */
  lemma FillIdempotent(g: Snapshot, w: nat, h: nat, sx: int, sy: int, c: Byte)
    requires IsGrid(g, w, h)
    ensures var r := FillResult(g, w, h, sx, sy, c);
            FillResult(r, w, h, sx, sy, c) == r
  {
    if InBounds(w, h, sx, sy) {
      ReachableBasics(g, w, h, (sx, sy), (sx, sy));
    }
  }

  /** The fill changes a cell only to the fill colour, and only a cell that held the start's value. */
  lemma FillChangesOnlyRegion(g: Snapshot, w: nat, h: nat, sx: int, sy: int, c: Byte, x: int, y: int)
    requires IsGrid(g, w, h) && InBounds(w, h, x, y)
    ensures var r := FillResult(g, w, h, sx, sy, c);
            r[y][x] != g[y][x] ==> InBounds(w, h, sx, sy) && r[y][x] == c && g[y][x] == g[sy][sx] != c
  {
    if InBounds(w, h, sx, sy) {
      ReachableBasics(g, w, h, (sx, sy), (x, y));
    }
  }

  // ---------------------------------------------------------------- the search

  /** The fill's `visited` flags, indexed `[y][x]` like the map. */
  type Marks = seq<seq<bool>>

  predicate IsMarks(v: Marks, w: int, h: int)
  {
    |v| == h && forall y :: 0 <= y < h ==> |v[y]| == w
  }

  /** No cell visited yet. */
  function NoMarks(w: nat, h: nat): (v: Marks)
    ensures IsMarks(v, w, h) && forall y, x :: 0 <= y < h && 0 <= x < w ==> !v[y][x]
  {
    seq(h, _ => seq(w, _ => false))
  }

  /** `visited[y][x] = true`. */
  function Mark(v: Marks, x: int, y: int): (r: Marks)
    requires 0 <= y < |v| && 0 <= x < |v[y]|
    ensures |r| == |v| && forall j :: 0 <= j < |v| ==> |r[j]| == |v[j]|
    ensures forall j, i :: 0 <= j < |v| && 0 <= i < |v[j]| ==> r[j][i] == (v[j][i] || (j == y && i == x))
  {
    v[y := v[y][x := true]]
  }

  /** Every cell of the w x h map. */
  function AllCells(w: nat, h: nat): set<Cell>
  {
    set x, y | 0 <= x < w && 0 <= y < h :: (x, y)
  }

  /** A visited cell holds the fill colour, any other cell its original value. */
  predicate Painted(g: Snapshot, w: nat, h: nat, col: Byte, cur: Snapshot, v: Marks)
    requires IsGrid(g, w, h) && IsGrid(cur, w, h) && IsMarks(v, w, h)
  {
    forall y, x :: 0 <= y < h && 0 <= x < w ==> cur[y][x] == if v[y][x] then col else g[y][x]
  }

  /** The ghost set `remaining` holds exactly the cells not yet visited. */
  ghost predicate Tracked(w: nat, h: nat, v: Marks, remaining: set<Cell>)
    requires IsMarks(v, w, h)
  {
    remaining <= AllCells(w, h)
    && forall y, x :: 0 <= y < h && 0 <= x < w ==> (v[y][x] <==> (x, y) !in remaining)
  }

  ghost predicate VisitedReachable(g: Snapshot, w: nat, h: nat, start: Cell, v: Marks)
    requires IsGrid(g, w, h) && InBounds(w, h, start.0, start.1) && IsMarks(v, w, h)
  {
    forall y, x :: 0 <= y < h && 0 <= x < w && v[y][x] ==> Reachable(g, w, h, start, (x, y))
  }

  ghost predicate QueueReachable(g: Snapshot, w: nat, h: nat, start: Cell, queue: seq<Cell>)
    requires IsGrid(g, w, h) && InBounds(w, h, start.0, start.1)
  {
    forall i :: 0 <= i < |queue| && Matches(g, w, h, g[start.1][start.0], queue[i]) ==> Reachable(g, w, h, start, queue[i])
  }

  /** A cell that matters to the fill is visited or still waiting in the queue. */
  predicate Settled(g: Snapshot, w: int, h: int, t: int, v: Marks, queue: seq<Cell>, n: Cell)
    requires IsGrid(g, w, h) && IsMarks(v, w, h)
  {
    !Matches(g, w, h, t, n) || v[n.1][n.0] || n in queue
  }

  /** Every neighbour of a visited cell is settled. */
  predicate Frontier(g: Snapshot, w: nat, h: nat, t: int, v: Marks, queue: seq<Cell>)
    requires IsGrid(g, w, h) && IsMarks(v, w, h)
  {
    forall y, x, k :: 0 <= y < h && 0 <= x < w && v[y][x] && 0 <= k < 4 ==>
      Settled(g, w, h, t, v, queue, Neighbours((x, y))[k])
  }

  /**
   * The invariant of the search from `start` on the original map `g`
   * toward colour `col`, with current map `cur`, flags `v`, the queue and
   * the ghost set of cells not yet visited: the map shows the visited
   * cells painted, every visited cell and every matching queued cell is
   * reachable, each matching neighbour of a visited cell is visited or
   * queued, and the start is visited or queued.
   */
  ghost predicate FillInv(g: Snapshot, w: nat, h: nat, start: Cell, col: Byte,
                          cur: Snapshot, v: Marks, queue: seq<Cell>, remaining: set<Cell>)
    requires IsGrid(g, w, h) && InBounds(w, h, start.0, start.1)
  {
    IsGrid(cur, w, h) && IsMarks(v, w, h)
    && Painted(g, w, h, col, cur, v)
    && Tracked(w, h, v, remaining)
    && VisitedReachable(g, w, h, start, v)
    && QueueReachable(g, w, h, start, queue)
    && Frontier(g, w, h, g[start.1][start.0], v, queue)
    && (v[start.1][start.0] || start in queue)
  }

  /** Before the loop: nothing visited, the start queued, every cell remaining. */
  lemma FillStart(g: Snapshot, w: nat, h: nat, start: Cell, col: Byte)
    requires IsGrid(g, w, h) && InBounds(w, h, start.0, start.1)
    ensures FillInv(g, w, h, start, col, g, NoMarks(w, h), [start], AllCells(w, h))
  {
    ReachableBasics(g, w, h, start, start);
    forall y, x | 0 <= y < h && 0 <= x < w
      ensures (x, y) in AllCells(w, h)
    {
    }
  }

  /** Dropping the front of the queue keeps what the rest of the queue guarantees. */
  lemma InTail(queue: seq<Cell>, n: Cell)
    requires n in queue && n != queue[0]
    ensures n in queue[1..]
  {
    var i :| 0 <= i < |queue| && queue[i] == n;
    assert queue[1..][i - 1] == n;
  }

  /**
   * A popped cell that is off the map, already visited or not holding the
   * target is dropped, and the invariant still holds for the rest of the queue.
   */
  lemma FillSkip(g: Snapshot, w: nat, h: nat, start: Cell, col: Byte,
                 cur: Snapshot, v: Marks, queue: seq<Cell>, remaining: set<Cell>)
    requires IsGrid(g, w, h) && InBounds(w, h, start.0, start.1)
    requires FillInv(g, w, h, start, col, cur, v, queue, remaining) && |queue| > 0
    requires var q := queue[0];
             !InBounds(w, h, q.0, q.1) || v[q.1][q.0] || cur[q.1][q.0] != g[start.1][start.0]
    ensures FillInv(g, w, h, start, col, cur, v, queue[1..], remaining)
  {
    var t := g[start.1][start.0];
    var q := queue[0];
    assert !Matches(g, w, h, t, q) || v[q.1][q.0];
    forall n | Settled(g, w, h, t, v, queue, n)
      ensures Settled(g, w, h, t, v, queue[1..], n)
    {
      if n in queue && n != q {
        InTail(queue, n);
      }
    }
    if start in queue && start != q {
      InTail(queue, start);
    }
    forall i | 0 <= i < |queue[1..]| && Matches(g, w, h, t, queue[1..][i])
      ensures Reachable(g, w, h, start, queue[1..][i])
    {
      assert queue[1..][i] == queue[i + 1];
    }
  }

  /**
   * A popped cell on the map, not visited and holding the target is
   * visited: it takes `col`, and its four neighbours join the queue.
   */
  lemma FillVisit(g: Snapshot, w: nat, h: nat, start: Cell, col: Byte,
                  cur: Snapshot, v: Marks, queue: seq<Cell>, remaining: set<Cell>)
    requires IsGrid(g, w, h) && InBounds(w, h, start.0, start.1)
    requires FillInv(g, w, h, start, col, cur, v, queue, remaining) && |queue| > 0
    requires var q := queue[0];
             InBounds(w, h, q.0, q.1) && !v[q.1][q.0] && cur[q.1][q.0] == g[start.1][start.0]
    ensures var q := queue[0];
            q in remaining
            && FillInv(g, w, h, start, col, Put(cur, q.0, q.1, col), Mark(v, q.0, q.1),
                       queue[1..] + Neighbours(q), remaining - {q})
  {
    var t := g[start.1][start.0];
    var q := queue[0];
    var x, y := q.0, q.1;
    var cur', v' := Put(cur, x, y, col), Mark(v, x, y);
    var queue' := queue[1..] + Neighbours(q);
    assert Matches(g, w, h, t, q);
    assert Reachable(g, w, h, start, q);
    VisitPainted(g, w, h, col, cur, v, x, y);
    VisitTracked(w, h, v, remaining, x, y);
    VisitQueue(g, w, h, start, queue);
    VisitFrontier(g, w, h, t, v, queue);
    if start in queue && start != q {
      InTail(queue, start);
      assert start in queue';
    }
  }

  lemma VisitPainted(g: Snapshot, w: nat, h: nat, col: Byte, cur: Snapshot, v: Marks, x: int, y: int)
    requires IsGrid(g, w, h) && IsGrid(cur, w, h) && IsMarks(v, w, h) && InBounds(w, h, x, y)
    requires Painted(g, w, h, col, cur, v)
    ensures IsGrid(Put(cur, x, y, col), w, h) && IsMarks(Mark(v, x, y), w, h)
    ensures Painted(g, w, h, col, Put(cur, x, y, col), Mark(v, x, y))
  {
  }

  lemma VisitTracked(w: nat, h: nat, v: Marks, remaining: set<Cell>, x: int, y: int)
    requires IsMarks(v, w, h) && InBounds(w, h, x, y) && !v[y][x]
    requires Tracked(w, h, v, remaining)
    ensures (x, y) in remaining && IsMarks(Mark(v, x, y), w, h)
    ensures Tracked(w, h, Mark(v, x, y), remaining - {(x, y)})
  {
  }

  /** The queue after a visit: its tail, then the visited cell's neighbours, each reachable if it matches. */
  lemma VisitQueue(g: Snapshot, w: nat, h: nat, start: Cell, queue: seq<Cell>)
    requires IsGrid(g, w, h) && InBounds(w, h, start.0, start.1) && |queue| > 0
    requires QueueReachable(g, w, h, start, queue) && Reachable(g, w, h, start, queue[0])
    ensures QueueReachable(g, w, h, start, queue[1..] + Neighbours(queue[0]))
  {
    var t := g[start.1][start.0];
    var queue' := queue[1..] + Neighbours(queue[0]);
    forall i | 0 <= i < |queue'| && Matches(g, w, h, t, queue'[i])
      ensures Reachable(g, w, h, start, queue'[i])
    {
      if i < |queue| - 1 {
        assert queue'[i] == queue[i + 1];
      } else {
        ReachableStep(g, w, h, start, queue[0], queue'[i]);
      }
    }
  }

  lemma VisitFrontier(g: Snapshot, w: nat, h: nat, t: int, v: Marks, queue: seq<Cell>)
    requires IsGrid(g, w, h) && IsMarks(v, w, h) && |queue| > 0
    requires var q := queue[0]; InBounds(w, h, q.0, q.1)
    requires Frontier(g, w, h, t, v, queue)
    ensures var q := queue[0];
            IsMarks(Mark(v, q.0, q.1), w, h) && Frontier(g, w, h, t, Mark(v, q.0, q.1), queue[1..] + Neighbours(q))
  {
    var q := queue[0];
    var v' := Mark(v, q.0, q.1);
    var queue' := queue[1..] + Neighbours(q);
    forall n | Settled(g, w, h, t, v, queue, n)
      ensures Settled(g, w, h, t, v', queue', n)
    {
      if n in queue && n != q {
        InTail(queue, n);
      }
    }
    forall k | 0 <= k < 4
      ensures Settled(g, w, h, t, v', queue', Neighbours(q)[k])
    {
      assert queue'[|queue| - 1 + k] == Neighbours(q)[k];
    }
  }

  /** Each cell adjacent to `c` is one of its four neighbours. */
  lemma AdjacentIsNeighbour(c: Cell, n: Cell)
    requires Adjacent(c, n)
    ensures exists k :: 0 <= k < 4 && Neighbours(c)[k] == n
  {
    var ns := Neighbours(c);
    if n == ns[0] {
    } else if n == ns[1] {
      assert ns[1] == n;
    } else if n == ns[2] {
      assert ns[2] == n;
    } else {
      assert ns[3] == n;
    }
  }

  /** With the queue empty the visited cells are closed under matching neighbours, so they hold every reachable cell. */
  lemma DoneCoversReachable(g: Snapshot, w: nat, h: nat, start: Cell, v: Marks, x: int, y: int)
    requires IsGrid(g, w, h) && InBounds(w, h, start.0, start.1) && IsMarks(v, w, h) && v[start.1][start.0]
    requires Frontier(g, w, h, g[start.1][start.0], v, [])
    requires InBounds(w, h, x, y) && Reachable(g, w, h, start, (x, y))
    ensures v[y][x]
  {
    var t := g[start.1][start.0];
    var S := set j, i | 0 <= j < h && 0 <= i < w && v[j][i] :: (i, j);
    forall a, b | a in S && Adjacent(a, b) && Matches(g, w, h, t, b)
      ensures b in S
    {
      AdjacentIsNeighbour(a, b);
      var k :| 0 <= k < 4 && Neighbours(a)[k] == b;
      assert Settled(g, w, h, t, v, [], Neighbours(a)[k]);
    }
    ClosedContainsReachable(g, w, h, start, S, (x, y));
  }

  /**
   * With the queue empty the visited cells are exactly the reachable ones,
   * so the map is the fill's result.
   */
  lemma FillDone(g: Snapshot, w: nat, h: nat, start: Cell, col: Byte, cur: Snapshot, v: Marks, remaining: set<Cell>)
    requires IsGrid(g, w, h) && InBounds(w, h, start.0, start.1) && col != g[start.1][start.0]
    requires FillInv(g, w, h, start, col, cur, v, [], remaining)
    ensures cur == FillResult(g, w, h, start.0, start.1, col)
  {
    var r := FillResult(g, w, h, start.0, start.1, col);
    forall y, x | 0 <= y < h && 0 <= x < w
      ensures cur[y][x] == r[y][x]
    {
      if Reachable(g, w, h, start, (x, y)) {
        DoneCoversReachable(g, w, h, start, v, x, y);
      }
    }
    forall y | 0 <= y < h
      ensures cur[y] == r[y]
    {
    }
  }

  /**
   * `applyFillBrush`: a breadth-first search from the start with a FIFO
   * queue of positions and a grid of visited flags. A popped position that
   * is off the map, visited or not holding the start's original value is
   * dropped; otherwise it is marked, painted and its four neighbours are
   * queued (up, down, left, right).
   */
  method Fill(g: Snapshot, w: nat, h: nat, mapX: int, mapY: int, fillColor: Byte) returns (r: Snapshot)
    requires IsGrid(g, w, h)
    ensures r == FillResult(g, w, h, mapX, mapY, fillColor)
  {
    if mapX < 0 || mapX >= w || mapY < 0 || mapY >= h {
      return g;
    }
    var targetColor := g[mapY][mapX];
    if targetColor == fillColor {
      return g;
    }
    var start := (mapX, mapY);
    var queue := [start];
    var visited := NoMarks(w, h);
    ghost var remaining := AllCells(w, h);
    r := g;
    FillStart(g, w, h, start, fillColor);
    while |queue| > 0
      invariant FillInv(g, w, h, start, fillColor, r, visited, queue, remaining)
      decreases |remaining|, |queue|
    {
      r, visited, queue, remaining := FillStep(g, w, h, start, fillColor, targetColor, r, visited, queue, remaining);
    }
    FillDone(g, w, h, start, fillColor, r, visited, remaining);
  }

  /**
   * One iteration of the fill loop: pop the front of the queue; skip it, or
   * paint and mark it and queue its four neighbours.
   */
  method FillStep(g: Snapshot, w: nat, h: nat, start: Cell, fillColor: Byte, targetColor: Byte,
                  r: Snapshot, visited: Marks, queue: seq<Cell>, ghost remaining: set<Cell>)
    returns (r': Snapshot, visited': Marks, queue': seq<Cell>, ghost remaining': set<Cell>)
    requires IsGrid(g, w, h) && InBounds(w, h, start.0, start.1) && targetColor == g[start.1][start.0]
    requires FillInv(g, w, h, start, fillColor, r, visited, queue, remaining) && |queue| > 0
    ensures FillInv(g, w, h, start, fillColor, r', visited', queue', remaining')
    ensures |remaining'| < |remaining| || (remaining' == remaining && |queue'| < |queue|)
  {
    var current := queue[0];
    var x, y := current.0, current.1;
    if x < 0 || x >= w || y < 0 || y >= h || visited[y][x] || r[y][x] != targetColor {
      FillSkip(g, w, h, start, fillColor, r, visited, queue, remaining);
      r', visited', queue', remaining' := r, visited, queue[1..], remaining;
    } else {
      FillVisit(g, w, h, start, fillColor, r, visited, queue, remaining);
      RemoveShrinks(remaining, current);
      // the four neighbours, in the order the source pushes them
      r', visited', queue', remaining' := Put(r, x, y, fillColor), Mark(visited, x, y), queue[1..] + Neighbours(current), remaining - {current};
    }
  }

  lemma RemoveShrinks<T>(s: set<T>, e: T)
    requires e in s
    ensures |s - {e}| < |s|
  {
  }
}
