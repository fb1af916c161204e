/** On which shapes of maze the path traced back from the goal is always right: the
    parent vector is indexed by x times the number of rows, so on most other shapes two
    cells share a slot and some maze of that shape is traced wrongly. */
module BfsShapes {
  import opened Grids
  import opened BfsSearch
  import opened BfsTraces
  import BfsNonSquare

  /** A single row, a square, or two rows of three columns. */
  predicate SoundShape(row: int, col: int) {
    row == 1 || row == col || (row == 2 && col == 3)
  }

  ghost predicate HasShape(g: Grid, slots: seq<Cell>, row: int, col: int) {
    WellSized(g, slots) && g.row == row && g.col == col
  }

  ghost predicate AllTracesRight(row: int, col: int) {
    forall g: Grid, slots: seq<Cell> :: HasShape(g, slots, row, col) ==> TraceRight(g, slots)
  }

  // ---------- walks that only go right and down ----------

  lemma {:induction false} SumGrows(g: Grid, p: seq<Cell>, i: nat, j: nat)
    requires Walk(g, p) && i <= j < |p|
    ensures p[j].x + p[j].y <= p[i].x + p[i].y + (j - i)
    decreases j
  {
    if i < j {
      SumGrows(g, p, i, j - 1);
      assert g.Adjacent(p[j - 1], p[j]);
    }
  }

  /** No walk to a cell is shorter than going straight right and down. */
  lemma Manhattan(g: Grid, c: Cell, k: nat)
    requires Steps(g, c, k)
    ensures c.x + c.y <= k
  {
    var p :| WalkTo(g, p, c) && |p| == k + 1;
    SumGrows(g, p, 0, k);
  }

  lemma ManhattanDistance(g: Grid, c: Cell, k: nat)
    requires Steps(g, c, k) && k == c.x + c.y
    ensures Distance(g, c, k)
  {
    forall j: nat | j < k
      ensures !Steps(g, c, j)
    {
      if Steps(g, c, j) {
        Manhattan(g, c, j);
      }
    }
  }

  /** The column of the start and the row of the goal are open. */
  ghost predicate HasEll(g: Grid) {
    forall c :: g.InRange(c) && (c.y == 0 || c.x == g.row - 1) ==> c in g.open
  }

  lemma EllWalk(g: Grid)
    requires g.Valid() && HasEll(g)
    ensures Steps(g, g.Goal(), g.row + g.col - 2) && Distance(g, g.Goal(), g.row + g.col - 2)
  {
    var n := g.row + g.col - 1;
    var p := seq(n, i => if i < g.row then Cell(i, 0) else Cell(g.row - 1, i - g.row + 1));
    assert g.InRange(START) && forall i :: 0 <= i < n ==> g.InRange(p[i]) && p[i] in g.open;
    assert WalkTo(g, p, g.Goal());
    ManhattanDistance(g, g.Goal(), n - 1);
  }

  // ---------- shapes on which every trace is right ----------

  lemma NothingShared(g: Grid)
    requires g.Valid() && (g.row == 1 || g.row == g.col)
    ensures Unspoiled(g)
  {
    forall b, c | b != c && Slot(g.row, b) == Slot(g.row, c)
      ensures Harmless(g, b, c)
    {
      forall i: nat, j: nat | Distance(g, c, i) && Distance(g, b, j)
        ensures false
      {
        StepsOpen(g, c, i);
        StepsOpen(g, b, j);
        SlotInjective(g.row, g.col, b, c);
      }
    }
  }

  lemma StepsOpen(g: Grid, c: Cell, k: nat)
    requires g.Valid() && Steps(g, c, k)
    ensures g.InRange(c)
  {
    var p :| WalkTo(g, p, c) && |p| == k + 1;
    if k > 0 {
      assert g.Adjacent(p[k - 1], p[k]);
    }
  }

  // ---------- two rows of three columns ----------

  lemma LowSlots(row: int, c: Cell)
    ensures c.x == 0 ==> Slot(row, c) == c.y
    ensures c.x == 1 ==> Slot(row, c) == row + c.y
  {
  }

  /** Only (0,2) and (1,0) share a slot. */
  lemma SharedSlot23(row: int, b: Cell, c: Cell)
    requires row == 2 && 0 <= b.x < 2 && 0 <= b.y < 3 && 0 <= c.x < 2 && 0 <= c.y < 3
    requires b != c && Slot(row, b) == Slot(row, c)
    ensures b == Cell(0, 2) || c == Cell(0, 2)
  {
    LowSlots(row, b);
    LowSlots(row, c);
  }

  lemma CornerNeighbours(g: Grid, p: Cell)
    requires g.Valid() && g.row == 2 && g.col == 3 && g.Adjacent(p, Cell(0, 2))
    ensures p == Cell(0, 1) || p == Cell(1, 2)
  {
    assert g.InRange(p);
  }

  /** When (0,2) cannot be entered from (0,1), it is not pushed before the goal. */
  lemma CornerUnseen(g: Grid, t: Turn, s: Search)
    requires g.Valid() && g.row == 2 && g.col == 3 && t.found
    requires NearerParents(g, s) && SeenNear(s) && GoalLast(g, t, s)
    requires Cell(0, 1) !in g.open || Cell(0, 2) !in g.open
    ensures Cell(0, 2) !in s.seen
  {
    var c := Cell(0, 2);
    if c in s.seen {
      assert c in s.parent;
      assert NearerParent(g, s, c, s.parent[c]);
      CornerNeighbours(g, s.parent[c]);
    }
  }

  lemma CornerOutlives(row: int, s: Search)
    requires row == 2 && forall c :: c in s.seen ==> 0 <= c.x < row && 0 <= c.y < 3
    requires Cell(0, 2) !in s.seen
    ensures forall c :: c in s.seen ==> Outlives(row, s, c)
  {
    forall b, c | b in s.seen && c in s.seen && b != c
      ensures Slot(row, b) != Slot(row, c)
    {
      if Slot(row, b) == Slot(row, c) {
        SharedSlot23(row, b, c);
      }
    }
  }

  lemma CornerShut(g: Grid, t: Turn)
    requires g.Valid() && g.row == 2 && g.col == 3 && Running(g, t) && t.found && t.inside
    requires Cell(0, 1) !in g.open || Cell(0, 2) !in g.open
    ensures RightAt(g, t)
  {
    var s :| Follows(g, t, s);
    CornerUnseen(g, t, s);
    assert forall c :: c in s.seen ==> c in g.open && g.InRange(c);
    CornerOutlives(g.row, s);
    TraceSeen(g, s, g.Goal());
    HeldIsRight(g, t, s);
  }

  /** The edges still to be walked are among those of the maze. */
  ghost predicate Among(g: Grid, edges: set<(Cell, Cell)>) {
    forall a, b :: (a, b) in edges ==> g.Adjacent(a, b)
  }

  ghost predicate Corner(g: Grid) {
    && g.Valid() && g.row == 2 && g.col == 3
    && START in g.open && Cell(0, 1) in g.open && Cell(0, 2) in g.open && Cell(1, 2) in g.open
  }

  lemma NoWayFrom(g: Grid, edges: set<(Cell, Cell)>, c: Cell, d: Direction)
    requires g.Valid() && Among(g, edges) && !g.InRange(Neighbour(c, d))
    ensures (c, Neighbour(c, d)) !in edges
  {
  }

  /** After the first turn: (0,1) is in front, its parent stored. */
  ghost predicate Second(g: Grid, t: Turn) {
    && !t.found && |t.slots| == 6 && t.slots[1] == START && Among(g, t.edges)
    && 1 <= |t.queue| <= 2 && t.queue[0] == Cell(0, 1) && (|t.queue| == 2 ==> t.queue[1] == Cell(1, 0))
    && (Cell(0, 1), Cell(0, 2)) in t.edges && (Cell(0, 2), Cell(1, 2)) in t.edges
    && (Cell(0, 1), START) !in t.edges && (Cell(1, 0), START) !in t.edges
  }

  lemma Skip(g: Grid, t: Turn, d: Direction)
    requires t.queue != [] && (t.queue[0], Neighbour(t.queue[0], d)) !in t.edges
    ensures DoWay(g, t, d) == t
  {
  }

  /** After the first way: (0,1) is pushed. */
  ghost predicate FirstPush(g: Grid, t: Turn) {
    && !t.found && |t.slots| == 6 && t.slots[1] == START && Among(g, t.edges)
    && t.queue == [START, Cell(0, 1)]
    && (Cell(0, 1), Cell(0, 2)) in t.edges && (Cell(0, 2), Cell(1, 2)) in t.edges
    && (Cell(0, 1), START) !in t.edges
    && ((Cell(1, 0), START) in t.edges ==> (START, Cell(1, 0)) in t.edges)
  }

  lemma FirstWayOf23(g: Grid, slots: seq<Cell>)
    requires Corner(g) && |slots| == 6
    ensures FirstPush(g, DoWay(g, FirstTurn(g, slots), Right))
  {
    var t := FirstTurn(g, slots);
    assert (START, Cell(0, 1)) in t.edges;
    assert (Cell(0, 1), Cell(0, 2)) in t.edges && (Cell(0, 2), Cell(1, 2)) in t.edges;
  }

  lemma FirstDownOf23(g: Grid, t: Turn)
    requires Corner(g) && FirstPush(g, t)
    ensures var u := DoWay(g, t, Down);
      Second(g, u.(queue := u.queue[1..]))
  {
  }

  lemma FirstTurnOf23(g: Grid, slots: seq<Cell>)
    requires Corner(g) && |slots| == 6
    ensures Second(g, DoTurn(g, FirstTurn(g, slots)))
  {
    FirstWayOf23(g, slots);
    var u := DoWay(g, FirstTurn(g, slots), Right);
    NoWayFrom(g, u.edges, START, Left);
    Skip(g, u, Left);
    NoWayFrom(g, u.edges, START, Up);
    Skip(g, u, Up);
    FirstDownOf23(g, u);
  }

  /** After it, until (0,2) is in front: its parent is stored. */
  ghost predicate Third(g: Grid, t: Turn) {
    && !t.found && |t.slots| == 6 && t.slots[1] == START && t.slots[2] == Cell(0, 1) && Among(g, t.edges)
    && (Cell(0, 2), Cell(0, 1)) !in t.edges && (Cell(0, 2), Cell(1, 2)) in t.edges && (Cell(1, 0), START) !in t.edges
    && t.queue != []
    && (t.queue[0] == Cell(0, 2) || (|t.queue| > 1 && t.queue[0] == Cell(1, 0) && t.queue[1] == Cell(0, 2)))
  }

  /** In between: (0,2) is pushed. */
  ghost predicate SecondPush(g: Grid, t: Turn) {
    && !t.found && |t.slots| == 6 && t.slots[1] == START && t.slots[2] == Cell(0, 1) && Among(g, t.edges)
    && (Cell(0, 2), Cell(0, 1)) !in t.edges && (Cell(0, 2), Cell(1, 2)) in t.edges
    && (Cell(0, 1), START) !in t.edges && (Cell(1, 0), START) !in t.edges
    && |t.queue| >= 2 && t.queue[0] == Cell(0, 1)
    && (t.queue[1] == Cell(0, 2) || (|t.queue| > 2 && t.queue[1] == Cell(1, 0) && t.queue[2] == Cell(0, 2)))
  }

  lemma SecondWayOf23(g: Grid, t: Turn)
    requires Corner(g) && Second(g, t)
    ensures SecondPush(g, DoWay(g, t, Right))
  {
    var u := DoWay(g, t, Right);
    assert u.slots == t.slots[2 := Cell(0, 1)];
    assert u.queue[|t.queue|] == Cell(0, 2);
    if |t.queue| == 2 {
      assert u.queue[1] == t.queue[1];
    }
  }

  lemma SecondDownOf23(g: Grid, t: Turn)
    requires Corner(g) && SecondPush(g, t)
    ensures var u := DoWay(g, t, Down);
      Third(g, u.(queue := u.queue[1..]))
  {
  }

  lemma SecondTurnOf23(g: Grid, t: Turn)
    requires Corner(g) && Second(g, t)
    ensures Third(g, DoTurn(g, t))
  {
    SecondWayOf23(g, t);
    var u := DoWay(g, t, Right);
    Skip(g, u, Left);
    NoWayFrom(g, u.edges, Cell(0, 1), Up);
    Skip(g, u, Up);
    SecondDownOf23(g, u);
  }

  lemma ThirdWayOf23(g: Grid, t: Turn)
    requires Corner(g) && Third(g, t) && t.queue[0] == Cell(1, 0)
    ensures var u := DoWay(g, t, Right);
      Third(g, u) && u.queue[0] == Cell(1, 0)
  {
    var u := DoWay(g, t, Right);
    assert u.queue[0] == t.queue[0] && u.queue[1] == t.queue[1];
  }

  lemma ThirdTurnOf23(g: Grid, t: Turn)
    requires Corner(g) && Third(g, t) && t.queue[0] == Cell(1, 0)
    ensures Third(g, DoTurn(g, t)) && DoTurn(g, t).queue[0] == Cell(0, 2)
  {
    ThirdWayOf23(g, t);
    var u := DoWay(g, t, Right);
    NoWayFrom(g, u.edges, Cell(1, 0), Left);
    Skip(g, u, Left);
    Skip(g, u, Up);
    NoWayFrom(g, u.edges, Cell(1, 0), Down);
    Skip(g, u, Down);
    assert DoTurn(g, t) == u.(queue := u.queue[1..]);
  }

  /** The goal is entered from (0,2). */
  ghost predicate Last(g: Grid, t: Turn) {
    && t.found && |t.slots| == 6
    && t.slots[1] == START && t.slots[2] == Cell(0, 1) && t.slots[4] == Cell(0, 2)
  }

  lemma LastTurnOf23(g: Grid, t: Turn)
    requires Corner(g) && Third(g, t) && t.queue[0] == Cell(0, 2)
    ensures Last(g, DoTurn(g, t))
  {
    NoWayFrom(g, t.edges, Cell(0, 2), Right);
    NoWayFrom(g, t.edges, Cell(0, 2), Up);
    assert DoWay(g, DoWay(g, DoWay(g, t, Right), Left), Up) == t;
    assert DoWay(g, t, Down).found;
  }

  lemma CornerEnds(g: Grid, slots: seq<Cell>) returns (n: nat)
    requires Corner(g) && |slots| == 6
    ensures Last(g, DoTurns(g, FirstTurn(g, slots), n))
  {
    var t := FirstTurn(g, slots);
    FirstTurnOf23(g, slots);
    var u := DoTurn(g, t);
    SecondTurnOf23(g, u);
    var v := DoTurn(g, u);
    n := 2;
    assert DoTurns(g, t, n) == v;
    if v.queue[0] == Cell(1, 0) {
      ThirdTurnOf23(g, v);
      OneMoreTurn(g, t, n);
      v, n := DoTurn(g, v), n + 1;
    }
    LastTurnOf23(g, v);
    OneMoreTurn(g, t, n);
    n := n + 1;
  }

  const CORNER_PATH := [START, Cell(0, 1), Cell(0, 2), Cell(1, 2)]

  lemma CornerWalk(g: Grid)
    requires Corner(g)
    ensures ShortestWalk(g, CORNER_PATH, g.Goal())
  {
    assert WalkTo(g, CORNER_PATH, g.Goal());
    forall q | WalkTo(g, q, g.Goal())
      ensures |CORNER_PATH| <= |q|
    {
      assert Steps(g, g.Goal(), |q| - 1);
      Manhattan(g, g.Goal(), |q| - 1);
    }
  }

  lemma LinkedFour(slots: seq<Cell>, g: Grid, b: Cell, c: Cell, d: Cell)
    requires g.InRange(START) && g.InRange(b) && g.InRange(c) && g.InRange(d)
    requires b != START && c != START && d != START
    requires Holds(slots, g.row, b, START) && Holds(slots, g.row, c, b) && Holds(slots, g.row, d, c)
    ensures Linked(slots, g, [START, b, c, d])
  {
  }

  lemma HoldsLow(slots: seq<Cell>, row: int, c: Cell, p: Cell, i: nat)
    requires (c.x == 0 && i == c.y) || (c.x == 1 && i == row + c.y)
    requires i < |slots| && slots[i] == p
    ensures Holds(slots, row, c, p)
  {
    LowSlots(row, c);
  }

  lemma CornerHolds(slots: seq<Cell>, row: int)
    requires row == 2 && |slots| == 6 && slots[1] == START && slots[2] == Cell(0, 1) && slots[4] == Cell(0, 2)
    ensures Holds(slots, row, Cell(0, 1), START)
    ensures Holds(slots, row, Cell(0, 2), Cell(0, 1))
    ensures Holds(slots, row, Cell(1, 2), Cell(0, 2))
  {
    HoldsLow(slots, row, Cell(0, 1), START, 1);
    HoldsLow(slots, row, Cell(0, 2), Cell(0, 1), 2);
    HoldsLow(slots, row, Cell(1, 2), Cell(0, 2), 4);
  }

  lemma CornerLinked(g: Grid, t: Turn)
    requires Corner(g) && Last(g, t)
    ensures Linked(t.slots, g, CORNER_PATH)
  {
    CornerHolds(t.slots, g.row);
    LinkedFour(t.slots, g, Cell(0, 1), Cell(0, 2), Cell(1, 2));
  }

  lemma CornerOpen(g: Grid, t: Turn)
    requires Corner(g) && Last(g, t) && t.inside
    ensures RightAt(g, t)
  {
    CornerWalk(g);
    CornerLinked(g, t);
  }

  lemma TwoByThree(g: Grid, slots: seq<Cell>)
    requires HasShape(g, slots, 2, 3)
    ensures TraceRight(g, slots)
  {
    if START in g.open {
      forall n: nat | DoTurns(g, FirstTurn(g, slots), n).found
        ensures RightAt(g, DoTurns(g, FirstTurn(g, slots), n))
      {
        RunInside(g, slots, n);
        TwoByThreeAt(g, slots, n);
      }
    }
  }

  lemma TwoByThreeAt(g: Grid, slots: seq<Cell>, n: nat)
    requires HasShape(g, slots, 2, 3) && START in g.open
    requires var t := DoTurns(g, FirstTurn(g, slots), n);
      t.found && t.inside && Running(g, t)
    ensures RightAt(g, DoTurns(g, FirstTurn(g, slots), n))
  {
    var t := DoTurns(g, FirstTurn(g, slots), n);
    if Cell(0, 1) in g.open && Cell(0, 2) in g.open {
      GoalOpen(g, t);
      var m := CornerEnds(g, slots);
      TurnsEnd(g, FirstTurn(g, slots), m, n);
      CornerOpen(g, t);
    } else {
      CornerShut(g, t);
    }
  }

  lemma GoalOpen(g: Grid, t: Turn)
    requires Running(g, t) && t.found
    ensures g.Goal() in g.open
  {
    var s :| Follows(g, t, s);
  }

  // ---------- shapes on which some trace is wrong ----------

  /** The step to (1,0) is forced, and the cell of row 0 with its slot comes later. */
  lemma SpoiledCorner(g: Grid, slots: seq<Cell>, k: nat, m: nat)
    requires WellSized(g, slots) && 2 <= g.row < g.col
    requires Distance(g, Cell(0, g.row), k) && Distance(g, g.Goal(), m) && 1 < k < m
    requires forall p :: ShortestWalk(g, p, g.Goal()) ==> |p| > 1 && p[1] == Cell(1, 0)
    ensures !TraceRight(g, slots)
  {
    var c := Cell(1, 0);
    var p := ShortestTo(g, g.Goal(), m);
    assert Walk(g, p) && p[1] == c;
    WalkPrefix(g, p, 1);
    Manhattan(g, c, 1);
    ManhattanDistance(g, c, 1);
    LowSlots(g.row, c);
    LowSlots(g.row, Cell(0, g.row));
    SpoiledTrace(g, slots, c, Cell(0, g.row), 1, k, m);
  }

  lemma ShortestTo(g: Grid, c: Cell, m: nat) returns (p: seq<Cell>)
    requires Distance(g, c, m)
    ensures ShortestWalk(g, p, c)
  {
    p :| WalkTo(g, p, c) && |p| == m + 1;
    forall q | WalkTo(g, q, c)
      ensures |p| <= |q|
    {
      assert Steps(g, c, |q| - 1);
    }
  }

  /** Three rows or more: the first column, the last row, and a dead end along row 0. */
  ghost function DeadEnd(row: int, col: int): Grid {
    Grid(row, col,
         set x, y | 0 <= x < row && 0 <= y < col && (y == 0 || x == row - 1 || (x == 0 && y <= row)) :: Cell(x, y))
  }

  lemma DeadEndNear(row: int, col: int) returns (k: nat)
    requires 3 <= row < col
    ensures Distance(DeadEnd(row, col), Cell(0, row), k) && k == row
  {
    var g := DeadEnd(row, col);
    var p := seq(row + 1, i => Cell(0, i));
    assert forall i :: 0 <= i <= row ==> p[i] in g.open;
    assert WalkTo(g, p, Cell(0, row));
    k := row;
    assert Steps(g, Cell(0, row), k);
    ManhattanDistance(g, Cell(0, row), k);
  }

  lemma {:induction false} IntoDeadEnd(row: int, col: int, p: seq<Cell>, i: nat)
    requires 3 <= row < col && Walk(DeadEnd(row, col), p) && 1 <= i < |p| && i <= row + 1
    requires forall j :: 0 <= j < |p| ==> p[j].x + p[j].y == j
    requires p[1] == Cell(0, 1)
    ensures i <= row && p[i] == Cell(0, i)
    decreases i
  {
    if i > 1 {
      IntoDeadEnd(row, col, p, i - 1);
      assert DeadEnd(row, col).Adjacent(p[i - 1], p[i]);
    }
  }

  /** On a walk no longer than going straight, every move goes right or down. */
  lemma StraightWalk(g: Grid, p: seq<Cell>, i: nat)
    requires WalkTo(g, p, g.Goal()) && |p| == g.row + g.col - 1 && i < |p|
    ensures p[i].x + p[i].y == i
  {
    SumGrows(g, p, 0, i);
    SumGrows(g, p, i, |p| - 1);
  }

  lemma ShortestIsStraight(g: Grid, p: seq<Cell>)
    requires g.Valid() && HasEll(g) && ShortestWalk(g, p, g.Goal())
    ensures |p| == g.row + g.col - 1
  {
    EllWalk(g);
    var q :| WalkTo(g, q, g.Goal()) && |q| == g.row + g.col - 1;
    assert Steps(g, g.Goal(), |p| - 1);
    Manhattan(g, g.Goal(), |p| - 1);
  }

  lemma DeadEndAvoided(row: int, col: int, p: seq<Cell>)
    requires 3 <= row < col && ShortestWalk(DeadEnd(row, col), p, DeadEnd(row, col).Goal())
    ensures |p| > 1 && p[1] == Cell(1, 0)
  {
    var g := DeadEnd(row, col);
    ShortestIsStraight(g, p);
    forall j | 0 <= j < |p|
      ensures p[j].x + p[j].y == j
    {
      StraightWalk(g, p, j);
    }
    assert g.Adjacent(p[0], p[1]);
    if p[1] == Cell(0, 1) {
      IntoDeadEnd(row, col, p, row + 1);
    }
  }

  lemma ManyRows(row: int, col: int, slots: seq<Cell>)
    requires 3 <= row < col && |slots| == row * col
    ensures HasShape(DeadEnd(row, col), slots, row, col) && !TraceRight(DeadEnd(row, col), slots)
  {
    var g := DeadEnd(row, col);
    var k := DeadEndNear(row, col);
    EllWalk(g);
    forall p | ShortestWalk(g, p, g.Goal())
      ensures |p| > 1 && p[1] == Cell(1, 0)
    {
      DeadEndAvoided(row, col, p);
    }
    SpoiledCorner(g, slots, k, row + col - 2);
  }

  /** Two rows: the first cell, the second row, and (0,2) above it. */
  ghost function Stub(col: int): Grid {
    Grid(2, col, set x, y | 0 <= x < 2 && 0 <= y < col && (y == 0 || x == 1 || y == 2) :: Cell(x, y))
  }

  lemma StubNear(col: int) returns (k: nat)
    requires 5 <= col
    ensures Distance(Stub(col), Cell(0, 2), k) && 2 <= k <= 4
  {
    var g := Stub(col);
    var p := [START, Cell(1, 0), Cell(1, 1), Cell(1, 2), Cell(0, 2)];
    assert WalkTo(g, p, Cell(0, 2));
    k := ShortestExists(g, Cell(0, 2), 4);
    Manhattan(g, Cell(0, 2), k);
  }

  lemma TwoRows(col: int, slots: seq<Cell>)
    requires 5 <= col && |slots| == 2 * col
    ensures HasShape(Stub(col), slots, 2, col) && !TraceRight(Stub(col), slots)
  {
    var g := Stub(col);
    var k := StubNear(col);
    EllWalk(g);
    forall p | ShortestWalk(g, p, g.Goal())
      ensures |p| > 1 && p[1] == Cell(1, 0)
    {
      ShortestIsStraight(g, p);
      assert g.Adjacent(p[0], p[1]);
    }
    SpoiledCorner(g, slots, k, col);
  }

  /** More rows than columns: the first column and the last row. */
  ghost function Ell(row: int, col: int): Grid {
    Grid(row, col, set x, y | 0 <= x < row && 0 <= y < col && (y == 0 || x == row - 1) :: Cell(x, y))
  }

  lemma TooManyRows(row: int, col: int, slots: seq<Cell>)
    requires 1 <= col < row && |slots| == row * col
    ensures HasShape(Ell(row, col), slots, row, col) && !TraceRight(Ell(row, col), slots)
  {
    var g := Ell(row, col);
    EllWalk(g);
    StepsReach(g, g.Goal(), row + col - 2);
    StartOpen(g, g.Goal(), row + col - 2);
    var n := TurnsDone(g, FirstTurn(g, slots));
    FirstRuns(g, slots);
    TurnsRun(g, FirstTurn(g, slots), n);
    EndFindsGoal(g, DoTurns(g, FirstTurn(g, slots), n));
    FoundOutside(g, slots, n);
  }

  lemma TwoByFour(slots: seq<Cell>)
    requires |slots| == 8
    ensures HasShape(BfsNonSquare.Maze24(), slots, 2, 4) && !TraceRight(BfsNonSquare.Maze24(), slots)
  {
    BfsNonSquare.TraceOf24(slots);
  }

  lemma UnsoundShape(row: int, col: int) returns (g: Grid, slots: seq<Cell>)
    requires 1 <= row && 1 <= col && !SoundShape(row, col)
    ensures HasShape(g, slots, row, col) && !TraceRight(g, slots)
  {
    TimesGrows(row, 0, col);
    slots := seq(row * col, _ => START);
    if col < row {
      g := Ell(row, col);
      TooManyRows(row, col, slots);
    } else if 3 <= row {
      g := DeadEnd(row, col);
      ManyRows(row, col, slots);
    } else if 5 <= col {
      g := Stub(col);
      TwoRows(col, slots);
    } else {
      g := BfsNonSquare.Maze24();
      TwoByFour(slots);
    }
  }

  lemma SoundTraceRight(g: Grid, slots: seq<Cell>)
    requires HasShape(g, slots, g.row, g.col) && SoundShape(g.row, g.col)
    ensures TraceRight(g, slots)
  {
    if g.row == 2 && g.col == 3 {
      TwoByThree(g, slots);
    } else {
      NothingShared(g);
      UnspoiledTraceRight(g, slots);
    }
  }

  /** Every maze of a shape is traced rightly, whatever the slots held before, exactly
      when the shape is a single row, a square, or two rows of three columns. */
  lemma TracesRightIff(row: int, col: int)
    requires 1 <= row && 1 <= col
    ensures AllTracesRight(row, col) <==> SoundShape(row, col)
  {
    if SoundShape(row, col) {
      forall g: Grid, slots: seq<Cell> | HasShape(g, slots, row, col)
        ensures TraceRight(g, slots)
      {
        SoundTraceRight(g, slots);
      }
    } else {
      var g, slots := UnsoundShape(row, col);
    }
  }
}
