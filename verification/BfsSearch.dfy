/** The breadth-first maze search as a function on values, and what all its runs keep.
    There is no visited set and a cell can be pushed once per edge, its parent being
    overwritten each time; as long as cells do not share slots of the parent vector the
    path traced back from the goal is a shortest one all the same. */
module BfsSearch {
  import opened Grids

  // ---------- the slots of the parent vector ----------

  /** The index the search computes for a cell: it multiplies by the number of rows. */
  function Slot(row: int, c: Cell): int {
    c.x * row + c.y
  }

  predicate InVector(row: int, col: int, c: Cell) {
    0 <= Slot(row, c) < row * col
  }

  ghost predicate SlotsInBounds(row: int, col: int) {
    forall c: Cell :: 0 <= c.x < row && 0 <= c.y < col ==> InVector(row, col, c)
  }

  ghost predicate SlotsDistinct(row: int, col: int) {
    forall a: Cell, b: Cell ::
      0 <= a.x < row && 0 <= a.y < col && 0 <= b.x < row && 0 <= b.y < col && Slot(row, a) == Slot(row, b) ==> a == b
  }

  lemma TimesGrows(k: nat, a: nat, b: nat)
    requires a <= b
    ensures 0 <= a * k == k * a <= k * b == b * k
  {
    assert k * b - k * a == k * (b - a) >= 0;
  }

  lemma SlotBound(row: int, col: int, c: Cell)
    requires row <= col && 0 <= c.x < row && 0 <= c.y < col
    ensures 0 <= Slot(row, c) < row * col
  {
    TimesGrows(row, c.x, row - 1);
    TimesGrows(row - 1, row, col);
    assert (row - 1) * col + col == row * col;
  }

  lemma SlotOrder(row: int, a: Cell, b: Cell)
    requires 0 <= a.x < b.x && 0 <= a.y < row && 0 <= b.y
    ensures Slot(row, a) < Slot(row, b)
  {
    assert (a.x + 1) * row <= b.x * row;
  }

  lemma SlotInjective(row: int, col: int, a: Cell, b: Cell)
    requires row == 1 || row == col
    requires 0 <= a.x < row && 0 <= a.y < col && 0 <= b.x < row && 0 <= b.y < col
    requires a != b
    ensures Slot(row, a) != Slot(row, b)
  {
    if a.x < b.x {
      SlotOrder(row, a, b);
    } else if b.x < a.x {
      SlotOrder(row, b, a);
    }
  }

  /** A cell's slot lies inside the vector, unless the cell is in a row there is no column for. */
  lemma SlotInsideIff(row: int, col: int, c: Cell)
    requires 0 <= c.x < row && 0 <= c.y < col
    ensures InVector(row, col, c) <==> row <= col || c.x < col
  {
    if row <= col {
      SlotBound(row, col, c);
    } else if c.x < col {
      TimesGrows(row, c.x, col - 1);
      assert row * col == row * (col - 1) + row;
    } else {
      TimesGrows(row, col, c.x);
    }
  }

  /** Every slot lies inside the vector exactly when there are no more rows than columns. */
  lemma SlotsInBoundsIff(row: int, col: int)
    requires 1 <= row && 1 <= col
    ensures SlotsInBounds(row, col) <==> row <= col
  {
    if row <= col {
      forall c: Cell | 0 <= c.x < row && 0 <= c.y < col
        ensures InVector(row, col, c)
      {
        SlotInsideIff(row, col, c);
      }
    } else {
      SlotInsideIff(row, col, Cell(row - 1, 0));
    }
  }

  lemma SlotsCollide(row: int, col: int)
    requires 2 <= row < col
    ensures !SlotsDistinct(row, col)
  {
    var a, b := Cell(0, row), Cell(1, 0);
    assert Slot(row, a) == Slot(row, b) && a != b;
  }

  /** No two cells share a slot inside the vector exactly when the maze is square or
      has a single row; on any other shape a cell's parent overwrites another's. */
  lemma SlotsSoundIff(row: int, col: int)
    requires 1 <= row && 1 <= col
    ensures SlotsInBounds(row, col) && SlotsDistinct(row, col) <==> row == 1 || row == col
  {
    SlotsInBoundsIff(row, col);
    if row == 1 || row == col {
      forall a: Cell, b: Cell | 0 <= a.x < row && 0 <= a.y < col && 0 <= b.x < row && 0 <= b.y < col && a != b
        ensures Slot(row, a) != Slot(row, b)
      {
        SlotInjective(row, col, a, b);
      }
    } else if row < col {
      SlotsCollide(row, col);
    }
  }

  // ---------- the search on values ----------

  /** What the search has done: the edges left, the cells pushed, the queue, and for
      each cell its level and the last parent stored for it; and how many pushes were
      made and how many edges (counted once per direction) are left. */
  datatype Search = Search(edges: set<(Cell, Cell)>, seen: set<Cell>, queue: seq<Cell>,
                           level: map<Cell, nat>, parent: map<Cell, Cell>, pushes: nat, left: nat)

  function Level(s: Search, c: Cell): nat {
    if c in s.level then s.level[c] else 0
  }

  /** The levels are the true distances, the queue is ordered by them and spans at
      most two of them, and every stored parent is exactly one move nearer. */
  ghost predicate Levelled(g: Grid, s: Search) {
    && Explored(g, s.edges, s.seen, s.queue)
    && TrueLevels(g, s) && QueueOrdered(s) && NearerParents(g, s)
    && |s.edges| == s.left && 2 * (s.pushes - 1) + s.left == |g.AllEdges()|
  }

  ghost predicate TrueLevels(g: Grid, s: Search) {
    && s.level.Keys == s.seen
    && forall c {:trigger TrueLevel(g, s, c)} :: c in s.seen ==> TrueLevel(g, s, c)
  }

  ghost predicate TrueLevel(g: Grid, s: Search, c: Cell) {
    Distance(g, c, Level(s, c))
  }

  ghost predicate QueueOrdered(s: Search) {
    && (forall i, j :: 0 <= i <= j < |s.queue| ==> Level(s, s.queue[i]) <= Level(s, s.queue[j]))
    && (forall i :: 0 <= i < |s.queue| ==> Level(s, s.queue[i]) <= Level(s, s.queue[0]) + 1)
  }

  ghost predicate NearerParents(g: Grid, s: Search) {
    && s.parent.Keys == s.seen - {START}
    && forall c :: c in s.parent ==> NearerParent(g, s, c, s.parent[c])
  }

  ghost predicate NearerParent(g: Grid, s: Search, c: Cell, p: Cell) {
    p in s.seen && g.Adjacent(p, c) && Level(s, p) + 1 == Level(s, c)
  }

  ghost function Begin(g: Grid): Search {
    Search(g.AllEdges(), {START}, [START], map[START := 0], map[], 1, |g.AllEdges()|)
  }

  /** Walking the edge from the front of the queue to b. */
  ghost function Visit(s: Search, b: Cell): Search
    requires s.queue != [] && s.left >= 2
  {
    var a := s.queue[0];
    Search(Without(s.edges, a, b), s.seen + {b}, s.queue + [b], s.level[b := Level(s, a) + 1], s.parent[b := a],
           s.pushes + 1, s.left - 2)
  }

  lemma BeginLevelled(g: Grid)
    requires g.Valid() && START in g.open
    ensures Levelled(g, Begin(g))
  {
    ExploredAtStart(g);
    assert WalkTo(g, [START], START);
    assert Steps(g, START, 0);
    assert TrueLevel(g, Begin(g), START);
  }

  /** Every cell no further out than the front of the queue has been pushed. */
  lemma {:induction false} NearCellsSeen(g: Grid, s: Search, c: Cell, k: nat)
    requires Levelled(g, s) && s.queue != []
    requires Distance(g, c, k) && k <= Level(s, s.queue[0])
    ensures c in s.seen
    decreases k
  {
    if k == 0 {
      var p :| WalkTo(g, p, c) && |p| == 1;
    } else {
      var a := DistancePredecessor(g, c, k - 1);
      NearCellsSeen(g, s, a, k - 1);
      assert TrueLevel(g, s, a);
      DistanceUnique(g, a, k - 1, Level(s, a));
      assert a !in s.queue;
      assert (a, c) !in s.edges;
    }
  }

  lemma NearerCellsDone(g: Grid, s: Search, c: Cell, k: nat)
    requires Levelled(g, s) && s.queue != []
    requires Distance(g, c, k) && k < Level(s, s.queue[0])
    ensures forall b :: (c, b) !in s.edges
  {
    NearCellsSeen(g, s, c, k);
    assert TrueLevel(g, s, c);
    DistanceUnique(g, c, k, Level(s, c));
    assert c !in s.queue;
  }

  /** An edge still there at the front of the queue leads one level further out: the
      parity of the grid rules out the same level, and a nearer cell has no edge left. */
  lemma EdgesLeadOutwards(g: Grid, s: Search, b: Cell)
    requires Levelled(g, s) && s.queue != [] && (s.queue[0], b) in s.edges
    ensures Distance(g, b, Level(s, s.queue[0]) + 1)
  {
    var a := s.queue[0];
    assert a in s.queue && TrueLevel(g, s, a);
    var m := NeighbourDistance(g, a, b, Level(s, a));
    if m + 1 == Level(s, a) {
      NearerCellsDone(g, s, b, m);
      assert false;
    }
  }

  lemma EdgesComeInPairs(g: Grid, s: Search, a: Cell, b: Cell)
    requires Levelled(g, s) && (a, b) in s.edges
    ensures s.left >= 2
  {
    var pair := {(a, b), (b, a)};
    assert pair <= s.edges && |pair| == 2;
    assert |s.edges - pair| == |s.edges| - |pair|;
  }

  lemma VisitLevels(g: Grid, s: Search, b: Cell)
    requires Levelled(g, s) && s.queue != [] && (s.queue[0], b) in s.edges && s.left >= 2
    ensures TrueLevels(g, Visit(s, b)) && b != START
    ensures Level(Visit(s, b), b) == Level(s, s.queue[0]) + 1
    ensures forall c :: c in s.seen ==> Level(Visit(s, b), c) == Level(s, c)
  {
    EdgesLeadOutwards(g, s, b);
    var t := Visit(s, b);
    assert TrueLevel(g, s, b) || b !in s.seen;
    if b in s.seen {
      DistanceUnique(g, b, Level(s, b), Level(s, s.queue[0]) + 1);
    }
    assert WalkTo(g, [START], START) && Steps(g, START, 0);
    forall c | c in t.seen
      ensures TrueLevel(g, t, c)
    {
      assert c == b || TrueLevel(g, s, c);
    }
  }

  lemma VisitParents(g: Grid, s: Search, b: Cell)
    requires Levelled(g, s) && s.queue != [] && (s.queue[0], b) in s.edges && s.left >= 2
    ensures NearerParents(g, Visit(s, b))
  {
    var t := Visit(s, b);
    VisitLevels(g, s, b);
    forall c | c in t.parent
      ensures NearerParent(g, t, c, t.parent[c])
    {
      if c != b {
        assert NearerParent(g, s, c, s.parent[c]);
      }
    }
  }

  lemma VisitKeepsLevelled(g: Grid, s: Search, b: Cell)
    requires Levelled(g, s) && s.queue != [] && (s.queue[0], b) in s.edges
    ensures s.left >= 2 && Levelled(g, Visit(s, b)) && b != START
  {
    EdgesComeInPairs(g, s, s.queue[0], b);
    var t := Visit(s, b);
    VisitLevels(g, s, b);
    VisitParents(g, s, b);
    ExploredWalk(g, s.edges, s.seen, s.queue, s.queue[0], b);
    assert forall i :: 0 <= i < |s.queue| ==> t.queue[i] == s.queue[i] && t.queue[i] in s.seen;
  }

  lemma PopKeepsLevelled(g: Grid, s: Search, a: Cell)
    requires Levelled(g, s) && s.queue != [] && a == s.queue[0]
    requires forall b :: (a, b) !in s.edges
    ensures Levelled(g, s.(queue := s.queue[1..]))
  {
    var t := s.(queue := s.queue[1..]);
    assert forall c :: c in s.queue ==> c == a || c in t.queue;
    forall c | c in t.seen
      ensures TrueLevel(g, t, c)
    {
      assert TrueLevel(g, s, c);
    }
    forall c | c in t.parent
      ensures NearerParent(g, t, c, t.parent[c])
    {
      assert NearerParent(g, s, c, s.parent[c]);
    }
  }

  // ---------- the search as a function ----------

  /** What the search reads and writes: the edges left, the queue, the slots of the
      parent vector and whether the goal was just pushed; besides, whether every write
      so far fell inside the vector, and the pushes made. */
  datatype Turn = Turn(edges: set<(Cell, Cell)>, queue: seq<Cell>, slots: seq<Cell>, found: bool,
                       inside: bool, pushes: nat)

  function Stored(slots: seq<Cell>, i: int, p: Cell): seq<Cell> {
    if 0 <= i < |slots| then slots[i := p] else slots
  }

  /** One direction block. */
  function DoWay(g: Grid, t: Turn, d: Direction): (u: Turn)
    requires t.queue != []
    ensures t.queue <= u.queue && |u.slots| == |t.slots|
  {
    var a := t.queue[0];
    var b := Neighbour(a, d);
    if t.found || (a, b) !in t.edges then t
    else Turn(Without(t.edges, a, b), t.queue + [b], Stored(t.slots, Slot(g.row, b), a), b == g.Goal(),
              t.inside && 0 <= Slot(g.row, b) < |t.slots|, t.pushes + 1)
  }

  function DoWays(g: Grid, t: Turn): (u: Turn)
    requires t.queue != []
    ensures u.queue != [] && |u.slots| == |t.slots|
  {
    DoWay(g, DoWay(g, DoWay(g, DoWay(g, t, Right), Left), Up), Down)
  }

  /** One turn of the loop. */
  function DoTurn(g: Grid, t: Turn): (u: Turn)
    requires t.queue != []
    ensures |u.slots| == |t.slots|
  {
    var u := DoWays(g, t);
    if u.found then u else u.(queue := u.queue[1..])
  }

  ghost predicate Ended(t: Turn) {
    t.found || t.queue == []
  }

  function DoTurns(g: Grid, t: Turn, n: nat): Turn
    decreases n
  {
    if n == 0 || t.found || t.queue == [] then t else DoTurns(g, DoTurn(g, t), n - 1)
  }

  ghost function FirstTurn(g: Grid, slots: seq<Cell>): Turn {
    Turn(g.AllEdges(), [START], slots, false, true, 1)
  }

  lemma {:induction false} OneMoreTurn(g: Grid, t: Turn, n: nat)
    requires !Ended(DoTurns(g, t, n))
    ensures DoTurns(g, t, n + 1) == DoTurn(g, DoTurns(g, t, n))
    decreases n
  {
    if n > 0 {
      OneMoreTurn(g, DoTurn(g, t), n - 1);
    }
  }

  /** A search that has ended is where every longer count of turns ends. */
  lemma {:induction false} TurnsEnd(g: Grid, t: Turn, m: nat, n: nat)
    requires Ended(DoTurns(g, t, m)) && Ended(DoTurns(g, t, n))
    ensures DoTurns(g, t, m) == DoTurns(g, t, n)
    decreases m + n
  {
    if !Ended(t) {
      assert m > 0 && n > 0;
      TurnsEnd(g, DoTurn(g, t), m - 1, n - 1);
    }
  }

  // ---------- what every run keeps ----------

  /** The edge from c in direction d is not there any more. */
  ghost predicate Used(edges: set<(Cell, Cell)>, c: Cell, d: Direction) {
    (c, Neighbour(c, d)) !in edges
  }

  lemma AllWaysWalked(g: Grid, edges: set<(Cell, Cell)>, a: Cell)
    requires forall x, y :: (x, y) in edges ==> g.Adjacent(x, y)
    requires Used(edges, a, Right) && Used(edges, a, Left) && Used(edges, a, Up) && Used(edges, a, Down)
    ensures forall b :: (a, b) !in edges
  {
    var n := Node(0, false, false, false, false);
    forall d: Direction
      ensures n.Flag(d) <==> (a, Neighbour(a, d)) in edges
    {
      assert d == Right || d == Left || d == Up || d == Down;
    }
    NoWayOut(g, n, edges, a);
  }

  ghost predicate Holds(slots: seq<Cell>, row: int, c: Cell, p: Cell) {
    0 <= Slot(row, c) < |slots| && slots[Slot(row, c)] == p
  }

  /** Whatever other pushed cells share the slot of c are nearer to the start. */
  ghost predicate Outlives(row: int, s: Search, c: Cell) {
    forall b :: b in s.seen && b != c && Slot(row, b) == Slot(row, c) ==> Level(s, b) < Level(s, c)
  }

  /** A slot keeps the parent of the furthest cell it was written for. */
  ghost predicate LastHeld(g: Grid, slots: seq<Cell>, s: Search) {
    forall c :: c in s.parent && 0 <= Slot(g.row, c) < |slots| && Outlives(g.row, s, c) ==>
      Holds(slots, g.row, c, s.parent[c])
  }

  /** A cell held by a slot is never nearer than one level before any pushed cell that uses it. */
  ghost predicate HolderFar(g: Grid, slots: seq<Cell>, s: Search) {
    forall c :: c in s.parent && 0 <= Slot(g.row, c) < |slots| ==> FarEnough(s, slots[Slot(g.row, c)], c)
  }

  ghost predicate FarEnough(s: Search, holder: Cell, c: Cell) {
    holder in s.seen && Level(s, c) <= Level(s, holder) + 1
  }

  ghost predicate SeenNear(s: Search) {
    s.queue != [] ==> forall c :: c in s.seen ==> Level(s, c) <= Level(s, s.queue[0]) + 1
  }

  ghost predicate WrittenInside(g: Grid, slots: seq<Cell>, s: Search) {
    forall c :: c in s.parent ==> 0 <= Slot(g.row, c) < |slots|
  }

  /** The goal is pushed last, from the front of the queue, or not at all. */
  ghost predicate GoalLast(g: Grid, t: Turn, s: Search) {
    if t.found then
      s.queue != [] && g.Goal() in s.seen && g.Goal() != START && Level(s, g.Goal()) == Level(s, s.queue[0]) + 1
    else
      g.Goal() in s.seen ==> g.Goal() == START
  }

  ghost predicate Follows(g: Grid, t: Turn, s: Search) {
    && Levelled(g, s) && SeenNear(s)
    && t.edges == s.edges && t.queue == s.queue && t.pushes == s.pushes
    && LastHeld(g, t.slots, s) && HolderFar(g, t.slots, s)
    && (t.inside <==> WrittenInside(g, t.slots, s)) && GoalLast(g, t, s)
  }

  ghost predicate Running(g: Grid, t: Turn) {
    exists s :: Follows(g, t, s)
  }

  lemma FirstRuns(g: Grid, slots: seq<Cell>)
    requires g.Valid() && START in g.open
    ensures Running(g, FirstTurn(g, slots))
  {
    BeginLevelled(g);
    assert Follows(g, FirstTurn(g, slots), Begin(g));
  }

  lemma VisitHolds(g: Grid, slots: seq<Cell>, s: Search, b: Cell)
    requires Levelled(g, s) && SeenNear(s) && LastHeld(g, slots, s)
    requires s.queue != [] && (s.queue[0], b) in s.edges && s.left >= 2
    ensures LastHeld(g, Stored(slots, Slot(g.row, b), s.queue[0]), Visit(s, b))
  {
    var t, a := Visit(s, b), s.queue[0];
    var after := Stored(slots, Slot(g.row, b), a);
    VisitLevels(g, s, b);
    forall c | c in t.parent && 0 <= Slot(g.row, c) < |after| && Outlives(g.row, t, c)
      ensures Holds(after, g.row, c, t.parent[c])
    {
      if c != b {
        assert b in t.seen && c in s.seen;
        assert Slot(g.row, b) != Slot(g.row, c);
        assert Outlives(g.row, s, c);
      }
    }
  }

  lemma VisitFar(g: Grid, slots: seq<Cell>, s: Search, b: Cell)
    requires Levelled(g, s) && SeenNear(s) && HolderFar(g, slots, s)
    requires s.queue != [] && (s.queue[0], b) in s.edges && s.left >= 2
    ensures HolderFar(g, Stored(slots, Slot(g.row, b), s.queue[0]), Visit(s, b))
  {
    var t, a := Visit(s, b), s.queue[0];
    var after := Stored(slots, Slot(g.row, b), a);
    VisitLevels(g, s, b);
    assert a in s.queue && a in s.seen;
    forall c | c in t.parent && 0 <= Slot(g.row, c) < |after|
      ensures FarEnough(t, after[Slot(g.row, c)], c)
    {
      assert c == b || c in s.seen;
      if Slot(g.row, c) != Slot(g.row, b) {
        assert FarEnough(s, slots[Slot(g.row, c)], c);
      }
    }
  }

  lemma VisitSeenNear(g: Grid, s: Search, b: Cell)
    requires Levelled(g, s) && SeenNear(s) && s.queue != [] && (s.queue[0], b) in s.edges && s.left >= 2
    ensures SeenNear(Visit(s, b))
  {
    VisitLevels(g, s, b);
    assert s.queue[0] in s.queue;
    assert Visit(s, b).queue[0] == s.queue[0];
  }

  lemma VisitInside(g: Grid, slots: seq<Cell>, s: Search, b: Cell)
    requires s.queue != [] && s.left >= 2
    ensures WrittenInside(g, Stored(slots, Slot(g.row, b), s.queue[0]), Visit(s, b))
       <==> WrittenInside(g, slots, s) && 0 <= Slot(g.row, b) < |slots|
  {
    var t := Visit(s, b);
    assert b in t.parent;
    assert forall c :: c in t.parent <==> c in s.parent || c == b;
  }

  lemma VisitGoal(g: Grid, t: Turn, s: Search, b: Cell, u: Turn)
    requires Levelled(g, s) && s.queue != [] && (s.queue[0], b) in s.edges && s.left >= 2
    requires GoalLast(g, t, s) && !t.found && (u.found <==> b == g.Goal())
    ensures GoalLast(g, u, Visit(s, b))
  {
    VisitLevels(g, s, b);
    assert s.queue[0] in s.queue && Visit(s, b).queue[0] == s.queue[0];
  }

  lemma WayFollows(g: Grid, t: Turn, s: Search, d: Direction)
    requires Follows(g, t, s) && t.queue != [] && !t.found && (t.queue[0], Neighbour(t.queue[0], d)) in t.edges
    ensures s.left >= 2 && Follows(g, DoWay(g, t, d), Visit(s, Neighbour(t.queue[0], d)))
  {
    var b := Neighbour(t.queue[0], d);
    VisitKeepsLevelled(g, s, b);
    VisitHolds(g, t.slots, s, b);
    VisitFar(g, t.slots, s, b);
    VisitSeenNear(g, s, b);
    VisitInside(g, t.slots, s, b);
    VisitGoal(g, t, s, b, DoWay(g, t, d));
  }

  lemma WayRuns(g: Grid, t: Turn, d: Direction)
    requires Running(g, t) && t.queue != []
    ensures Running(g, DoWay(g, t, d))
  {
    if !t.found && (t.queue[0], Neighbour(t.queue[0], d)) in t.edges {
      var s :| Follows(g, t, s);
      WayFollows(g, t, s, d);
    }
  }

  lemma WaysRun(g: Grid, t: Turn)
    requires Running(g, t) && t.queue != []
    ensures Running(g, DoWays(g, t))
  {
    WayRuns(g, t, Right);
    var u := DoWay(g, t, Right);
    WayRuns(g, u, Left);
    var v := DoWay(g, u, Left);
    WayRuns(g, v, Up);
    WayRuns(g, DoWay(g, v, Up), Down);
  }

  lemma WayUses(g: Grid, t: Turn, d: Direction)
    requires t.queue != []
    ensures var u := DoWay(g, t, d);
      && u.queue[0] == t.queue[0] && u.edges <= t.edges
      && (t.found ==> u.found) && (u.found || Used(u.edges, t.queue[0], d))
  {
  }

  /** Unless the goal is found, all four ways of the front are used up. */
  lemma WaysUse(g: Grid, t: Turn)
    requires t.queue != []
    ensures var u := DoWays(g, t);
      && u.queue[0] == t.queue[0]
      && (u.found || forall d :: Used(u.edges, t.queue[0], d))
  {
    WayUses(g, t, Right);
    var u := DoWay(g, t, Right);
    WayUses(g, u, Left);
    var v := DoWay(g, u, Left);
    WayUses(g, v, Up);
    var w := DoWay(g, v, Up);
    WayUses(g, w, Down);
    forall d: Direction
      ensures DoWays(g, t).found || Used(DoWays(g, t).edges, t.queue[0], d)
    {
      match d
      case Right =>
      case Left =>
      case Up =>
      case Down =>
    }
  }

  lemma PopSeenNear(s: Search)
    requires SeenNear(s) && QueueOrdered(s) && s.queue != []
    ensures SeenNear(s.(queue := s.queue[1..]))
  {
    var t := s.(queue := s.queue[1..]);
    assert forall c :: Level(t, c) == Level(s, c);
  }

  lemma PopHolds(g: Grid, slots: seq<Cell>, s: Search, queue: seq<Cell>)
    requires LastHeld(g, slots, s) && HolderFar(g, slots, s)
    ensures LastHeld(g, slots, s.(queue := queue)) && HolderFar(g, slots, s.(queue := queue))
  {
    var t := s.(queue := queue);
    forall c | c in t.parent && 0 <= Slot(g.row, c) < |slots|
      ensures FarEnough(t, slots[Slot(g.row, c)], c)
    {
      assert FarEnough(s, slots[Slot(g.row, c)], c);
    }
    forall c | c in t.parent && 0 <= Slot(g.row, c) < |slots| && Outlives(g.row, t, c)
      ensures Holds(slots, g.row, c, t.parent[c])
    {
      assert forall b :: Level(t, b) == Level(s, b);
      assert Outlives(g.row, s, c);
    }
  }

  lemma PopFollows(g: Grid, t: Turn, s: Search)
    requires Follows(g, t, s) && t.queue != [] && !t.found
    requires forall d :: Used(t.edges, t.queue[0], d)
    ensures Follows(g, t.(queue := t.queue[1..]), s.(queue := s.queue[1..]))
  {
    AllWaysWalked(g, s.edges, s.queue[0]);
    PopKeepsLevelled(g, s, s.queue[0]);
    PopSeenNear(s);
    PopHolds(g, t.slots, s, s.queue[1..]);
    assert WrittenInside(g, t.slots, s.(queue := s.queue[1..])) <==> WrittenInside(g, t.slots, s);
  }

  lemma TurnRuns(g: Grid, t: Turn)
    requires Running(g, t) && t.queue != []
    ensures Running(g, DoTurn(g, t))
  {
    WaysRun(g, t);
    WaysUse(g, t);
    var u := DoWays(g, t);
    if !u.found {
      var s :| Follows(g, u, s);
      PopFollows(g, u, s);
    }
  }

  /** What every turn keeps, every number of turns keeps. */
  lemma {:induction false} TurnsKeep(g: Grid, t: Turn, n: nat, kept: Turn -> bool)
    requires kept(t)
    requires forall u {:trigger DoTurn(g, u)} :: kept(u) && u.queue != [] ==> kept(DoTurn(g, u))
    ensures kept(DoTurns(g, t, n))
    decreases n
  {
    if n > 0 && !Ended(t) {
      TurnsKeep(g, DoTurn(g, t), n - 1, kept);
    }
  }

  lemma TurnsRun(g: Grid, t: Turn, n: nat)
    requires Running(g, t)
    ensures Running(g, DoTurns(g, t, n))
  {
    var kept := (u: Turn) => Running(g, u);
    forall u | kept(u) && u.queue != []
      ensures kept(DoTurn(g, u))
    {
      TurnRuns(g, u);
    }
    TurnsKeep(g, t, n, kept);
  }

  lemma WayShrinks(g: Grid, t: Turn, d: Direction)
    requires t.queue != []
    ensures var u := DoWay(g, t, d);
      (u == t || |u.edges| < |t.edges|) && |u.edges| <= |t.edges|
  {
    var a, b := t.queue[0], Neighbour(t.queue[0], d);
    if (a, b) in t.edges {
      var less := Without(t.edges, a, b);
      assert less < t.edges;
      SmallerSet(less, t.edges);
    }
  }

  lemma SmallerSet<T>(a: set<T>, b: set<T>)
    requires a < b
    ensures |a| < |b|
  {
    assert b == a + (b - a) && a !! b - a;
    assert |b| == |a| + |b - a|;
    assert b - a != {};
  }

  /** A turn that does not find the goal uses up an edge or shortens the queue. */
  lemma TurnShrinks(g: Grid, t: Turn)
    requires t.queue != [] && !DoTurn(g, t).found
    ensures var u := DoTurn(g, t);
      |u.edges| < |t.edges| || (|u.edges| == |t.edges| && |u.queue| < |t.queue|)
  {
    WayShrinks(g, t, Right);
    var u := DoWay(g, t, Right);
    WayShrinks(g, u, Left);
    var v := DoWay(g, u, Left);
    WayShrinks(g, v, Up);
    WayShrinks(g, DoWay(g, v, Up), Down);
  }

  /** Every search ends. */
  lemma {:induction false} TurnsDone(g: Grid, t: Turn) returns (n: nat)
    ensures Ended(DoTurns(g, t, n))
    decreases !t.found, |t.edges|, |t.queue|
  {
    n := 0;
    if !Ended(t) {
      if !DoTurn(g, t).found {
        TurnShrinks(g, t);
      }
      var m := TurnsDone(g, DoTurn(g, t));
      n := m + 1;
    }
  }

  // ---------- the traced path ----------

  /** The cells from the start to c found by following the stored parents. */
  ghost function Trace(g: Grid, s: Search, c: Cell): seq<Cell>
    requires Levelled(g, s) && c in s.seen
    decreases Level(s, c)
  {
    if c == START then [START]
    else
      assert NearerParent(g, s, c, s.parent[c]);
      Trace(g, s, s.parent[c]) + [c]
  }

  ghost predicate ShortestWalk(g: Grid, p: seq<Cell>, c: Cell) {
    && WalkTo(g, p, c)
    && forall q :: WalkTo(g, q, c) ==> |p| <= |q|
  }

  lemma {:induction false} TraceIsWalk(g: Grid, s: Search, c: Cell)
    requires Levelled(g, s) && c in s.seen
    ensures WalkTo(g, Trace(g, s, c), c) && |Trace(g, s, c)| == Level(s, c) + 1
    decreases Level(s, c)
  {
    if c == START {
      assert WalkTo(g, [START], START);
      assert Steps(g, START, 0);
      assert TrueLevel(g, s, START);
    } else {
      assert NearerParent(g, s, c, s.parent[c]);
      TraceIsWalk(g, s, s.parent[c]);
    }
  }

  /** Whatever parents were overwritten, following them back is a shortest walk. */
  lemma TraceIsShortest(g: Grid, s: Search, c: Cell)
    requires Levelled(g, s) && c in s.seen
    ensures ShortestWalk(g, Trace(g, s, c), c)
  {
    TraceIsWalk(g, s, c);
    assert TrueLevel(g, s, c);
    forall q | WalkTo(g, q, c)
      ensures Level(s, c) + 1 <= |q|
    {
      assert Steps(g, c, |q| - 1);
    }
  }

  // ---------- what the search ends in ----------

  /** Pushed cells are reachable; once the queue is empty they are all of them. */
  lemma SeenIffReachable(g: Grid, s: Search)
    requires Levelled(g, s)
    ensures g.Goal() in s.seen ==> Reachable(g, g.Goal())
    ensures s.queue == [] && Reachable(g, g.Goal()) ==> g.Goal() in s.seen
  {
    if g.Goal() in s.seen {
      TraceIsWalk(g, s, g.Goal());
    }
    if s.queue == [] && Reachable(g, g.Goal()) {
      ReachableSteps(g, g.Goal());
      var k: nat :| Steps(g, g.Goal(), k);
      ExhaustedReachesAll(g, s.edges, s.seen, g.Goal(), k);
    }
  }

  /** A search that has ended found the goal exactly when it can be reached and is not
      the start itself. */
  lemma EndFindsGoal(g: Grid, t: Turn)
    requires Running(g, t) && Ended(t)
    ensures t.found <==> Reachable(g, g.Goal()) && g.Goal() != START
    ensures t.found <==> t.queue != []
  {
    var s :| Follows(g, t, s);
    SeenIffReachable(g, s);
  }

  lemma EndOfSearch(g: Grid, slots: seq<Cell>, n: nat)
    requires g.Valid() && START in g.open && Ended(DoTurns(g, FirstTurn(g, slots), n))
    ensures var t := DoTurns(g, FirstTurn(g, slots), n);
      && (t.found <==> Reachable(g, g.Goal()) && g.Goal() != START) && (t.found <==> t.queue != [])
      && 2 * (t.pushes - 1) + |t.edges| == |g.AllEdges()|
  {
    FirstRuns(g, slots);
    TurnsRun(g, FirstTurn(g, slots), n);
    EndFindsGoal(g, DoTurns(g, FirstTurn(g, slots), n));
    PushesBounded(g, DoTurns(g, FirstTurn(g, slots), n));
  }

  lemma PushesBounded(g: Grid, t: Turn)
    requires Running(g, t)
    ensures 2 * (t.pushes - 1) + |t.edges| == |g.AllEdges()|
  {
    var s :| Follows(g, t, s);
  }

  /** No reachable cell lies in a row there is no column for. */
  ghost predicate StaysInside(g: Grid) {
    g.row <= g.col || forall c :: Reachable(g, c) ==> c.x < g.col
  }

  lemma SeenReachable(g: Grid, s: Search, c: Cell)
    requires Levelled(g, s) && c in s.seen
    ensures Reachable(g, c) && g.InRange(c)
  {
    TraceIsWalk(g, s, c);
  }

  lemma InsideWhile(g: Grid, t: Turn)
    requires Running(g, t) && StaysInside(g) && |t.slots| == g.row * g.col
    ensures t.inside
  {
    var s :| Follows(g, t, s);
    forall c | c in s.parent
      ensures 0 <= Slot(g.row, c) < |t.slots|
    {
      SeenReachable(g, s, c);
      SlotInsideIff(g.row, g.col, c);
    }
  }

  lemma QueueInRange(g: Grid, t: Turn)
    requires Running(g, t)
    ensures g.Valid() && forall c :: c in t.queue ==> g.InRange(c)
  {
    var s :| Follows(g, t, s);
  }

  /** Every way left at the front leads to a cell of the maze whose slot is in the vector. */
  ghost predicate TurnSafe(g: Grid, t: Turn) {
    && t.queue != [] && g.InRange(t.queue[0])
    && forall d :: !Used(t.edges, t.queue[0], d) ==>
         g.InRange(Neighbour(t.queue[0], d)) && 0 <= Slot(g.row, Neighbour(t.queue[0], d)) < |t.slots|
  }

  lemma WayKeepsSafe(g: Grid, t: Turn, d: Direction)
    requires TurnSafe(g, t)
    ensures TurnSafe(g, DoWay(g, t, d)) && DoWay(g, t, d).queue[0] == t.queue[0]
  {
    var u := DoWay(g, t, d);
    forall e | !Used(u.edges, u.queue[0], e)
      ensures !Used(t.edges, t.queue[0], e)
    {
    }
  }

  lemma RunningSafe(g: Grid, t: Turn)
    requires Running(g, t) && !Ended(t) && StaysInside(g) && |t.slots| == g.row * g.col
    ensures TurnSafe(g, t)
  {
    QueueInRange(g, t);
    forall d | !Used(t.edges, t.queue[0], d)
      ensures g.InRange(Neighbour(t.queue[0], d)) && 0 <= Slot(g.row, Neighbour(t.queue[0], d)) < |t.slots|
    {
      var s :| Follows(g, t, s);
      assert g.Adjacent(t.queue[0], Neighbour(t.queue[0], d));
      WayRuns(g, t, d);
      InsideWhile(g, DoWay(g, t, d));
    }
  }

  lemma EveryTurnSafe(g: Grid, slots: seq<Cell>, n: nat)
    requires g.Valid() && START in g.open && StaysInside(g) && |slots| == g.row * g.col
    requires !Ended(DoTurns(g, FirstTurn(g, slots), n))
    ensures TurnSafe(g, DoTurns(g, FirstTurn(g, slots), n))
  {
    FirstRuns(g, slots);
    TurnsRun(g, FirstTurn(g, slots), n);
    SlotsStay(g, FirstTurn(g, slots), n);
    RunningSafe(g, DoTurns(g, FirstTurn(g, slots), n));
  }

  lemma OutsideSometime(g: Grid, t: Turn, c: Cell)
    requires Running(g, t) && Ended(t) && |t.slots| == g.row * g.col
    requires g.col < g.row && Reachable(g, c) && g.col <= c.x
    ensures !t.inside
  {
    var s :| Follows(g, t, s);
    var b := if t.found then g.Goal() else c;
    if !t.found {
      ReachableSteps(g, c);
      var k: nat :| Steps(g, c, k);
      ExhaustedReachesAll(g, s.edges, s.seen, c, k);
    }
    PushedOutside(g, t, s, b);
  }

  lemma PushedOutside(g: Grid, t: Turn, s: Search, c: Cell)
    requires Follows(g, t, s) && |t.slots| == g.row * g.col && c in s.seen && 1 <= g.col <= c.x && g.col < g.row
    ensures !t.inside
  {
    assert c in s.parent;
    SeenReachable(g, s, c);
    SlotInsideIff(g.row, g.col, c);
  }

  lemma {:induction false} SlotsStay(g: Grid, t: Turn, n: nat)
    ensures |DoTurns(g, t, n).slots| == |t.slots|
    decreases n
  {
    if n > 0 && !Ended(t) {
      SlotsStay(g, DoTurn(g, t), n - 1);
    }
  }

  /** A search never writes outside the parent vector exactly when no cell that can be
      reached lies in a row there is no column for. */
  lemma InsideIff(g: Grid, slots: seq<Cell>)
    requires g.Valid() && START in g.open && |slots| == g.row * g.col
    ensures (forall n: nat :: DoTurns(g, FirstTurn(g, slots), n).inside) <==> StaysInside(g)
  {
    var t := FirstTurn(g, slots);
    FirstRuns(g, slots);
    if StaysInside(g) {
      forall n: nat
        ensures DoTurns(g, t, n).inside
      {
        TurnsRun(g, t, n);
        SlotsStay(g, t, n);
        InsideWhile(g, DoTurns(g, t, n));
      }
    } else {
      var c :| Reachable(g, c) && g.col <= c.x;
      var n := TurnsDone(g, t);
      TurnsRun(g, t, n);
      SlotsStay(g, t, n);
      OutsideSometime(g, DoTurns(g, t, n), c);
    }
  }

  /** In particular every search that finds the goal of a maze with more rows than
      columns has written outside the vector. */
  lemma FoundOutside(g: Grid, slots: seq<Cell>, n: nat)
    requires g.Valid() && START in g.open && |slots| == g.row * g.col && g.col < g.row
    requires DoTurns(g, FirstTurn(g, slots), n).found
    ensures !DoTurns(g, FirstTurn(g, slots), n).inside
  {
    var t := DoTurns(g, FirstTurn(g, slots), n);
    FirstRuns(g, slots);
    TurnsRun(g, FirstTurn(g, slots), n);
    SlotsStay(g, FirstTurn(g, slots), n);
    EndFindsGoal(g, t);
    OutsideSometime(g, t, g.Goal());
  }

  // ---------- following the slots ----------

  /** The slot of each cell of the walk but the first holds the cell before it. */
  ghost predicate Linked(slots: seq<Cell>, g: Grid, p: seq<Cell>) {
    && p != [] && p[0] == START
    && (forall i :: 0 <= i < |p| ==> g.InRange(p[i]) && (p[i] == START ==> i == 0))
    && (forall i, j :: 0 <= i < j < |p| && j == i + 1 ==> Holds(slots, g.row, p[j], p[i]))
  }

  /** Following the slots back from a cell there is at most one way to the start. */
  lemma {:induction false} LinkedUnique(slots: seq<Cell>, g: Grid, p: seq<Cell>, q: seq<Cell>)
    requires Linked(slots, g, p) && Linked(slots, g, q) && p[|p| - 1] == q[|q| - 1]
    ensures p == q
    decreases |p|
  {
    if |p| > 1 && |q| > 1 {
      var i, j := |p| - 2, |q| - 2;
      assert Holds(slots, g.row, p[i + 1], p[i]) && Holds(slots, g.row, q[j + 1], q[j]);
      LinkedUnique(slots, g, p[..i + 1], q[..j + 1]);
      assert p == p[..i + 1] + [p[i + 1]] && q == q[..j + 1] + [q[j + 1]];
    }
  }

  /** The back-trace from c comes to the start after at most n reads, all inside. */
  ghost predicate ComesBack(slots: seq<Cell>, g: Grid, c: Cell, n: nat)
    decreases n
  {
    && g.InRange(c)
    && (c == START ||
        (n > 0 && 0 <= Slot(g.row, c) < |slots| && ComesBack(slots, g, slots[Slot(g.row, c)], n - 1)))
  }

  lemma {:induction false} BackIsLinked(slots: seq<Cell>, g: Grid, c: Cell, n: nat) returns (p: seq<Cell>)
    requires ComesBack(slots, g, c, n)
    ensures Linked(slots, g, p) && p[|p| - 1] == c
    decreases n
  {
    if c == START {
      p := [START];
    } else {
      var before := slots[Slot(g.row, c)];
      var q := BackIsLinked(slots, g, before, n - 1);
      p := q + [c];
      assert Holds(slots, g.row, c, before);
    }
  }

  lemma {:induction false} LinkedComesBack(slots: seq<Cell>, g: Grid, p: seq<Cell>)
    requires Linked(slots, g, p)
    ensures ComesBack(slots, g, p[|p| - 1], |p|)
    decreases |p|
  {
    var n := |p| - 1;
    if n > 0 {
      assert Holds(slots, g.row, p[n], p[n - 1]);
      LinkedComesBack(slots, g, p[..n]);
    }
  }

  ghost predicate TraceEnds(slots: seq<Cell>, g: Grid, c: Cell) {
    exists n: nat :: ComesBack(slots, g, c, n)
  }

  ghost predicate LinkedTo(slots: seq<Cell>, g: Grid, c: Cell) {
    exists p :: Linked(slots, g, p) && p[|p| - 1] == c
  }

  /** The back-trace from a cell ends, never reading outside, exactly when the slots link
      that cell to the start. */
  lemma TraceEndsIff(slots: seq<Cell>, g: Grid, c: Cell)
    ensures TraceEnds(slots, g, c) <==> LinkedTo(slots, g, c)
  {
    if TraceEnds(slots, g, c) {
      var n: nat :| ComesBack(slots, g, c, n);
      var p := BackIsLinked(slots, g, c, n);
    } else if LinkedTo(slots, g, c) {
      var p :| Linked(slots, g, p) && p[|p| - 1] == c;
      LinkedComesBack(slots, g, p);
    }
  }

  lemma {:induction false} TraceLinked(slots: seq<Cell>, g: Grid, s: Search, c: Cell)
    requires Levelled(g, s) && LastHeld(g, slots, s) && WrittenInside(g, slots, s) && c in s.seen
    requires forall b :: b in Trace(g, s, c) && b != START ==> Outlives(g.row, s, b)
    ensures Linked(slots, g, Trace(g, s, c))
    decreases Level(s, c)
  {
    TraceIsWalk(g, s, c);
    if c != START {
      var p := s.parent[c];
      assert NearerParent(g, s, c, p);
      assert Trace(g, s, c) == Trace(g, s, p) + [c] && c in Trace(g, s, c);
      assert Holds(slots, g.row, c, p);
      TraceLinked(slots, g, s, p);
      TraceIsWalk(g, s, p);
    }
  }

  lemma {:induction false} TraceSeen(g: Grid, s: Search, c: Cell)
    requires Levelled(g, s) && c in s.seen
    ensures forall b :: b in Trace(g, s, c) ==> b in s.seen
    decreases Level(s, c)
  {
    if c != START {
      assert NearerParent(g, s, c, s.parent[c]);
      TraceSeen(g, s, s.parent[c]);
    }
  }

  /** Nothing was written outside, and the slots followed back from the goal are a
      shortest walk. */
  ghost predicate RightAt(g: Grid, t: Turn) {
    t.inside && exists p :: Linked(t.slots, g, p) && ShortestWalk(g, p, g.Goal())
  }

  /** However many turns it takes, a search that finds the goal leaves a right trace. */
  ghost predicate TraceRight(g: Grid, slots: seq<Cell>) {
    START in g.open ==>
      forall n: nat :: DoTurns(g, FirstTurn(g, slots), n).found ==> RightAt(g, DoTurns(g, FirstTurn(g, slots), n))
  }

  /** Where the cells of one shortest walk share slots with nearer cells only, the trace
      is right, whatever other cells share slots. */
  lemma HeldIsRight(g: Grid, t: Turn, s: Search)
    requires Follows(g, t, s) && t.found && t.inside
    requires forall c :: c in Trace(g, s, g.Goal()) && c != START ==> Outlives(g.row, s, c)
    ensures RightAt(g, t)
  {
    TraceIsShortest(g, s, g.Goal());
    TraceLinked(t.slots, g, s, g.Goal());
  }

  /** However many turns it takes, from the goal a search finds the back-trace ends. */
  ghost predicate TracesEnd(g: Grid, slots: seq<Cell>) {
    START in g.open ==>
      forall n: nat :: DoTurns(g, FirstTurn(g, slots), n).found ==>
        LinkedTo(DoTurns(g, FirstTurn(g, slots), n).slots, g, g.Goal())
  }

  lemma RightTracesEnd(g: Grid, slots: seq<Cell>)
    requires TraceRight(g, slots)
    ensures TracesEnd(g, slots)
  {
    if START in g.open {
      forall n: nat | DoTurns(g, FirstTurn(g, slots), n).found
        ensures LinkedTo(DoTurns(g, FirstTurn(g, slots), n).slots, g, g.Goal())
      {
        assert RightAt(g, DoTurns(g, FirstTurn(g, slots), n));
      }
    }
  }

  /** The walk a search that found the goal leaves in the slots. */
  lemma TracedPath(g: Grid, slots: seq<Cell>, n: nat) returns (p: seq<Cell>)
    requires START in g.open && TracesEnd(g, slots) && DoTurns(g, FirstTurn(g, slots), n).found
    ensures Linked(DoTurns(g, FirstTurn(g, slots), n).slots, g, p) && p[|p| - 1] == g.Goal()
    ensures TraceRight(g, slots) ==> ShortestWalk(g, p, g.Goal())
  {
    var t := DoTurns(g, FirstTurn(g, slots), n);
    assert LinkedTo(t.slots, g, g.Goal());
    p :| Linked(t.slots, g, p) && p[|p| - 1] == g.Goal();
    if TraceRight(g, slots) {
      assert RightAt(g, t);
      var q :| Linked(t.slots, g, q) && ShortestWalk(g, q, g.Goal());
      LinkedUnique(t.slots, g, p, q);
    }
  }
}
