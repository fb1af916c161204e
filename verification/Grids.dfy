/** The square-celled maze both searches walk on: cells, open cells, walks from
    the start, distances, and the array of nodes with their four direction flags. */
module Grids {

  datatype Cell = Cell(x: int, y: int)

  datatype Direction = Right | Down | Left | Up

  /** A node of the maze: its value (0 is open, 1 is a wall) and, for each
      direction, whether the way to that neighbour is still to be walked. */
  datatype Node = Node(val: int, right: bool, down: bool, left: bool, up: bool) {
    predicate Flag(d: Direction) {
      match d
      case Right => right
      case Down => down
      case Left => left
      case Up => up
    }

    function SetFlag(d: Direction, b: bool): Node {
      match d
      case Right => this.(right := b)
      case Down => this.(down := b)
      case Left => this.(left := b)
      case Up => this.(up := b)
    }
  }

  function Neighbour(c: Cell, d: Direction): Cell {
    match d
    case Right => Cell(c.x, c.y + 1)
    case Down => Cell(c.x + 1, c.y)
    case Left => Cell(c.x, c.y - 1)
    case Up => Cell(c.x - 1, c.y)
  }

  function Opposite(d: Direction): Direction {
    match d
    case Right => Left
    case Down => Up
    case Left => Right
    case Up => Down
  }

  // ---------- the abstract maze ----------

  datatype Grid = Grid(row: int, col: int, open: set<Cell>) {
    ghost predicate Valid() {
      && 1 <= row && 1 <= col
      && forall c :: c in open ==> InRange(c)
    }

    predicate InRange(c: Cell) {
      0 <= c.x < row && 0 <= c.y < col
    }

    function Goal(): Cell {
      Cell(row - 1, col - 1)
    }

    predicate Adjacent(a: Cell, b: Cell) {
      && a in open && b in open
      && (|| (a.x == b.x && (b.y == a.y + 1 || b.y == a.y - 1))
          || (a.y == b.y && (b.x == a.x + 1 || b.x == a.x - 1)))
    }

    /** Every ordered pair of adjacent open cells. */
    ghost function AllEdges(): set<(Cell, Cell)> {
      set a, b | a in open && b in open && Adjacent(a, b) :: (a, b)
    }
  }

  const START := Cell(0, 0)

  /** A non-empty walk over adjacent open cells that begins at the start. */
  ghost predicate Walk(g: Grid, p: seq<Cell>) {
    && p != [] && p[0] == START && START in g.open
    && forall i, j :: 0 <= i < j < |p| && j == i + 1 ==> g.Adjacent(p[i], p[j])
  }

  ghost predicate WalkTo(g: Grid, p: seq<Cell>, c: Cell) {
    Walk(g, p) && p[|p| - 1] == c
  }

  /** Some walk of exactly k moves leads from the start to c. */
  ghost predicate Steps(g: Grid, c: Cell, k: nat) {
    exists p :: WalkTo(g, p, c) && |p| == k + 1
  }

  ghost predicate Reachable(g: Grid, c: Cell) {
    exists p :: WalkTo(g, p, c)
  }

  /** k is the length of a shortest walk to c. */
  ghost predicate Distance(g: Grid, c: Cell, k: nat) {
    && Steps(g, c, k)
    && forall j: nat :: j < k ==> !Steps(g, c, j)
  }

  lemma StepsExtend(g: Grid, a: Cell, b: Cell, k: nat)
    requires Steps(g, a, k) && g.Adjacent(a, b)
    ensures Steps(g, b, k + 1)
  {
    var p :| WalkTo(g, p, a) && |p| == k + 1;
    assert WalkTo(g, p + [b], b);
  }

  lemma StepsShorten(g: Grid, b: Cell, k: nat) returns (a: Cell)
    requires Steps(g, b, k + 1)
    ensures Steps(g, a, k) && g.Adjacent(a, b)
  {
    var p :| WalkTo(g, p, b) && |p| == k + 2;
    a := p[k];
    assert WalkTo(g, p[..k + 1], a);
  }

  /** The grid is bipartite: every walk to a cell has the same parity. */
  lemma {:induction false} StepsParity(g: Grid, c: Cell, k: nat)
    requires Steps(g, c, k)
    ensures (c.x + c.y + k) % 2 == 0
    decreases k
  {
    if k == 0 {
      var p :| WalkTo(g, p, c) && |p| == 1;
    } else {
      var a := StepsShorten(g, c, k - 1);
      StepsParity(g, a, k - 1);
    }
  }

  lemma {:induction false} ShortestExists(g: Grid, c: Cell, k: nat) returns (m: nat)
    requires Steps(g, c, k)
    ensures m <= k && Distance(g, c, m)
    decreases k
  {
    if j: nat :| j < k && Steps(g, c, j) {
      m := ShortestExists(g, c, j);
    } else {
      m := k;
    }
  }

  lemma DistanceUnique(g: Grid, c: Cell, k: nat, m: nat)
    requires Distance(g, c, k) && Distance(g, c, m)
    ensures k == m
  {
  }

  /** A cell one move further out has a neighbour that is one move nearer. */
  lemma DistancePredecessor(g: Grid, c: Cell, k: nat) returns (a: Cell)
    requires Distance(g, c, k + 1)
    ensures Distance(g, a, k) && g.Adjacent(a, c)
  {
    a := StepsShorten(g, c, k);
    forall j: nat | j < k
      ensures !Steps(g, a, j)
    {
      if Steps(g, a, j) {
        StepsExtend(g, a, c, j);
      }
    }
  }

  /** Adjacent cells lie exactly one level apart; they are never on the same one. */
  lemma NeighbourDistance(g: Grid, a: Cell, b: Cell, k: nat) returns (m: nat)
    requires Distance(g, a, k) && g.Adjacent(a, b)
    ensures Distance(g, b, m) && (m == k + 1 || m + 1 == k)
  {
    StepsExtend(g, a, b, k);
    m := ShortestExists(g, b, k + 1);
    StepsParity(g, a, k);
    StepsParity(g, b, m);
    if m + 1 < k {
      assert g.Adjacent(b, a);
      StepsExtend(g, b, a, m);
    }
  }

  // ---------- what both searches keep ----------

  /** The edges still to be walked, the cells ever pushed and the cells now in the
      queue or on the stack. An edge is used up only between pushed cells, and a
      pushed cell that has left the frontier has no edge left. */
  ghost predicate Explored(g: Grid, edges: set<(Cell, Cell)>, seen: set<Cell>, frontier: seq<Cell>) {
    && g.Valid() && START in seen && seen <= g.open
    && (forall c :: c in frontier ==> c in seen)
    && (forall a, b :: (a, b) in edges ==> g.Adjacent(a, b) && (b, a) in edges)
    && (forall a, b :: g.Adjacent(a, b) && (a, b) !in edges ==> a in seen && b in seen)
    && (forall a, b :: a in seen && a !in frontier ==> (a, b) !in edges)
  }

  function Without(edges: set<(Cell, Cell)>, a: Cell, b: Cell): set<(Cell, Cell)> {
    edges - {(a, b), (b, a)}
  }

  lemma ExploredAtStart(g: Grid)
    requires g.Valid() && START in g.open
    ensures Explored(g, g.AllEdges(), {START}, [START])
  {
  }

  /** Walking an edge and pushing its far end keeps the invariant. */
  lemma ExploredWalk(g: Grid, edges: set<(Cell, Cell)>, seen: set<Cell>, frontier: seq<Cell>, a: Cell, b: Cell)
    requires Explored(g, edges, seen, frontier)
    requires a in frontier && (a, b) in edges
    ensures Explored(g, Without(edges, a, b), seen + {b}, frontier + [b])
    ensures |Without(edges, a, b)| == |edges| - 2
  {
    assert a != b && (b, a) in edges;
    assert |edges - {(a, b)} - {(b, a)}| == |edges| - 2;
    assert edges - {(a, b)} - {(b, a)} == Without(edges, a, b);
  }

  /** When nothing is left in the frontier, every reachable cell was pushed. */
  lemma {:induction false} ExhaustedReachesAll(g: Grid, edges: set<(Cell, Cell)>, seen: set<Cell>, c: Cell, k: nat)
    requires Explored(g, edges, seen, [])
    requires Steps(g, c, k)
    ensures c in seen
    decreases k
  {
    if k == 0 {
      var p :| WalkTo(g, p, c) && |p| == 1;
    } else {
      var a := StepsShorten(g, c, k - 1);
      ExhaustedReachesAll(g, edges, seen, a, k - 1);
    }
  }

  lemma ReachableSteps(g: Grid, c: Cell)
    ensures Reachable(g, c) <==> exists k: nat :: Steps(g, c, k)
  {
    if Reachable(g, c) {
      var p :| WalkTo(g, p, c);
      assert Steps(g, c, |p| - 1);
    }
  }

  // ---------- the array of nodes ----------

  /** The maze an array of nodes describes: cells holding 0 are open, cells holding 1 are walls. */
  ghost predicate Shows(m: array2<Node>, g: Grid)
    reads m
  {
    && g.Valid() && g.row == m.Length0 && g.col == m.Length1
    && forall x, y :: 0 <= x < m.Length0 && 0 <= y < m.Length1 ==>
         m[x, y].val == (if Cell(x, y) in g.open then 0 else 1)
  }

  /** The direction flags of one node say which of its edges are left. */
  ghost predicate Flags(n: Node, edges: set<(Cell, Cell)>, c: Cell) {
    forall d :: n.Flag(d) <==> (c, Neighbour(c, d)) in edges
  }

  /** A node without flags has no edge left. */
  lemma NoWayOut(g: Grid, n: Node, edges: set<(Cell, Cell)>, c: Cell)
    requires Flags(n, edges, c)
    requires forall x, y :: (x, y) in edges ==> g.Adjacent(x, y)
    requires !n.right && !n.left && !n.up && !n.down
    ensures forall b :: (c, b) !in edges
  {
    forall b | g.Adjacent(c, b)
      ensures (c, b) !in edges
    {
      var d := if b.y == c.y + 1 then Right else if b.y == c.y - 1 then Left else if b.x == c.x + 1 then Down else Up;
      assert b == Neighbour(c, d);
      assert !n.Flag(d);
    }
  }

  ghost predicate Mirrors(m: array2<Node>, edges: set<(Cell, Cell)>)
    reads m
  {
    forall x, y :: 0 <= x < m.Length0 && 0 <= y < m.Length1 ==> Flags(m[x, y], edges, Cell(x, y))
  }

  /** The maze an array of zeros and ones shows. */
  ghost function GridOf(m: array2<Node>): Grid
    reads m
  {
    Grid(m.Length0, m.Length1,
         set x, y | 0 <= x < m.Length0 && 0 <= y < m.Length1 && m[x, y].val == 0 :: Cell(x, y))
  }

  lemma GridOfShows(m: array2<Node>)
    requires 1 <= m.Length0 && 1 <= m.Length1
    requires forall x, y :: 0 <= x < m.Length0 && 0 <= y < m.Length1 ==> m[x, y].val == 0 || m[x, y].val == 1
    ensures Shows(m, GridOf(m))
  {
  }

  /** The flags of one open cell: a way leads to each open neighbour. */
  method OpenWays(m: array2<Node>, i: int, j: int, ghost g: Grid) returns (node: Node)
    requires Shows(m, g) && g.InRange(Cell(i, j))
    requires m[i, j] == Node(0, false, false, false, false)
    ensures Flags(node, g.AllEdges(), Cell(i, j)) && node.val == 0
  {
    node := m[i, j];
    if j < m.Length1 - 1 && m[i, j + 1].val == 0 {
      node := node.(right := true);
    }
    if i < m.Length0 - 1 && m[i + 1, j].val == 0 {
      node := node.(down := true);
    }
    if j > 0 && m[i, j - 1].val == 0 {
      node := node.(left := true);
    }
    if i > 0 && m[i - 1, j].val == 0 {
      node := node.(up := true);
    }
  }

  /** Marks, for every open cell, the directions that lead to an open neighbour. */
  method SetNodeState(m: array2<Node>, ghost g: Grid)
    requires Shows(m, g)
    requires forall x, y :: 0 <= x < m.Length0 && 0 <= y < m.Length1 ==>
               m[x, y] == Node(m[x, y].val, false, false, false, false)
    modifies m
    ensures Shows(m, g) && Mirrors(m, g.AllEdges())
  {
    ghost var edges := g.AllEdges();
    for i := 0 to m.Length0
      invariant Shows(m, g)
      invariant forall x, y :: 0 <= x < i && 0 <= y < m.Length1 ==> Flags(m[x, y], edges, Cell(x, y))
      invariant forall x, y :: i <= x < m.Length0 && 0 <= y < m.Length1 ==> m[x, y] == old(m[x, y])
    {
      SetRowState(m, i, g);
    }
  }

  /** One row of it. */
  method SetRowState(m: array2<Node>, i: int, ghost g: Grid)
    requires Shows(m, g) && 0 <= i < m.Length0
    requires forall y :: 0 <= y < m.Length1 ==> m[i, y] == Node(m[i, y].val, false, false, false, false)
    modifies m
    ensures Shows(m, g)
    ensures forall y :: 0 <= y < m.Length1 ==> Flags(m[i, y], g.AllEdges(), Cell(i, y))
    ensures forall x, y :: 0 <= x < m.Length0 && 0 <= y < m.Length1 && x != i ==> m[x, y] == old(m[x, y])
  {
    for j := 0 to m.Length1
      invariant Shows(m, g)
      invariant forall y :: 0 <= y < j ==> Flags(m[i, y], g.AllEdges(), Cell(i, y))
      invariant forall y :: j <= y < m.Length1 ==> m[i, y] == old(m[i, y])
      invariant forall x, y :: 0 <= x < m.Length0 && 0 <= y < m.Length1 && x != i ==> m[x, y] == old(m[x, y])
    {
      if m[i, j].val == 1 {
        continue;
      }
      var node := OpenWays(m, i, j, g);
      m[i, j] := node;
    }
  }

  /** One node once the edge from c in direction d is walked: only its two ends change. */
  function AfterWalk(n: Node, at: Cell, c: Cell, d: Direction): Node {
    if at == c then n.SetFlag(d, false)
    else if at == Neighbour(c, d) then n.SetFlag(Opposite(d), false)
    else n
  }

  lemma NeighboursDiffer(c: Cell, d: Direction, e: Direction)
    ensures Neighbour(c, e) == Neighbour(c, d) <==> e == d
    ensures Neighbour(Neighbour(c, d), e) == c <==> e == Opposite(d)
    ensures Neighbour(c, d) != c
  {
  }

  lemma FlagsAfterWalk(n: Node, edges: set<(Cell, Cell)>, at: Cell, c: Cell, d: Direction)
    requires Flags(n, edges, at)
    ensures Flags(AfterWalk(n, at, c, d), Without(edges, c, Neighbour(c, d)), at)
    ensures AfterWalk(n, at, c, d).val == n.val
  {
    forall e
      ensures AfterWalk(n, at, c, d).Flag(e) <==> (at, Neighbour(at, e)) in Without(edges, c, Neighbour(c, d))
    {
      assert n.Flag(e) <==> (at, Neighbour(at, e)) in edges;
      NeighboursDiffer(c, d, e);
      SetFlagFlag(n, d, e);
      SetFlagFlag(n, Opposite(d), e);
    }
  }

  lemma SetFlagFlag(n: Node, d: Direction, e: Direction)
    ensures n.SetFlag(d, false).Flag(e) <==> n.Flag(e) && e != d
  {
  }

  /** Marks the way from c in direction d as walked, at both of its ends. */
  method TakeEdge(m: array2<Node>, c: Cell, d: Direction, ghost g: Grid, ghost edges: set<(Cell, Cell)>)
    requires Shows(m, g) && Mirrors(m, edges)
    requires g.InRange(c) && g.InRange(Neighbour(c, d))
    modifies m
    ensures Shows(m, g) && Mirrors(m, Without(edges, c, Neighbour(c, d)))
  {
    var n := Neighbour(c, d);
    m[c.x, c.y] := m[c.x, c.y].SetFlag(d, false);
    m[n.x, n.y] := m[n.x, n.y].SetFlag(Opposite(d), false);
    forall x, y | 0 <= x < m.Length0 && 0 <= y < m.Length1
      ensures m[x, y].val == old(m[x, y].val)
      ensures Flags(m[x, y], Without(edges, c, n), Cell(x, y))
    {
      FlagsAfterWalk(old(m[x, y]), edges, Cell(x, y), c, d);
      assert m[x, y] == AfterWalk(old(m[x, y]), Cell(x, y), c, d);
    }
  }
}
