/** The depth-first maze search. It keeps no visited set: walking an edge uses it
    up in both directions, and that alone makes the search stop and be complete. */
module DfsMaze {
  import opened Grids

  /** The i-th move of a walk. */
  function Move(p: seq<Cell>, i: int): (Cell, Cell)
    requires 0 <= i < |p| - 1
  {
    (p[i], p[i + 1])
  }

  function Back(m: (Cell, Cell)): (Cell, Cell) {
    (m.1, m.0)
  }

  /** No edge of the walk is used twice, in either direction. */
  ghost predicate EdgeSimple(p: seq<Cell>) {
    forall i, j :: 0 <= i < j < |p| - 1 ==> Move(p, i) != Move(p, j) && Move(p, i) != Back(Move(p, j))
  }

  /** Every edge of the walk has been used up. */
  ghost predicate UsedUp(edges: set<(Cell, Cell)>, p: seq<Cell>) {
    forall i :: 0 <= i < |p| - 1 ==> Move(p, i) !in edges && Back(Move(p, i)) !in edges
  }

  ghost predicate Searching(g: Grid, edges: set<(Cell, Cell)>, seen: set<Cell>, stack: seq<Cell>) {
    && Explored(g, edges, seen, stack)
    && (stack != [] ==> Walk(g, stack))
    && EdgeSimple(stack) && UsedUp(edges, stack)
    && (g.Goal() in seen ==> stack != [] && stack[|stack| - 1] == g.Goal())
  }

  /** A walk of used-up edges stays edge-simple when it continues over an unused one. */
  lemma SimpleExtend(edges: set<(Cell, Cell)>, p: seq<Cell>, a: Cell, b: Cell)
    requires EdgeSimple(p) && UsedUp(edges, p) && p != [] && p[|p| - 1] == a
    requires (a, b) in edges
    ensures EdgeSimple(p + [b]) && UsedUp(Without(edges, a, b), p + [b])
  {
    var q := p + [b];
    assert forall i :: 0 <= i < |p| - 1 ==> Move(q, i) == Move(p, i);
    assert Move(q, |p| - 1) == (a, b);
  }

  lemma PushKeepsSearching(g: Grid, edges: set<(Cell, Cell)>, seen: set<Cell>, stack: seq<Cell>, a: Cell, b: Cell)
    requires Searching(g, edges, seen, stack) && stack != []
    requires stack[|stack| - 1] == a != g.Goal() && (a, b) in edges
    ensures Searching(g, Without(edges, a, b), seen + {b}, stack + [b])
    ensures |Without(edges, a, b)| < |edges|
  {
    ExploredWalk(g, edges, seen, stack, a, b);
    SimpleExtend(edges, stack, a, b);
    assert Walk(g, stack + [b]) by {
      assert g.Adjacent(a, b);
    }
  }

  lemma PopKeepsSearching(g: Grid, edges: set<(Cell, Cell)>, seen: set<Cell>, stack: seq<Cell>, a: Cell)
    requires Searching(g, edges, seen, stack) && stack != []
    requires stack[|stack| - 1] == a != g.Goal()
    requires forall b :: (a, b) !in edges
    ensures Searching(g, edges, seen, stack[..|stack| - 1])
  {
    var rest := stack[..|stack| - 1];
    assert forall c :: c in stack ==> c in rest || c == a;
    assert forall i :: 0 <= i < |rest| - 1 ==> Move(rest, i) == Move(stack, i);
  }

  lemma EmptyMeansUnreachable(g: Grid, edges: set<(Cell, Cell)>, seen: set<Cell>)
    requires Searching(g, edges, seen, [])
    ensures !Reachable(g, g.Goal())
  {
    if Reachable(g, g.Goal()) {
      ReachableSteps(g, g.Goal());
      var k: nat :| Steps(g, g.Goal(), k);
      ExhaustedReachesAll(g, edges, seen, g.Goal(), k);
    }
  }

  lemma TopIsWalked(g: Grid, edges: set<(Cell, Cell)>, seen: set<Cell>, stack: seq<Cell>, top: Cell)
    requires Searching(g, edges, seen, stack) && stack != [] && top == stack[|stack| - 1]
    ensures WalkTo(g, stack, top) && top in seen && g.InRange(top)
  {
    assert top in stack;
  }

  class Maze {
    const pMaze: array2<Node>
    var stack: seq<Cell>

    constructor (row: int, col: int)
      requires 1 <= row && 1 <= col
      ensures pMaze.Length0 == row && pMaze.Length1 == col && fresh(pMaze) && stack == []
    {
      pMaze := new Node[row, col]((_, _) => Node(0, false, false, false, false));
      stack := [];
    }

    method InitNode(x: int, y: int, data: int)
      requires 0 <= x < pMaze.Length0 && 0 <= y < pMaze.Length1
      modifies pMaze
      ensures pMaze[x, y] == Node(data, false, false, false, false)
      ensures forall i, j :: 0 <= i < pMaze.Length0 && 0 <= j < pMaze.Length1 && (i, j) != (x, y) ==>
                pMaze[i, j] == old(pMaze[i, j])
    {
      pMaze[x, y] := Node(data, false, false, false, false);
    }

    /** Walks from the top of the stack in direction d. */
    method Advance(top: Cell, d: Direction, ghost g: Grid, ghost edges: set<(Cell, Cell)>)
      requires Shows(pMaze, g) && Mirrors(pMaze, edges)
      requires g.InRange(top) && g.InRange(Neighbour(top, d))
      modifies pMaze, this`stack
      ensures Shows(pMaze, g) && Mirrors(pMaze, Without(edges, top, Neighbour(top, d)))
      ensures stack == old(stack) + [Neighbour(top, d)]
    {
      TakeEdge(pMaze, top, d, g, edges);
      stack := stack + [Neighbour(top, d)];
    }

    /** On every maze the search ends. The stack then holds, bottom to top, a walk
        from the start to the goal that uses no edge twice; it is empty exactly
        when the goal cannot be reached. */
    method SearchMazePath(ghost g: Grid)
      requires Shows(pMaze, g) && Mirrors(pMaze, g.AllEdges()) && stack == []
      modifies pMaze, this`stack
      ensures Shows(pMaze, g)
      ensures stack == [] <==> !Reachable(g, g.Goal())
      ensures stack != [] ==> WalkTo(g, stack, g.Goal()) && EdgeSimple(stack)
    {
      if pMaze[0, 0].val == 1 {
        return;
      }
      stack := stack + [START];
      ghost var edges, seen := g.AllEdges(), {START};
      ExploredAtStart(g);

      while stack != []
        invariant Shows(pMaze, g) && Mirrors(pMaze, edges)
        invariant Searching(g, edges, seen, stack)
        decreases |edges|, |stack|
      {
        var top := stack[|stack| - 1];
        TopIsWalked(g, edges, seen, stack, top);
        if top == Cell(pMaze.Length0 - 1, pMaze.Length1 - 1) {
          return;
        }
        assert Flags(pMaze[top.x, top.y], edges, top);
        var way: Direction;
        if pMaze[top.x, top.y].right {
          way := Right;
        } else if pMaze[top.x, top.y].left {
          way := Left;
        } else if pMaze[top.x, top.y].up {
          way := Up;
        } else if pMaze[top.x, top.y].down {
          way := Down;
        } else {
          NoWayOut(g, pMaze[top.x, top.y], edges, top);
          PopKeepsSearching(g, edges, seen, stack, top);
          stack := stack[..|stack| - 1];
          continue;
        }
        assert pMaze[top.x, top.y].Flag(way);
        PushKeepsSearching(g, edges, seen, stack, top, Neighbour(top, way));
        Advance(top, way, g, edges);
        edges, seen := Without(edges, top, Neighbour(top, way)), seen + {Neighbour(top, way)};
      }
      EmptyMeansUnreachable(g, edges, seen);
    }
  }
}
