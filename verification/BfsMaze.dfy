/** The breadth-first maze program: it is proved to compute the search as a function, so
    what every run of that search keeps holds of it, and to star the path traced back. */
module BfsMaze {
  import opened Grids
  import opened BfsSearch
  import opened BfsShapes

  const STAR := '*' as int

  class Maze {
    const pMaze: array2<Node>
    const pPath: array<Cell>
    var queue: seq<Cell>
    ghost var turn: Turn

    constructor (row: int, col: int)
      requires 1 <= row && 1 <= col
      ensures pMaze.Length0 == row && pMaze.Length1 == col && pPath.Length == row * col
      ensures fresh(pMaze) && fresh(pPath) && queue == []
    {
      assert 0 <= row * col;
      pMaze := new Node[row, col]((_, _) => Node(0, false, false, false, false));
      pPath := new Cell[row * col](_ => Cell(0, 0));
      queue := [];
    }

    method InitNode(x: int, y: int, data: int)
      requires 0 <= x < pMaze.Length0 && 0 <= y < pMaze.Length1
      modifies pMaze
      ensures pMaze[x, y] == Node(data, false, false, false, false)
      ensures forall i, j :: 0 <= i < pMaze.Length0 && 0 <= j < pMaze.Length1 && (i, j) != (x, y) ==>
                pMaze[i, j] == old(pMaze[i, j])
    {
      pMaze[x, y] := Node(data, false, false, false, false);
    }

    /** The fields hold what the search as a function says. */
    ghost predicate Valid(g: Grid)
      reads this, pMaze, pPath
    {
      && Shows(pMaze, g) && Mirrors(pMaze, turn.edges)
      && turn.queue == queue && turn.slots == pPath[..]
    }

    /** Walks from the front of the queue in direction d: the way is used up at both
        ends, the parent is stored and the neighbour is pushed. */
    method Walk(top: Cell, d: Direction, ghost g: Grid)
      requires Valid(g) && TurnSafe(g, turn) && top == queue[0]
      requires (top, Neighbour(top, d)) in turn.edges && !turn.found
      modifies this, pMaze, pPath
      ensures Valid(g) && turn == DoWay(g, old(turn), d)
    {
      var n := Neighbour(top, d);
      assert !Used(turn.edges, top, d);
      TakeEdge(pMaze, top, d, g, turn.edges);
      pPath[n.x * pMaze.Length0 + n.y] := top;
      queue := queue + [n];
      turn := DoWay(g, turn, d);
    }

    /** Walks in direction d if that way is still open, and says whether it led to the goal. */
    method TryWay(top: Cell, d: Direction, ghost g: Grid) returns (found: bool)
      requires Valid(g) && TurnSafe(g, turn) && top == queue[0] && !turn.found
      modifies this, pMaze, pPath
      ensures Valid(g) && TurnSafe(g, turn) && queue[0] == top
      ensures turn == DoWay(g, old(turn), d) && (found <==> turn.found)
    {
      found := false;
      WayKeepsSafe(g, turn, d);
      assert Flags(pMaze[top.x, top.y], turn.edges, top);
      if pMaze[top.x, top.y].Flag(d) {
        Walk(top, d, g);
        var n := Neighbour(top, d);
        found := n == Cell(pMaze.Length0 - 1, pMaze.Length1 - 1);
      }
    }

    /** One pass of the loop: the four ways of the front of the queue, then its removal. */
    method TakeTurn(ghost g: Grid) returns (found: bool)
      requires Valid(g) && TurnSafe(g, turn) && !turn.found
      modifies this, pMaze, pPath
      ensures Valid(g) && turn == DoTurn(g, old(turn)) && (found <==> turn.found)
    {
      var top := queue[0];
      found := TryWay(top, Right, g);
      if found { return; }
      found := TryWay(top, Left, g);
      if found { return; }
      found := TryWay(top, Up, g);
      if found { return; }
      found := TryWay(top, Down, g);
      if found { return; }
      queue := queue[1..];
      turn := turn.(queue := queue);
    }

    /** The loop: turn after turn until the goal is pushed or the queue is empty. */
    method Loop(ghost g: Grid, ghost slots: seq<Cell>) returns (ghost turns: nat)
      requires Valid(g) && turn == FirstTurn(g, slots)
      requires START in g.open && StaysInside(g) && |slots| == g.row * g.col
      modifies this, pMaze, pPath
      ensures Valid(g) && Ended(turn) && turn == DoTurns(g, FirstTurn(g, slots), turns)
    {
      turns := 0;
      ghost var first := turn;
      var found := false;
      while queue != [] && !found
        invariant Valid(g) && (found <==> turn.found) && turn == DoTurns(g, first, turns)
        decreases !found, |turn.edges|, |queue|
      {
        OneMoreTurn(g, first, turns);
        EveryTurnSafe(g, slots, turns);
        ghost var was := turn;
        found := TakeTurn(g);
        if !found {
          TurnShrinks(g, was);
        }
        turns := turns + 1;
      }
    }

    /** The search of any maze on which no write falls outside the parent vector. The
        queue is non-empty at the end exactly when the goal can be reached and is not
        the start itself, and no edge was walked twice. The state it ends in is that of
        so many turns of the loop. */
    method SearchMazePath(ghost g: Grid) returns (ghost turns: nat)
      requires Shows(pMaze, g) && Mirrors(pMaze, g.AllEdges()) && queue == []
      requires StaysInside(g) && pPath.Length == g.row * g.col
      modifies this, pMaze, pPath
      ensures Shows(pMaze, g)
      ensures queue != [] <==> Reachable(g, g.Goal()) && g.Goal() != START
      ensures START !in g.open ==> pPath[..] == old(pPath[..])
      ensures START in g.open ==> turn == DoTurns(g, FirstTurn(g, old(pPath[..])), turns)
      ensures START in g.open ==> turn.queue == queue && turn.slots == pPath[..] && (turn.found <==> queue != [])
      ensures START in g.open ==> 2 * (turn.pushes - 1) + |turn.edges| == |g.AllEdges()|
    {
      turns := 0;
      if pMaze[0, 0].val == 1 {
        return;
      }
      queue := queue + [START];
      turn := FirstTurn(g, pPath[..]);
      turns := Loop(g, pPath[..]);
      EndOfSearch(g, old(pPath[..]), turns);
    }

    /** Follows the slots back from the goal and stars each cell passed. */
    method StarCells(ghost g: Grid, ghost path: seq<Cell>)
      requires g.row == pMaze.Length0 && g.col == pMaze.Length1
      requires Linked(pPath[..], g, path) && path[|path| - 1] == g.Goal()
      modifies pMaze
      ensures forall x, y :: 0 <= x < g.row && 0 <= y < g.col ==>
                pMaze[x, y] == (if Cell(x, y) in path then old(pMaze[x, y]).(val := STAR) else old(pMaze[x, y]))
    {
      var x, y := pMaze.Length0 - 1, pMaze.Length1 - 1;
      ghost var k := |path| - 1;
      ghost var slots := pPath[..];
      while true
        invariant 0 <= k < |path| && path[k] == Cell(x, y) && pPath[..] == slots
        invariant forall i, j :: 0 <= i < g.row && 0 <= j < g.col ==>
                    pMaze[i, j] == (if Cell(i, j) in path[k + 1..] then old(pMaze[i, j]).(val := STAR)
                                    else old(pMaze[i, j]))
        decreases k
      {
        pMaze[x, y] := pMaze[x, y].(val := STAR);
        assert path[k..] == [path[k]] + path[k + 1..];
        if x == 0 && y == 0 {
          assert path[k..] == path;
          return;
        }
        assert Holds(slots, g.row, path[k], path[k - 1]);
        var node := pPath[x * pMaze.Length0 + y];
        x := node.x;
        y := node.y;
        k := k - 1;
      }
    }

    /** Stars the cells passed when the slots are followed back from the goal. */
    method ShowMazePath(ghost g: Grid, ghost path: seq<Cell>)
      requires Shows(pMaze, g)
      requires if queue == [] then path == [] else Linked(pPath[..], g, path) && path[|path| - 1] == g.Goal()
      modifies pMaze
      ensures forall x, y :: 0 <= x < g.row && 0 <= y < g.col ==>
                pMaze[x, y] == (if Cell(x, y) in path then old(pMaze[x, y]).(val := STAR) else old(pMaze[x, y]))
    {
      if queue != [] {
        StarCells(g, path);
      }
    }

    /** The whole program on a maze just read in, of a sound shape or any other on which
        it stays inside its vector and ends: it stars the path traced back, or nothing
        when the goal cannot be reached or is the start itself. The path is a shortest
        walk on every sound shape, and on every other maze that is traced rightly. */
    method Solve(ghost g: Grid) returns (ghost path: seq<Cell>)
      requires Shows(pMaze, g) && StaysInside(g)
      requires queue == [] && pPath.Length == g.row * g.col
      requires SoundShape(g.row, g.col) || TracesEnd(g, pPath[..])
      requires forall x, y :: 0 <= x < pMaze.Length0 && 0 <= y < pMaze.Length1 ==>
                 pMaze[x, y] == Node(pMaze[x, y].val, false, false, false, false)
      modifies this, pMaze, pPath
      ensures path != [] <==> Reachable(g, g.Goal()) && g.Goal() != START
      ensures path != [] ==> Linked(pPath[..], g, path) && path[|path| - 1] == g.Goal()
      ensures path != [] && (SoundShape(g.row, g.col) || TraceRight(g, old(pPath[..]))) ==>
                ShortestWalk(g, path, g.Goal())
      ensures forall x, y :: 0 <= x < g.row && 0 <= y < g.col ==>
                pMaze[x, y].val == (if Cell(x, y) in path then STAR else if Cell(x, y) in g.open then 0 else 1)
    {
      ghost var slots := pPath[..];
      if SoundShape(g.row, g.col) {
        SoundTraceRight(g, slots);
        RightTracesEnd(g, slots);
      }
      SetNodeState(pMaze, g);
      ghost var turns := SearchMazePath(g);
      path := [];
      if queue != [] {
        path := TracedPath(g, slots, turns);
      }
      ShowMazePath(g, path);
    }

    /** The same from any zeros and ones read in. */
    method SolveInput() returns (ghost path: seq<Cell>)
      requires 1 <= pMaze.Length0 && 1 <= pMaze.Length1
      requires queue == [] && pPath.Length == pMaze.Length0 * pMaze.Length1
      requires forall x, y :: 0 <= x < pMaze.Length0 && 0 <= y < pMaze.Length1 ==>
                 (pMaze[x, y].val == 0 || pMaze[x, y].val == 1)
                 && pMaze[x, y] == Node(pMaze[x, y].val, false, false, false, false)
      requires StaysInside(GridOf(pMaze))
      requires SoundShape(pMaze.Length0, pMaze.Length1) || TracesEnd(GridOf(pMaze), pPath[..])
      modifies this, pMaze, pPath
      ensures var g := old(GridOf(pMaze));
        && (path != [] <==> Reachable(g, g.Goal()) && g.Goal() != START)
        && (path != [] && (SoundShape(g.row, g.col) || TraceRight(g, old(pPath[..]))) ==>
              ShortestWalk(g, path, g.Goal()))
      ensures forall x, y :: 0 <= x < pMaze.Length0 && 0 <= y < pMaze.Length1 ==>
                pMaze[x, y].val == (if Cell(x, y) in path then STAR else old(pMaze[x, y].val))
    {
      GridOfShows(pMaze);
      path := Solve(GridOf(pMaze));
    }
  }
}
