/** A maze of two rows and four columns, with one wall, on which the breadth-first
    search reaches the goal and the traced path is not a path: two cells share a slot of
    the parent vector, and the later push overwrites a parent the trace needs. */
module BfsNonSquare {
  import opened Grids
  import opened BfsSearch

  //   0 0 0 1
  //   0 0 0 0
  function Maze24(): Grid {
    Grid(2, 4, {Cell(0, 0), Cell(0, 1), Cell(0, 2), Cell(1, 0), Cell(1, 1), Cell(1, 2), Cell(1, 3)})
  }

  type Edges = seq<(Cell, Cell)>

  /** The edges left once those in used were walked. */
  ghost function EdgesWithout(g: Grid, used: Edges): set<(Cell, Cell)> {
    if used == [] then g.AllEdges()
    else
      var last := used[|used| - 1];
      Without(EdgesWithout(g, used[..|used| - 1]), last.0, last.1)
  }

  lemma {:induction false} EdgeLeftIff(g: Grid, used: Edges, a: Cell, b: Cell)
    ensures (a, b) in EdgesWithout(g, used) <==> g.Adjacent(a, b) && (a, b) !in used && (b, a) !in used
    decreases |used|
  {
    if used != [] {
      var n := |used| - 1;
      EdgeLeftIff(g, used[..n], a, b);
      assert used == used[..n] + [used[n]];
    }
  }

  /** The search with the moves made so far in place of the edges left. */
  datatype Moves = Moves(used: Edges, queue: seq<Cell>, slots: seq<Cell>, found: bool)

  ghost function Meaning(g: Grid, t: Moves): Turn {
    Turn(EdgesWithout(g, t.used), t.queue, t.slots, t.found, true, |t.used| + 1)
  }

  function MoveWay(g: Grid, t: Moves, d: Direction): (u: Moves)
    requires t.queue != []
    ensures u.queue != [] && |u.slots| == |t.slots|
  {
    var a := t.queue[0];
    var b := Neighbour(a, d);
    if t.found || !g.Adjacent(a, b) || (a, b) in t.used || (b, a) in t.used then t
    else Moves(t.used + [(a, b)], t.queue + [b], Stored(t.slots, Slot(g.row, b), a), b == g.Goal())
  }

  function MoveTurn(g: Grid, t: Moves): Moves
    requires t.queue != []
  {
    var u := MoveWay(g, MoveWay(g, MoveWay(g, MoveWay(g, t, Right), Left), Up), Down);
    if u.found then u else u.(queue := u.queue[1..])
  }

  lemma MoveWayIsWay(g: Grid, t: Moves, d: Direction)
    requires t.queue != [] && g.Valid() && g.row <= g.col && |t.slots| == g.row * g.col
    ensures Meaning(g, MoveWay(g, t, d)) == DoWay(g, Meaning(g, t), d)
  {
    var a, b := t.queue[0], Neighbour(t.queue[0], d);
    EdgeLeftIff(g, t.used, a, b);
    if g.Adjacent(a, b) {
      SlotInsideIff(g.row, g.col, b);
    }
    assert (t.used + [(a, b)])[..|t.used|] == t.used;
  }

  lemma MoveTurnIsTurn(g: Grid, t: Moves)
    requires t.queue != [] && g.Valid() && g.row <= g.col && |t.slots| == g.row * g.col
    ensures Meaning(g, MoveTurn(g, t)) == DoTurn(g, Meaning(g, t))
  {
    MoveWayIsWay(g, t, Right);
    var u := MoveWay(g, t, Right);
    MoveWayIsWay(g, u, Left);
    var v := MoveWay(g, u, Left);
    MoveWayIsWay(g, v, Up);
    MoveWayIsWay(g, MoveWay(g, v, Up), Down);
  }

  const R1: Edges := [(Cell(0, 0), Cell(0, 1))]
  const U1: Edges := R1 + [(Cell(0, 0), Cell(1, 0))]
  const R2: Edges := U1 + [(Cell(0, 1), Cell(0, 2))]
  const U2: Edges := R2 + [(Cell(0, 1), Cell(1, 1))]
  const U3: Edges := U2 + [(Cell(1, 0), Cell(1, 1))]
  const U4: Edges := U3 + [(Cell(0, 2), Cell(1, 2))]
  const U5: Edges := U4 + [(Cell(1, 1), Cell(1, 2))]
  const U7: Edges := U5 + [(Cell(1, 2), Cell(1, 3))]

  lemma Right1(s: seq<Cell>)
    requires |s| == 8
    ensures MoveWay(Maze24(), Moves([], [START], s, false), Right)
         == Moves(R1, [START, Cell(0, 1)], s[1 := Cell(0, 0)], false)
  {
  }

  lemma Down1(s: seq<Cell>)
    requires |s| == 8
    ensures var t := Moves(R1, [START, Cell(0, 1)], s, false);
      && MoveWay(Maze24(), t, Left) == t && MoveWay(Maze24(), t, Up) == t
      && MoveWay(Maze24(), t, Down) == Moves(U1, [START, Cell(0, 1), Cell(1, 0)], s[2 := Cell(0, 0)], false)
  {
  }

  lemma Turn1(s: seq<Cell>)
    requires |s| == 8
    ensures MoveTurn(Maze24(), Moves([], [START], s, false))
         == Moves(U1, [Cell(0, 1), Cell(1, 0)], s[1 := Cell(0, 0)][2 := Cell(0, 0)], false)
  {
    Right1(s);
    Down1(s[1 := Cell(0, 0)]);
    assert [START, Cell(0, 1), Cell(1, 0)][1..] == [Cell(0, 1), Cell(1, 0)];
  }

  lemma Right2(s: seq<Cell>)
    requires |s| == 8
    ensures MoveWay(Maze24(), Moves(U1, [Cell(0, 1), Cell(1, 0)], s, false), Right)
         == Moves(R2, [Cell(0, 1), Cell(1, 0), Cell(0, 2)], s[2 := Cell(0, 1)], false)
  {
    assert [Cell(0, 1), Cell(1, 0)] + [Cell(0, 2)] == [Cell(0, 1), Cell(1, 0), Cell(0, 2)];
    assert (Cell(0, 1), Cell(0, 2)) !in U1 && (Cell(0, 2), Cell(0, 1)) !in U1;
  }

  lemma Down2(s: seq<Cell>)
    requires |s| == 8
    ensures var t := Moves(R2, [Cell(0, 1), Cell(1, 0), Cell(0, 2)], s, false);
      && MoveWay(Maze24(), t, Left) == t && MoveWay(Maze24(), t, Up) == t
      && MoveWay(Maze24(), t, Down)
         == Moves(U2, [Cell(0, 1), Cell(1, 0), Cell(0, 2), Cell(1, 1)], s[3 := Cell(0, 1)], false)
  {
  }

  lemma Turn2(s: seq<Cell>)
    requires |s| == 8
    ensures MoveTurn(Maze24(), Moves(U1, [Cell(0, 1), Cell(1, 0)], s, false))
         == Moves(U2, [Cell(1, 0), Cell(0, 2), Cell(1, 1)], s[2 := Cell(0, 1)][3 := Cell(0, 1)], false)
  {
    Right2(s);
    Down2(s[2 := Cell(0, 1)]);
    assert [Cell(0, 1), Cell(1, 0), Cell(0, 2), Cell(1, 1)][1..] == [Cell(1, 0), Cell(0, 2), Cell(1, 1)];
  }

  lemma Right3(s: seq<Cell>)
    requires |s| == 8
    ensures MoveWay(Maze24(), Moves(U2, [Cell(1, 0), Cell(0, 2), Cell(1, 1)], s, false), Right)
         == Moves(U3, [Cell(1, 0), Cell(0, 2), Cell(1, 1), Cell(1, 1)], s[3 := Cell(1, 0)], false)
  {
  }

  lemma Stay3(s: seq<Cell>)
    ensures var t := Moves(U3, [Cell(1, 0), Cell(0, 2), Cell(1, 1), Cell(1, 1)], s, false);
      MoveWay(Maze24(), t, Left) == t && MoveWay(Maze24(), t, Up) == t && MoveWay(Maze24(), t, Down) == t
  {
  }

  lemma Turn3(s: seq<Cell>)
    requires |s| == 8
    ensures MoveTurn(Maze24(), Moves(U2, [Cell(1, 0), Cell(0, 2), Cell(1, 1)], s, false))
         == Moves(U3, [Cell(0, 2), Cell(1, 1), Cell(1, 1)], s[3 := Cell(1, 0)], false)
  {
    Right3(s);
    Stay3(s[3 := Cell(1, 0)]);
    assert [Cell(1, 0), Cell(0, 2), Cell(1, 1), Cell(1, 1)][1..]
        == [Cell(0, 2), Cell(1, 1), Cell(1, 1)];
  }

  lemma Stay4(s: seq<Cell>)
    ensures var t := Moves(U3, [Cell(0, 2), Cell(1, 1), Cell(1, 1)], s, false);
      MoveWay(Maze24(), t, Right) == t && MoveWay(Maze24(), t, Left) == t && MoveWay(Maze24(), t, Up) == t
  {
  }

  lemma Down4(s: seq<Cell>)
    requires |s| == 8
    ensures MoveWay(Maze24(), Moves(U3, [Cell(0, 2), Cell(1, 1), Cell(1, 1)], s, false), Down)
         == Moves(U4, [Cell(0, 2), Cell(1, 1), Cell(1, 1), Cell(1, 2)], s[4 := Cell(0, 2)], false)
  {
  }

  lemma Turn4(s: seq<Cell>)
    requires |s| == 8
    ensures MoveTurn(Maze24(), Moves(U3, [Cell(0, 2), Cell(1, 1), Cell(1, 1)], s, false))
         == Moves(U4, [Cell(1, 1), Cell(1, 1), Cell(1, 2)], s[4 := Cell(0, 2)], false)
  {
    Stay4(s);
    Down4(s);
    assert [Cell(0, 2), Cell(1, 1), Cell(1, 1), Cell(1, 2)][1..]
        == [Cell(1, 1), Cell(1, 1), Cell(1, 2)];
  }

  lemma Right5(s: seq<Cell>)
    requires |s| == 8
    ensures MoveWay(Maze24(), Moves(U4, [Cell(1, 1), Cell(1, 1), Cell(1, 2)], s, false), Right)
         == Moves(U5, [Cell(1, 1), Cell(1, 1), Cell(1, 2), Cell(1, 2)], s[4 := Cell(1, 1)], false)
  {
  }

  lemma Stay5(s: seq<Cell>)
    ensures var t := Moves(U5, [Cell(1, 1), Cell(1, 1), Cell(1, 2), Cell(1, 2)], s, false);
      MoveWay(Maze24(), t, Left) == t && MoveWay(Maze24(), t, Up) == t && MoveWay(Maze24(), t, Down) == t
  {
  }

  lemma Turn5(s: seq<Cell>)
    requires |s| == 8
    ensures MoveTurn(Maze24(), Moves(U4, [Cell(1, 1), Cell(1, 1), Cell(1, 2)], s, false))
         == Moves(U5, [Cell(1, 1), Cell(1, 2), Cell(1, 2)], s[4 := Cell(1, 1)], false)
  {
    Right5(s);
    Stay5(s[4 := Cell(1, 1)]);
    assert [Cell(1, 1), Cell(1, 1), Cell(1, 2), Cell(1, 2)][1..]
        == [Cell(1, 1), Cell(1, 2), Cell(1, 2)];
  }

  lemma Turn6(s: seq<Cell>)
    requires |s| == 8
    ensures MoveTurn(Maze24(), Moves(U5, [Cell(1, 1), Cell(1, 2), Cell(1, 2)], s, false))
         == Moves(U5, [Cell(1, 2), Cell(1, 2)], s, false)
  {
  }

  lemma Turn7(s: seq<Cell>)
    requires |s| == 8
    ensures MoveTurn(Maze24(), Moves(U5, [Cell(1, 2), Cell(1, 2)], s, false))
         == Moves(U7, [Cell(1, 2), Cell(1, 2), Cell(1, 3)], s[5 := Cell(1, 2)], true)
  {
  }

  /** The state the search of this maze ends in, when its slots held s before the last two turns. */
  ghost function Final(s: seq<Cell>): Turn
    requires |s| == 8
  {
    Meaning(Maze24(), Moves(U7, [Cell(1, 2), Cell(1, 2), Cell(1, 3)], s[5 := Cell(1, 2)], true))
  }

  ghost predicate EndsIn(t: Moves, n: nat, s: seq<Cell>)
    requires |s| == 8
  {
    DoTurns(Maze24(), Meaning(Maze24(), t), n) == Final(s)
  }

  lemma MoreTurns(t: Moves, n: nat)
    requires n > 0 && !t.found && t.queue != [] && |t.slots| == 8
    ensures DoTurns(Maze24(), Meaning(Maze24(), t), n)
         == DoTurns(Maze24(), Meaning(Maze24(), MoveTurn(Maze24(), t)), n - 1)
  {
    MoveTurnIsTurn(Maze24(), t);
  }

  lemma End1(s: seq<Cell>)
    requires |s| == 8
    ensures EndsIn(Moves(U5, [Cell(1, 2), Cell(1, 2)], s, false), 1, s)
  {
    Turn7(s);
    MoreTurns(Moves(U5, [Cell(1, 2), Cell(1, 2)], s, false), 1);
  }

  lemma End2(s: seq<Cell>)
    requires |s| == 8
    ensures EndsIn(Moves(U5, [Cell(1, 1), Cell(1, 2), Cell(1, 2)], s, false), 2, s)
  {
    Turn6(s);
    MoreTurns(Moves(U5, [Cell(1, 1), Cell(1, 2), Cell(1, 2)], s, false), 2);
    End1(s);
  }

  lemma End3(s: seq<Cell>)
    requires |s| == 8
    ensures EndsIn(Moves(U4, [Cell(1, 1), Cell(1, 1), Cell(1, 2)], s, false), 3, s[4 := Cell(1, 1)])
  {
    Turn5(s);
    MoreTurns(Moves(U4, [Cell(1, 1), Cell(1, 1), Cell(1, 2)], s, false), 3);
    End2(s[4 := Cell(1, 1)]);
  }

  lemma End4(s: seq<Cell>)
    requires |s| == 8
    ensures EndsIn(Moves(U3, [Cell(0, 2), Cell(1, 1), Cell(1, 1)], s, false), 4, s[4 := Cell(0, 2)][4 := Cell(1, 1)])
  {
    Turn4(s);
    MoreTurns(Moves(U3, [Cell(0, 2), Cell(1, 1), Cell(1, 1)], s, false), 4);
    End3(s[4 := Cell(0, 2)]);
  }

  lemma End5(s: seq<Cell>)
    requires |s| == 8
    ensures EndsIn(Moves(U2, [Cell(1, 0), Cell(0, 2), Cell(1, 1)], s, false), 5,
                   s[3 := Cell(1, 0)][4 := Cell(0, 2)][4 := Cell(1, 1)])
  {
    Turn3(s);
    MoreTurns(Moves(U2, [Cell(1, 0), Cell(0, 2), Cell(1, 1)], s, false), 5);
    End4(s[3 := Cell(1, 0)]);
  }

  lemma End6(s: seq<Cell>)
    requires |s| == 8
    ensures EndsIn(Moves(U1, [Cell(0, 1), Cell(1, 0)], s, false), 6,
                   s[2 := Cell(0, 1)][3 := Cell(0, 1)][3 := Cell(1, 0)][4 := Cell(0, 2)][4 := Cell(1, 1)])
  {
    Turn2(s);
    MoreTurns(Moves(U1, [Cell(0, 1), Cell(1, 0)], s, false), 6);
    End5(s[2 := Cell(0, 1)][3 := Cell(0, 1)]);
  }

  /** The writes of the first five turns, in order. */
  function AllWrites(s: seq<Cell>): (t: seq<Cell>)
    requires |s| == 8
    ensures |t| == 8
  {
    s[1 := Cell(0, 0)][2 := Cell(0, 0)][2 := Cell(0, 1)][3 := Cell(0, 1)]
     [3 := Cell(1, 0)][4 := Cell(0, 2)][4 := Cell(1, 1)]
  }

  lemma NoMoveYet(s: seq<Cell>)
    ensures Meaning(Maze24(), Moves([], [START], s, false)) == FirstTurn(Maze24(), s)
  {
  }

  lemma SplitWrites(s: seq<Cell>)
    requires |s| == 8
    ensures var u := s[1 := Cell(0, 0)][2 := Cell(0, 0)];
      AllWrites(s) == u[2 := Cell(0, 1)][3 := Cell(0, 1)][3 := Cell(1, 0)][4 := Cell(0, 2)][4 := Cell(1, 1)]
  {
  }

  lemma End7(s: seq<Cell>)
    requires |s| == 8
    ensures EndsIn(Moves([], [START], s, false), 7, AllWrites(s))
  {
    Turn1(s);
    MoreTurns(Moves([], [START], s, false), 7);
    SplitWrites(s);
    End6(s[1 := Cell(0, 0)][2 := Cell(0, 0)]);
  }

  /** The slots the trace reads hold what was written to them last. */
  ghost predicate TraceSlots(t: Turn) {
    && t.found && |t.slots| == 8
    && t.slots[4] == Cell(1, 1) && t.slots[3] == Cell(1, 0) && t.slots[2] == Cell(0, 1) && t.slots[5] == Cell(1, 2)
  }

  lemma FinalSlots(s: seq<Cell>)
    requires |s| == 8
    ensures TraceSlots(Final(AllWrites(s)))
  {
    var t := Final(AllWrites(s));
    assert t.slots == AllWrites(s)[5 := Cell(1, 2)];
  }

  /** The seven turns in a row. */
  lemma SevenTurns(s: seq<Cell>) returns (n: nat)
    requires |s| == 8
    ensures TraceSlots(DoTurns(Maze24(), FirstTurn(Maze24(), s), n))
  {
    n := 7;
    FinalSlots(s);
    End7(s);
    NoMoveYet(s);
  }

  /** However the search of this maze ends, it has reached the goal, and following the
      slots back from the goal steps between two cells that are not adjacent. */
  lemma TraceLeavesTheWalk(s: seq<Cell>, n: nat)
    requires |s| == 8
    ensures var t := DoTurns(Maze24(), FirstTurn(Maze24(), s), n);
      Ended(t) ==>
        && t.found && |t.slots| == 8
        && Back(t, Maze24().Goal()) == Cell(1, 2) && Back(t, Cell(1, 2)) == Cell(1, 1)
        && Back(t, Cell(1, 1)) == Cell(1, 0) && Back(t, Cell(1, 0)) == Cell(0, 1)
        && !Maze24().Adjacent(Cell(0, 1), Cell(1, 0))
  {
    var m := SevenTurns(s);
    if Ended(DoTurns(Maze24(), FirstTurn(Maze24(), s), n)) {
      TurnsEnd(Maze24(), FirstTurn(Maze24(), s), m, n);
    }
  }

  /** The cell the trace goes to from c. */
  function Back(t: Turn, c: Cell): Cell
    requires |t.slots| == 8 && 0 <= Slot(2, c) < 8
  {
    t.slots[Slot(2, c)]
  }

  /** So whatever the slots held before, the trace of this maze is not right. */
  lemma TraceOf24(s: seq<Cell>)
    requires |s| == 8
    ensures !TraceRight(Maze24(), s)
  {
    var m := SevenTurns(s);
    TraceLeavesTheWalk(s, m);
    NotRight(DoTurns(Maze24(), FirstTurn(Maze24(), s), m));
  }

  lemma NotRight(t: Turn)
    requires |t.slots| == 8
    requires Back(t, Cell(1, 3)) == Cell(1, 2) && Back(t, Cell(1, 2)) == Cell(1, 1)
    requires Back(t, Cell(1, 1)) == Cell(1, 0) && Back(t, Cell(1, 0)) == Cell(0, 1)
    ensures !RightAt(Maze24(), t)
  {
    var g := Maze24();
    forall p | Linked(t.slots, g, p) && p != [] && p[|p| - 1] == g.Goal()
      ensures !Walk(g, p)
    {
      var n := |p|;
      StepBack(t, p, n - 1);
      StepBack(t, p, n - 2);
      StepBack(t, p, n - 3);
      StepBack(t, p, n - 4);
      assert !g.Adjacent(p[n - 5], p[n - 4]);
    }
  }

  lemma StepBack(t: Turn, p: seq<Cell>, i: nat)
    requires |t.slots| == 8 && i < |p| && Linked(t.slots, Maze24(), p) && p[i] != START && 0 <= Slot(2, p[i]) < 8
    ensures i > 0 && p[i - 1] == Back(t, p[i])
  {
    assert i > 0;
    assert Holds(t.slots, 2, p[i], p[i - 1]);
  }
}
