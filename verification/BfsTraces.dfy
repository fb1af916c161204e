/** When the trace of a single maze is right: conditions on distances in the maze and on
    which cells share a slot of the parent vector. */
module BfsTraces {
  import opened Grids
  import opened BfsSearch

  ghost predicate WellSized(g: Grid, slots: seq<Cell>) {
    g.Valid() && |slots| == g.row * g.col
  }

  lemma RunInside(g: Grid, slots: seq<Cell>, n: nat)
    requires WellSized(g, slots) && START in g.open && StaysInside(g)
    ensures var t := DoTurns(g, FirstTurn(g, slots), n);
      Running(g, t) && t.inside && |t.slots| == |slots|
  {
    FirstRuns(g, slots);
    TurnsRun(g, FirstTurn(g, slots), n);
    SlotsStay(g, FirstTurn(g, slots), n);
    InsideWhile(g, DoTurns(g, FirstTurn(g, slots), n));
  }

  // ---------- mazes traced rightly ----------

  /** Some shortest walk to the goal passes c. */
  ghost predicate OnShortest(g: Grid, c: Cell) {
    exists p :: ShortestWalk(g, p, g.Goal()) && c in p
  }

  /** Cells on shortest walks share slots only with cells that are nearer than themselves
      or further than the goal. */
  ghost predicate Unspoiled(g: Grid) {
    forall b, c :: OnShortest(g, c) && c != START && b != c && Slot(g.row, b) == Slot(g.row, c) ==> Harmless(g, b, c)
  }

  ghost predicate Harmless(g: Grid, b: Cell, c: Cell) {
    forall i: nat, j: nat, m: nat ::
      Distance(g, c, i) && Distance(g, b, j) && Distance(g, g.Goal(), m) ==> j < i || m < j
  }

  lemma UnspoiledOutlives(g: Grid, t: Turn, s: Search, c: Cell)
    requires Follows(g, t, s) && t.found && Unspoiled(g) && OnShortest(g, c) && c in s.seen && c != START
    ensures Outlives(g.row, s, c)
  {
    assert TrueLevel(g, s, c) && TrueLevel(g, s, g.Goal());
    forall b | b in s.seen && b != c && Slot(g.row, b) == Slot(g.row, c)
      ensures Level(s, b) < Level(s, c)
    {
      assert TrueLevel(g, s, b);
      assert Harmless(g, b, c);
    }
  }

  lemma UnspoiledRightAt(g: Grid, t: Turn)
    requires Running(g, t) && t.found && t.inside && Unspoiled(g)
    ensures RightAt(g, t)
  {
    var s :| Follows(g, t, s);
    var p := Trace(g, s, g.Goal());
    TraceIsShortest(g, s, g.Goal());
    TraceSeen(g, s, g.Goal());
    forall c | c in p && c != START
      ensures Outlives(g.row, s, c)
    {
      assert OnShortest(g, c);
      UnspoiledOutlives(g, t, s, c);
    }
    HeldIsRight(g, t, s);
  }

  /** Every maze like that is traced rightly, on which no write falls outside the vector. */
  lemma UnspoiledTraceRight(g: Grid, slots: seq<Cell>)
    requires WellSized(g, slots) && StaysInside(g) && Unspoiled(g)
    ensures TraceRight(g, slots)
  {
    if START in g.open {
      forall n: nat | DoTurns(g, FirstTurn(g, slots), n).found
        ensures RightAt(g, DoTurns(g, FirstTurn(g, slots), n))
      {
        RunInside(g, slots, n);
        UnspoiledRightAt(g, DoTurns(g, FirstTurn(g, slots), n));
      }
    }
  }

  // ---------- mazes traced wrongly ----------

  lemma StartOpen(g: Grid, c: Cell, k: nat)
    requires Steps(g, c, k)
    ensures START in g.open
  {
  }

  lemma StepsReach(g: Grid, c: Cell, k: nat)
    requires Steps(g, c, k)
    ensures Reachable(g, c)
  {
    var p :| WalkTo(g, p, c) && |p| == k + 1;
  }

  lemma SpliceWalks(g: Grid, q: seq<Cell>, p: seq<Cell>, k: nat)
    requires Walk(g, q) && Walk(g, p) && k < |p| && q[|q| - 1] == p[k]
    ensures WalkTo(g, q + p[k + 1..], p[|p| - 1]) && |q + p[k + 1..]| == |q| + |p| - k - 1
  {
    var r := q + p[k + 1..];
    forall i, j | 0 <= i < j < |r| && j == i + 1
      ensures g.Adjacent(r[i], r[j])
    {
      if j >= |q| {
        assert r[j] == p[j - |q| + k + 1] && r[i] == p[j - |q| + k];
      }
    }
  }

  /** A shortest walk comes to each of its cells as soon as possible. */
  lemma ShortestPrefix(g: Grid, p: seq<Cell>, c: Cell, k: nat, i: nat)
    requires ShortestWalk(g, p, g.Goal()) && k < |p| && p[k] == c && Steps(g, c, i)
    ensures k <= i
  {
    var q :| WalkTo(g, q, c) && |q| == i + 1;
    SpliceWalks(g, q, p, k);
  }

  lemma WalkPrefix(g: Grid, p: seq<Cell>, k: nat)
    requires Walk(g, p) && k < |p|
    ensures Steps(g, p[k], k)
  {
    assert WalkTo(g, p[..k + 1], p[k]);
  }

  lemma HolderOut(g: Grid, t: Turn, s: Search, b: Cell, n: nat)
    requires Follows(g, t, s) && b in s.parent && 0 <= Slot(g.row, b) < |t.slots|
    requires Steps(g, t.slots[Slot(g.row, b)], n)
    ensures Level(s, b) <= n + 1
  {
    var h := t.slots[Slot(g.row, b)];
    assert FarEnough(s, h, b);
    assert TrueLevel(g, s, h);
  }

  /** Once a further cell has used the slot of c, what the slot holds is too far out. */
  lemma LinkTooFar(g: Grid, t: Turn, s: Search, p: seq<Cell>, c: Cell, b: Cell, i: nat, j: nat)
    requires Follows(g, t, s) && b in s.parent && c != START
    requires Slot(g.row, b) == Slot(g.row, c) && Steps(g, c, i) && Level(s, b) == j && i < j
    requires ShortestWalk(g, p, g.Goal()) && c in p
    ensures !Linked(t.slots, g, p)
  {
    var k :| 0 <= k < |p| && p[k] == c;
    ShortestPrefix(g, p, c, k, i);
    WalkPrefix(g, p, k - 1);
    if Holds(t.slots, g.row, c, p[k - 1]) {
      HolderOut(g, t, s, b, k - 1);
    }
    assert !Holds(t.slots, g.row, p[k], p[k - 1]);
  }

  /** When a cell c that every shortest walk passes shares its slot with a cell that is
      further than c but nearer than the goal, the trace is wrong. */
  lemma SpoiledTrace(g: Grid, slots: seq<Cell>, c: Cell, b: Cell, i: nat, j: nat, m: nat)
    requires WellSized(g, slots) && c != START && Slot(g.row, b) == Slot(g.row, c)
    requires Distance(g, c, i) && Distance(g, b, j) && Distance(g, g.Goal(), m) && i < j < m
    requires forall p :: ShortestWalk(g, p, g.Goal()) ==> c in p
    ensures !TraceRight(g, slots)
  {
    StartOpen(g, c, i);
    var n := TurnsDone(g, FirstTurn(g, slots));
    FirstRuns(g, slots);
    TurnsRun(g, FirstTurn(g, slots), n);
    SpoiledAt(g, DoTurns(g, FirstTurn(g, slots), n), c, b, i, j, m);
  }

  lemma SpoiledAt(g: Grid, t: Turn, c: Cell, b: Cell, i: nat, j: nat, m: nat)
    requires Running(g, t) && Ended(t) && c != START && Slot(g.row, b) == Slot(g.row, c)
    requires Distance(g, c, i) && Distance(g, b, j) && Distance(g, g.Goal(), m) && i < j < m
    requires forall p :: ShortestWalk(g, p, g.Goal()) ==> c in p
    ensures t.found && !RightAt(g, t)
  {
    StepsReach(g, g.Goal(), m);
    GoalNotStart(g, m);
    EndFindsGoal(g, t);
    var s :| Follows(g, t, s);
    FurtherSeen(g, t, s, b, j, m);
    assert b in s.parent;
    forall p | ShortestWalk(g, p, g.Goal())
      ensures !Linked(t.slots, g, p)
    {
      LinkTooFar(g, t, s, p, c, b, i, j);
    }
  }

  lemma GoalNotStart(g: Grid, m: nat)
    requires Distance(g, g.Goal(), m) && m > 0
    ensures g.Goal() != START
  {
    assert Steps(g, g.Goal(), m);
    StartOpen(g, g.Goal(), m);
    assert WalkTo(g, [START], START);
    assert Steps(g, START, 0);
  }

  lemma FurtherSeen(g: Grid, t: Turn, s: Search, b: Cell, j: nat, m: nat)
    requires Follows(g, t, s) && t.found && Distance(g, b, j) && Distance(g, g.Goal(), m) && 0 < j < m
    ensures b in s.seen && Level(s, b) == j && b != START
  {
    assert TrueLevel(g, s, g.Goal());
    DistanceUnique(g, g.Goal(), m, Level(s, g.Goal()));
    NearCellsSeen(g, s, b, j);
    assert TrueLevel(g, s, b);
    DistanceUnique(g, b, j, Level(s, b));
    StartOpen(g, b, j);
    assert WalkTo(g, [START], START);
    assert Steps(g, START, 0);
  }
}
