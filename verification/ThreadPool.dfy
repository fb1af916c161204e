/** The thread pool: posters put tasks into a ring, workers take them out, sleeping on a
    condition while it is empty. Every locked section is one step; a sleeping worker may
    also wake for no reason. */
module ThreadPools {
  import opened Bytes

  type Thread = nat
  type Task = nat

  /** Running a task or about to lock; asleep on the condition; woken but not yet holding
      the lock again; gone. */
  datatype Worker = Outside | Asleep | Woken | Exited

  /** The pool; `taken` and `accepted` record the tasks taken out and put in so far. */
  datatype Pool = Pool(ring: seq<Task>, head: nat, tail: nat, count: nat, closed: bool, started: int,
                       workers: map<Thread, Worker>, taken: seq<Task>, accepted: seq<Task>)

  datatype Event =
    | Enter(w: Thread)
    | Spurious(w: Thread)
    | Post(task: Task, woken: set<Thread>)
    | Destroy

  ghost function In(s: Pool, pcs: set<Worker>): set<Thread> {
    set w | w in s.workers && s.workers[w] in pcs
  }

  /** What may happen: a signal wakes at least one sleeper if there is any; the pool is
      destroyed once. */
  ghost predicate Legal(s: Pool, e: Event) {
    match e
    case Enter(w) => w in s.workers && (s.workers[w] == Outside || s.workers[w] == Woken)
    case Spurious(w) => w in s.workers && s.workers[w] == Asleep
    case Post(task, woken) => woken <= In(s, {Asleep}) && (woken == {} ==> In(s, {Asleep}) == {})
    case Destroy => !s.closed
  }

  function Wake(workers: map<Thread, Worker>, woken: set<Thread>): map<Thread, Worker> {
    map w | w in workers :: if w in woken then Woken else workers[w]
  }

  /** A worker with the lock tests the loop condition: it sleeps, leaves or takes a task. */
  function DoEnter(s: Pool, w: Thread): Pool
    requires |s.ring| > 0 && s.head < |s.ring|
  {
    if s.count == 0 && !s.closed then s.(workers := s.workers[w := Asleep])
    else if s.closed then s.(workers := s.workers[w := Exited], started := s.started - 1)
    else
      s.(head := (s.head + 1) % |s.ring|, count := s.count - 1, taken := s.taken + [s.ring[s.head]],
         workers := s.workers[w := Outside])
  }

  predicate Accepts(s: Pool) {
    !s.closed && s.count != |s.ring|
  }

  function DoPost(s: Pool, task: Task, woken: set<Thread>): Pool
    requires |s.ring| > 0 && s.tail < |s.ring|
  {
    if !Accepts(s) then s
    else
      s.(ring := s.ring[s.tail := task], tail := (s.tail + 1) % |s.ring|, count := s.count + 1,
         accepted := s.accepted + [task], workers := Wake(s.workers, woken))
  }

  function Next(s: Pool, e: Event): Pool
    requires |s.ring| > 0 && s.head < |s.ring| && s.tail < |s.ring|
  {
    match e
    case Enter(w) => DoEnter(s, w)
    case Spurious(w) => s.(workers := s.workers[w := Woken])
    case Post(task, woken) => DoPost(s, task, woken)
    case Destroy =>
      s.(closed := true,
         workers := map w | w in s.workers :: if s.workers[w] == Asleep then Woken else s.workers[w])
  }

  // ---------- the ring ----------

  /** i places after h, going round. */
  function Slot(h: nat, i: nat, n: nat): nat {
    if h + i < n then h + i else h + i - n
  }

  lemma Modulo(x: nat, n: nat)
    requires x < 2 * n
    ensures x % n == if x < n then x else x - n
  {
    if x >= n {
      assert x == n * 1 + (x - n);
    }
  }

  lemma SlotIsModulo(h: nat, i: nat, n: nat)
    requires h < n && i <= n
    ensures (h + i) % n == Slot(h, i, n) < n
  {
    Modulo(h + i, n);
  }

  ghost predicate RingOk(s: Pool) {
    && |s.ring| > 0 && s.head < |s.ring| && s.count <= |s.ring|
    && s.tail == Slot(s.head, s.count, |s.ring|)
  }

  /** The tasks in the ring, oldest first. */
  ghost function Contents(s: Pool): seq<Task>
    requires RingOk(s)
  {
    seq(s.count, i requires 0 <= i < s.count => s.ring[Slot(s.head, i, |s.ring|)])
  }

  lemma TakeFromRing(s: Pool, w: Thread)
    requires RingOk(s) && s.count > 0 && !s.closed
    ensures var n := DoEnter(s, w); RingOk(n) && [s.ring[s.head]] + Contents(n) == Contents(s)
  {
    SlotIsModulo(s.head, 1, |s.ring|);
    var n := DoEnter(s, w);
    assert RingOk(n);
    assert forall i :: 0 <= i < n.count ==> Contents(n)[i] == Contents(s)[i + 1];
  }

  lemma PutIntoRing(s: Pool, task: Task, woken: set<Thread>)
    requires RingOk(s) && Accepts(s)
    ensures var n := DoPost(s, task, woken); RingOk(n) && Contents(n) == Contents(s) + [task]
  {
    SlotIsModulo(s.tail, 1, |s.ring|);
    var n := DoPost(s, task, woken);
    assert RingOk(n);
    assert forall i :: 0 <= i < s.count ==> Contents(n)[i] == Contents(s)[i];
  }

  // ---------- what every interleaving keeps ----------

  ghost predicate Inv(s: Pool) {
    && RingOk(s)
    && s.accepted == s.taken + Contents(s)
    && s.started == |In(s, {Outside, Asleep, Woken})|
    && (s.closed ==> In(s, {Asleep}) == {})
    && (!s.closed ==> In(s, {Exited}) == {})
    && (In(s, {Asleep}) == {} || s.count <= |In(s, {Outside, Woken})|)
  }

  ghost predicate AtStart(s: Pool) {
    && |s.ring| > 0 && s.head == s.tail == s.count == 0 && !s.closed
    && s.taken == s.accepted == []
    && s.started == |s.workers| && forall w :: w in s.workers ==> s.workers[w] == Outside
  }

  lemma StartInv(s: Pool)
    requires AtStart(s)
    ensures Inv(s)
  {
    assert In(s, {Outside, Asleep, Woken}) == s.workers.Keys;
    assert |s.workers.Keys| == |s.workers|;
    assert In(s, {Asleep}) == {} && In(s, {Exited}) == {};
  }

  ghost predicate Initial(s: Pool)
    ensures Initial(s) ==> Inv(s)
  {
    AtStart(s) && (StartInv(s); true)
  }

  lemma EnterKeepsInv(s: Pool, w: Thread)
    requires Inv(s) && Legal(s, Enter(w))
    ensures Inv(DoEnter(s, w))
  {
    var n := DoEnter(s, w);
    var live := In(s, {Outside, Asleep, Woken});
    if s.closed {
      assert In(n, {Outside, Asleep, Woken}) == live - {w};
      assert In(n, {Asleep}) == In(s, {Asleep});
    } else {
      assert In(n, {Outside, Asleep, Woken}) == live;
      assert In(n, {Exited}) == {};
      if s.count > 0 {
        TakeFromRing(s, w);
        assert s.taken + [s.ring[s.head]] + Contents(n) == s.taken + Contents(s);
        assert In(n, {Asleep}) == In(s, {Asleep});
        assert In(n, {Outside, Woken}) == In(s, {Outside, Woken});
      }
    }
  }

  lemma WakeMoves(s: Pool, n: Pool, woken: set<Thread>)
    requires n.workers == Wake(s.workers, woken) && woken <= In(s, {Asleep})
    ensures In(n, {Outside, Asleep, Woken}) == In(s, {Outside, Asleep, Woken}) && In(n, {Exited}) == In(s, {Exited})
    ensures In(n, {Asleep}) == In(s, {Asleep}) - woken
    ensures In(n, {Outside, Woken}) == In(s, {Outside, Woken}) + woken
    ensures |In(n, {Outside, Woken})| == |In(s, {Outside, Woken})| + |woken|
  {
    assert In(s, {Outside, Woken}) !! woken;
  }

  lemma PostKeepsInv(s: Pool, task: Task, woken: set<Thread>)
    requires Inv(s) && Legal(s, Post(task, woken))
    ensures Inv(DoPost(s, task, woken))
  {
    if Accepts(s) {
      PutIntoRing(s, task, woken);
      JoinAssociates(s.taken, Contents(s), [task]);
      WakeMoves(s, DoPost(s, task, woken), woken);
    }
  }

  lemma StepKeepsInv(s: Pool, e: Event)
    requires Inv(s) && Legal(s, e)
    ensures Inv(Next(s, e))
  {
    match e
    case Enter(w) => EnterKeepsInv(s, w);
    case Post(task, woken) => PostKeepsInv(s, task, woken);
    case Spurious(w) =>
      var n := Next(s, e);
      assert In(n, {Outside, Asleep, Woken}) == In(s, {Outside, Asleep, Woken});
      assert In(n, {Exited}) == In(s, {Exited});
      assert In(n, {Asleep}) == In(s, {Asleep}) - {w};
      assert In(n, {Outside, Woken}) == In(s, {Outside, Woken}) + {w};
    case Destroy =>
      var n := Next(s, e);
      assert In(n, {Outside, Asleep, Woken}) == In(s, {Outside, Asleep, Woken});
      assert In(n, {Asleep}) == {};
  }

  ghost predicate LegalRun(s: Pool, es: seq<Event>)
    requires Inv(s)
    decreases |es|
  {
    es == [] || (Legal(s, es[0]) && (StepKeepsInv(s, es[0]); LegalRun(Next(s, es[0]), es[1..])))
  }

  ghost function Run(s: Pool, es: seq<Event>): (n: Pool)
    requires Inv(s) && LegalRun(s, es)
    ensures Inv(n)
    decreases |es|
  {
    if es == [] then s
    else
      StepKeepsInv(s, es[0]);
      Run(Next(s, es[0]), es[1..])
  }

  lemma RingState(n: Pool)
    requires Inv(n)
    ensures n.accepted == n.taken + Contents(n) && n.tail == (n.head + n.count) % |n.ring|
    ensures n.started == |In(n, {Outside, Asleep, Woken})|
  {
    SlotIsModulo(n.head, n.count, |n.ring|);
  }

  /** No task is lost, doubled or overwritten, and they are taken in the order posted:
      in every run the tasks taken, then those in the ring, are the accepted ones. */
  lemma TasksInOrder(s: Pool, es: seq<Event>)
    requires Initial(s) && LegalRun(s, es)
    ensures var n := Run(s, es);
      && n.accepted == n.taken + Contents(n)
      && n.tail == (n.head + n.count) % |n.ring|
      && n.started == |In(n, {Outside, Asleep, Woken})|
  {
    RingState(Run(s, es));
  }

  /** While the pool is open, either no worker sleeps or there are at least as many
      awake as tasks queued; so tasks never wait with every worker asleep. */
  lemma SomebodyAwake(s: Pool, es: seq<Event>)
    requires Initial(s) && LegalRun(s, es)
    ensures var n := Run(s, es);
      && (!n.closed ==> In(n, {Asleep}) == {} || n.count <= |In(n, {Outside, Woken})|)
      && (!n.closed && n.count > 0 && n.workers != map[] ==> In(n, {Outside, Woken}) != {})
  {
    var n := Run(s, es);
    if !n.closed && n.count > 0 && n.workers != map[] && In(n, {Asleep}) == {} {
      var w :| w in n.workers;
      assert w !in In(n, {Asleep}) && w !in In(n, {Exited});
      assert n.workers[w] == Outside || n.workers[w] == Woken;
      assert w in In(n, {Outside, Woken});
    }
  }

  /** Once the pool is closed nobody sleeps, no task is taken or accepted any more, and
      each worker leaves the next time it looks. */
  lemma ClosedDrains(s: Pool, e: Event)
    requires Inv(s) && s.closed && Legal(s, e)
    ensures var n := Next(s, e);
      && n.closed && n.taken == s.taken && n.accepted == s.accepted
      && !e.Spurious?
      && (e.Enter? ==> n.workers == s.workers[e.w := Exited] && n.started == s.started - 1)
  {
    assert forall w :: w in s.workers && w !in In(s, {Asleep}) ==> s.workers[w] != Asleep;
  }

  /** So as many steps as there are workers left empty the pool. */
  lemma {:induction false} EverybodyLeaves(s: Pool) returns (es: seq<Event>)
    requires Inv(s) && s.closed
    ensures LegalRun(s, es) && Run(s, es).started == 0 && |es| == s.started
    decreases s.started
  {
    if s.started == 0 {
      es := [];
    } else {
      var w :| w in In(s, {Outside, Asleep, Woken});
      assert w !in In(s, {Asleep});
      StepKeepsInv(s, Enter(w));
      var rest := EverybodyLeaves(Next(s, Enter(w)));
      es := [Enter(w)] + rest;
      assert es[1..] == rest;
    }
  }

  // ---------- what each section does ----------

  /** A post is taken exactly when the pool is open and the ring has a free place: the
      task goes behind those waiting, the signalled workers wake, and a sleeper is among
      them if there is one. Any other post changes nothing. */
  lemma PostQueues(s: Pool, task: Task, woken: set<Thread>)
    requires Inv(s) && Legal(s, Post(task, woken))
    ensures var n := Next(s, Post(task, woken));
      if s.closed || s.count >= |s.ring| then n == s
      else
        && Inv(n) && Contents(n) == Contents(s) + [task] && n.accepted == s.accepted + [task]
        && n.taken == s.taken && !n.closed && n.started == s.started && |n.ring| == |s.ring|
        && n.workers.Keys == s.workers.Keys
        && (forall w :: w in s.workers ==> n.workers[w] == if w in woken then Woken else s.workers[w])
        && (In(s, {Asleep}) != {} ==> woken != {} && In(n, {Asleep}) == In(s, {Asleep}) - woken)
  {
    PostKeepsInv(s, task, woken);
    if !s.closed && s.count < |s.ring| {
      PutIntoRing(s, task, woken);
      WakeMoves(s, DoPost(s, task, woken), woken);
    }
  }

  /** An open pool's worker takes the oldest task, or sleeps when there is none. */
  lemma EnterTakesOldest(s: Pool, w: Thread)
    requires Inv(s) && Legal(s, Enter(w)) && !s.closed
    ensures var n := Next(s, Enter(w));
      && Inv(n) && n.accepted == s.accepted && n.started == s.started && !n.closed
      && n.workers == s.workers[w := if s.count == 0 then Asleep else Outside]
      && (s.count == 0 ==> n.taken == s.taken && Contents(n) == Contents(s))
      && (s.count > 0 ==> n.taken == s.taken + [Contents(s)[0]] && Contents(n) == Contents(s)[1..])
  {
    EnterKeepsInv(s, w);
    if s.count > 0 {
      TakeFromRing(s, w);
    }
  }

  /** Destroying closes the pool and wakes every sleeper, and does nothing else. */
  lemma DestroyCloses(s: Pool)
    requires Inv(s) && Legal(s, Destroy)
    ensures var n := Next(s, Destroy);
      && n.closed && n == s.(closed := true, workers := n.workers) && n.workers.Keys == s.workers.Keys
      && forall w :: w in s.workers ==>
           n.workers[w] == if s.workers[w] == Asleep then Woken else s.workers[w]
  {
  }

  /** A worker that wakes for no reason only wakes. */
  lemma SpuriousWakes(s: Pool, w: Thread)
    requires Inv(s) && Legal(s, Spurious(w))
    ensures Next(s, Spurious(w)) == s.(workers := s.workers[w := Woken])
  {
  }

  /** The tasks posted in a run while the pool was open and the ring not full, in order. */
  ghost function Granted(s: Pool, es: seq<Event>): seq<Task>
    requires Inv(s) && LegalRun(s, es)
    decreases |es|
  {
    if es == [] then []
    else
      StepKeepsInv(s, es[0]);
      (if es[0].Post? && !s.closed && s.count < |s.ring| then [es[0].task] else []) + Granted(Next(s, es[0]), es[1..])
  }

  lemma OneAccepted(s: Pool, e: Event)
    requires Inv(s) && Legal(s, e)
    ensures Next(s, e).accepted
         == s.accepted + if e.Post? && !s.closed && s.count < |s.ring| then [e.task] else []
  {
    if e.Post? {
      PostQueues(s, e.task, e.woken);
    }
  }

  lemma {:induction false} AcceptedExactly(s: Pool, es: seq<Event>)
    requires Inv(s) && LegalRun(s, es)
    ensures Run(s, es).accepted == s.accepted + Granted(s, es)
    decreases |es|
  {
    if es == [] {
      assert s.accepted + [] == s.accepted;
    } else {
      StepKeepsInv(s, es[0]);
      OneAccepted(s, es[0]);
      AcceptedExactly(Next(s, es[0]), es[1..]);
      JoinAssociates(s.accepted, if es[0].Post? && !s.closed && s.count < |s.ring| then [es[0].task] else [],
                     Granted(Next(s, es[0]), es[1..]));
    }
  }

  /** Every post that is answered with 0 is taken by a worker in its turn, or waits. */
  lemma PostsAreServed(s: Pool, es: seq<Event>)
    requires Initial(s) && LegalRun(s, es)
    ensures var n := Run(s, es); n.taken + Contents(n) == Granted(s, es)
  {
    AcceptedExactly(s, es);
    assert [] + Granted(s, es) == Granted(s, es);
  }

  // ---------- the program ----------

  class ThreadPool {
    const queue: array<Task>
    var head: nat
    var tail: nat
    var count: nat
    var closed: bool
    var started: int
    ghost var workers: map<Thread, Worker>
    ghost var taken: seq<Task>
    ghost var accepted: seq<Task>

    ghost function View(): Pool
      reads this, queue
    {
      Pool(queue[..], head, tail, count, closed, started, workers, taken, accepted)
    }

    constructor (threads: set<Thread>, queueSize: nat)
      requires queueSize > 0
      ensures Initial(View()) && queue.Length == queueSize && workers.Keys == threads
    {
      queue := new Task[queueSize];
      head, tail, count, closed, started := 0, 0, 0, false, |threads|;
      workers, taken, accepted := map w | w in threads :: Outside, [], [];
      new;
      assert workers.Keys == threads;
    }

    /** What worker w does with the lock in hand; it gets a task, or is to leave, or
        neither when it has gone to sleep. */
    method WorkerStep(w: Thread) returns (task: Task, got: bool, leave: bool)
      requires Inv(View()) && Legal(View(), Enter(w))
      modifies this
      ensures View() == Next(old(View()), Enter(w))
      ensures leave <==> old(closed)
      ensures got <==> !old(closed) && old(count) > 0
      ensures got ==> taken == old(taken) + [task] && task == old(Contents(View()))[0]
    {
      task, got, leave := 0, false, false;
      if count == 0 && !closed {
        workers := workers[w := Asleep];
        return;
      }
      if closed {
        leave := true;
        started := started - 1;
        workers := workers[w := Exited];
        return;
      }
      task, got := queue[head], true;
      head := (head + 1) % queue.Length;
      count := count - 1;
      taken := taken + [task];
      workers := workers[w := Outside];
    }

    /** thread_pool_post on a valid function: 0, or -3 when closed, or -4 when full. */
    method PostTask(task: Task, ghost woken: set<Thread>) returns (code: int)
      requires Inv(View()) && Legal(View(), Post(task, woken))
      modifies this, queue
      ensures View() == Next(old(View()), Post(task, woken))
      ensures code == if old(closed) then -3 else if old(count) == queue.Length then -4 else 0
      ensures Inv(View()) && if code == 0 then Contents(View()) == old(Contents(View())) + [task] && !closed
                             else View() == old(View())
      ensures accepted == if code == 0 then old(accepted) + [task] else old(accepted)
    {
      PostQueues(View(), task, woken);
      if closed {
        return -3;
      }
      if queue.Length == count {
        return -4;
      }
      queue[tail] := task;
      tail := (tail + 1) % queue.Length;
      count := count + 1;
      accepted := accepted + [task];
      workers := Wake(workers, woken);
      code := 0;
    }

    method DestroyPool()
      requires Inv(View()) && Legal(View(), Destroy)
      modifies this
      ensures View() == Next(old(View()), Destroy) && closed
    {
      closed := true;
      workers := map w | w in workers :: if workers[w] == Asleep then Woken else workers[w];
    }
  }
}
