/** The wakeup protocol of the event loop. Other threads append a functor under the
    lock and only then write the eventfd; the loop thread polls, drains the eventfd in
    its handler, takes the whole list under the lock and runs it. Every step below is
    atomic in the program, and they interleave freely. */
module EventLoops {

  type Thread = nat
  type Functor = nat

  /** Where the loop thread is: about to test quit_, blocked in poll, calling the
      handlers of the active channels, with callingPendingFunctors_ set but the list not
      yet taken, running the batch, between a functor's push and its wakeup, or done. */
  datatype LoopPc = Top | Polling | Handling(wakeReady: bool) | Taking | Running | SelfPushed | Stopped

  /** Another thread is between its push, or its setting of quit_, and its wakeup. */
  datatype ThreadPc = Idle | Pushed | Quitting

  datatype Loop = Loop(pc: LoopPc, quit: bool, calling: bool, eventfd: nat,
                       pending: seq<Functor>, batch: seq<Functor>, executed: seq<Functor>,
                       enqueued: seq<Functor>, threads: map<Thread, ThreadPc>)

  datatype Step =
    | Push(t: Thread, f: Functor)
    | SetQuit(t: Thread)
    | Wake(t: Thread)
    | TestQuit
    | PollReturns(wake: bool)
    | Drain
    | LoopPush(f: Functor)
    | SelfWake
    | LoopQuit
    | HandlersDone
    | Take
    | RunNext
    | BatchDone

  ghost predicate Initial(s: Loop) {
    && s.pc == Top && !s.quit && !s.calling && s.eventfd == 0
    && s.pending == s.batch == s.executed == s.enqueued == []
    && forall t :: t in s.threads ==> s.threads[t] == Idle
  }

  predicate Enabled(s: Loop, step: Step) {
    match step
    case Push(t, f) => t in s.threads && s.threads[t] == Idle
    case SetQuit(t) => t in s.threads && s.threads[t] == Idle
    case Wake(t) => t in s.threads && s.threads[t] != Idle
    case TestQuit => s.pc == Top
    case PollReturns(wake) => s.pc == Polling && (wake ==> s.eventfd > 0)
    case Drain => s.pc == Handling(true)
    case LoopPush(f) => s.pc.Handling? || s.pc == Running
    case SelfWake => s.pc == SelfPushed
    case LoopQuit => s.pc.Handling? || s.pc == Running
    case HandlersDone => s.pc == Handling(false)
    case Take => s.pc == Taking
    case RunNext => s.pc == Running && s.batch != []
    case BatchDone => s.pc == Running && s.batch == []
  }

  /** One step. Poll may return at any time, on a timeout or for other channels, and
      may leave the wakeup channel out although the eventfd is positive: a full array of
      other events does that. */
  function Next(s: Loop, step: Step): Loop
    requires Enabled(s, step)
  {
    match step
    case Push(t, f) =>
      s.(pending := s.pending + [f], enqueued := s.enqueued + [f], threads := s.threads[t := Pushed])
    case SetQuit(t) => s.(quit := true, threads := s.threads[t := Quitting])
    case Wake(t) => s.(eventfd := s.eventfd + 1, threads := s.threads[t := Idle])
    case TestQuit => s.(pc := if s.quit then Stopped else Polling)
    case PollReturns(wake) => s.(pc := Handling(wake))
    case Drain => s.(pc := Handling(false), eventfd := 0)
    case LoopPush(f) =>
      s.(pending := s.pending + [f], enqueued := s.enqueued + [f], pc := if s.calling then SelfPushed else s.pc)
    case SelfWake => s.(eventfd := s.eventfd + 1, pc := Running)
    case LoopQuit => s.(quit := true)
    case HandlersDone => s.(calling := true, pc := Taking)
    case Take => s.(batch := s.pending, pending := [], pc := Running)
    case RunNext => s.(executed := s.executed + [s.batch[0]], batch := s.batch[1..])
    case BatchDone => s.(calling := false, pc := Top)
  }

  ghost predicate LegalRun(s: Loop, steps: seq<Step>)
    decreases |steps|
  {
    steps == [] || (Enabled(s, steps[0]) && LegalRun(Next(s, steps[0]), steps[1..]))
  }

  ghost function Run(s: Loop, steps: seq<Step>): Loop
    requires LegalRun(s, steps)
    decreases |steps|
  {
    if steps == [] then s else Run(Next(s, steps[0]), steps[1..])
  }

  // ---------- what a run was asked for ----------

  /** The functors queued in a run, from whichever thread, in the order of their pushes. */
  function Queueing(steps: seq<Step>): seq<Functor> {
    if steps == [] then []
    else
      (match steps[0]
       case Push(_, f) => [f]
       case LoopPush(f) => [f]
       case _ => []) + Queueing(steps[1..])
  }

  predicate AsksToQuit(step: Step) {
    step.SetQuit? || step.LoopQuit?
  }

  lemma {:induction false} Enqueued(s: Loop, steps: seq<Step>)
    requires LegalRun(s, steps)
    ensures Run(s, steps).enqueued == s.enqueued + Queueing(steps)
    decreases |steps|
  {
    if steps != [] {
      var n := Next(s, steps[0]);
      Enqueued(n, steps[1..]);
      assert n.enqueued + Queueing(steps[1..]) == s.enqueued + Queueing(steps);
    }
  }

  function Count(steps: seq<Step>, which: Step -> bool): nat {
    if steps == [] then 0 else (if which(steps[0]) then 1 else 0) + Count(steps[1..], which)
  }

  predicate Waking(step: Step) {
    step.Wake? || step.SelfWake?
  }

  /** Until it is drained the eventfd counts the wakeups. */
  lemma {:induction false} WakeupsCounted(s: Loop, steps: seq<Step>)
    requires LegalRun(s, steps) && Drain !in steps
    ensures Run(s, steps).eventfd == s.eventfd + Count(steps, Waking)
    decreases |steps|
  {
    if steps != [] {
      assert steps[0] in steps && forall step :: step in steps[1..] ==> step in steps;
      WakeupsCounted(Next(s, steps[0]), steps[1..]);
    }
  }

  lemma EnqueuedFromStart(s: Loop, steps: seq<Step>)
    requires Initial(s) && LegalRun(s, steps)
    ensures Run(s, steps).enqueued == Queueing(steps)
  {
    Enqueued(s, steps);
    assert [] + Queueing(steps) == Queueing(steps);
  }

  lemma FirstOfThree(a: seq<Functor>, b: seq<Functor>, c: seq<Functor>)
    ensures a <= a + b + c
  {
  }

  /** The flag is set exactly when somebody asked, and only then does the loop stop. */
  lemma {:induction false} QuitOnlyWhenAsked(s: Loop, steps: seq<Step>)
    requires LegalRun(s, steps) && (s.pc == Stopped ==> s.quit)
    ensures var n := Run(s, steps);
      && (n.quit <==> s.quit || exists i :: 0 <= i < |steps| && AsksToQuit(steps[i]))
      && (n.pc == Stopped ==> n.quit)
    decreases |steps|
  {
    if steps != [] {
      QuitOnlyWhenAsked(Next(s, steps[0]), steps[1..]);
      if i :| 0 <= i < |steps| && AsksToQuit(steps[i]) {
        assert i > 0 ==> AsksToQuit(steps[1..][i - 1]);
      }
      if i :| 0 <= i < |steps| - 1 && AsksToQuit(steps[1..][i]) {
        assert AsksToQuit(steps[i + 1]);
      }
    }
  }

  // ---------- what every interleaving keeps ----------

  ghost predicate Some(s: Loop, pc: ThreadPc) {
    exists t :: t in s.threads && s.threads[t] == pc
  }

  /** The eventfd is positive, or somebody who pushed is about to make it so. */
  ghost predicate WakeComing(s: Loop) {
    s.eventfd > 0 || Some(s, Pushed) || s.pc == SelfPushed
  }

  ghost predicate Inv(s: Loop) {
    && s.executed + s.batch + s.pending == s.enqueued
    && (s.calling <==> s.pc == Taking || s.pc == Running || s.pc == SelfPushed)
    && (s.batch != [] ==> s.pc == Running || s.pc == SelfPushed)
    && (s.pc == Running || s.pc == SelfPushed || s.pc == Top || s.pc == Polling ==>
          s.pending == [] || WakeComing(s))
    && (s.pc == Polling ==> s.quit ==> s.eventfd > 0 || Some(s, Quitting))
  }

  lemma ThreadStepKeepsInv(s: Loop, step: Step)
    requires Inv(s) && Enabled(s, step) && (step.Push? || step.SetQuit? || step.Wake?)
    ensures Inv(Next(s, step))
  {
    var n := Next(s, step);
    assert step.t in n.threads;
    if step.Push? {
      assert s.executed + s.batch + (s.pending + [step.f]) == s.executed + s.batch + s.pending + [step.f];
    }
    forall pc | pc != Idle && Some(s, pc) && !step.Wake?
      ensures Some(n, pc)
    {
      var t :| t in s.threads && s.threads[t] == pc;
      assert t in n.threads && n.threads[t] == pc;
    }
  }

  lemma LoopStepKeepsInv(s: Loop, step: Step)
    requires Inv(s) && Enabled(s, step) && !(step.Push? || step.SetQuit? || step.Wake?)
    ensures Inv(Next(s, step))
  {
    if step.LoopPush? {
      assert s.executed + s.batch + (s.pending + [step.f]) == s.executed + s.batch + s.pending + [step.f];
    } else if step.RunNext? {
      assert s.executed + [s.batch[0]] + s.batch[1..] == s.executed + s.batch;
    } else if step.Take? {
      assert s.executed + s.pending + [] == s.executed + [] + s.pending;
    }
  }

  lemma StepKeepsInv(s: Loop, step: Step)
    requires Inv(s) && Enabled(s, step)
    ensures Inv(Next(s, step))
  {
    if step.Push? || step.SetQuit? || step.Wake? {
      ThreadStepKeepsInv(s, step);
    } else {
      LoopStepKeepsInv(s, step);
    }
  }

  lemma {:induction false} RunKeepsInv(s: Loop, steps: seq<Step>)
    requires Inv(s) && LegalRun(s, steps)
    ensures Inv(Run(s, steps))
    decreases |steps|
  {
    if steps != [] {
      StepKeepsInv(s, steps[0]);
      RunKeepsInv(Next(s, steps[0]), steps[1..]);
    }
  }

  /** No wakeup is lost: in every interleaving, while the loop is parked in poll with
      functors pending, the eventfd is positive or some thread is between its push and
      its wakeup. The same holds of a request to quit. */
  lemma NoLostWakeup(s: Loop, steps: seq<Step>)
    requires Initial(s) && LegalRun(s, steps)
    ensures var n := Run(s, steps);
      n.pc == Polling ==>
        && (n.pending != [] ==> n.eventfd > 0 || Some(n, Pushed))
        && (n.quit ==> n.eventfd > 0 || Some(n, Quitting))
  {
    RunKeepsInv(s, steps);
  }

  /** Functors run in the order they were queued, each at most once: what has run, the
      rest of the batch and the pending list are the queueing order cut in three. */
  lemma FifoOnce(s: Loop, steps: seq<Step>)
    requires Initial(s) && LegalRun(s, steps)
    ensures var n := Run(s, steps);
      && n.executed + n.batch + n.pending == Queueing(steps)
      && n.executed <= Queueing(steps)
  {
    RunKeepsInv(s, steps);
    EnqueuedFromStart(s, steps);
    var n := Run(s, steps);
    FirstOfThree(n.executed, n.batch, n.pending);
  }

  lemma NothingLeft(n: Loop)
    requires Inv(n) && n.pc == Polling && n.eventfd == 0 && forall t :: t in n.threads ==> n.threads[t] == Idle
    ensures n.executed == n.enqueued && !n.quit
  {
    assert n.executed + [] + [] == n.executed;
  }

  /** When the loop is parked, nothing has woken it and no call is under way, then
      nothing is left undone. */
  lemma QuietMeansDone(s: Loop, steps: seq<Step>)
    requires Initial(s) && LegalRun(s, steps)
    requires var n := Run(s, steps);
      n.pc == Polling && n.eventfd == 0 && forall t :: t in n.threads ==> n.threads[t] == Idle
    ensures Run(s, steps).executed == Queueing(steps)
    ensures forall i :: 0 <= i < |steps| ==> !AsksToQuit(steps[i])
  {
    RunKeepsInv(s, steps);
    EnqueuedFromStart(s, steps);
    QuitOnlyWhenAsked(s, steps);
    NothingLeft(Run(s, steps));
  }

  // ---------- quitting ----------

  /** The loop thread's own way on, as against what its handlers and functors call. */
  predicate Own(step: Step) {
    step.TestQuit? || step.PollReturns? || step.Drain? || step.SelfWake? || step.HandlersDone? || step.Take?
    || step.RunNext? || step.BatchDone?
  }

  predicate Pushing(step: Step) {
    step.Push? || step.LoopPush?
  }

  /** How many steps of its own the loop thread is from stopping, once asked to quit. */
  function StepsLeft(s: Loop): nat {
    match s.pc
    case Stopped => 0
    case Top => 1
    case Running => |s.batch| + 2
    case SelfPushed => |s.batch| + 3
    case Taking => |s.pending| + 3
    case Handling(wakeReady) => |s.pending| + if wakeReady then 5 else 4
    case Polling => |s.pending| + 6
  }

  lemma {:induction false} QuitStays(s: Loop, steps: seq<Step>)
    requires s.quit && LegalRun(s, steps)
    ensures Run(s, steps).quit && (s.pc != Polling ==> Run(s, steps).pc != Polling)
    decreases |steps|
  {
    if steps != [] {
      QuitStays(Next(s, steps[0]), steps[1..]);
    }
  }

  lemma StepCounts(s: Loop, step: Step)
    requires Inv(s) && s.quit && Enabled(s, step)
    ensures (if Own(step) then 1 else 0) + StepsLeft(Next(s, step)) <= StepsLeft(s) + if Pushing(step) then 1 else 0
  {
  }

  lemma {:induction false} RunCounts(s: Loop, steps: seq<Step>)
    requires Inv(s) && s.quit && LegalRun(s, steps)
    ensures Count(steps, Own) + StepsLeft(Run(s, steps)) <= StepsLeft(s) + Count(steps, Pushing)
    decreases |steps|
  {
    if steps != [] {
      StepCounts(s, steps[0]);
      StepKeepsInv(s, steps[0]);
      RunCounts(Next(s, steps[0]), steps[1..]);
    }
  }

  /** A request to quit is final. Whatever happens after it, once the loop thread is not
      in poll it never polls again, and it takes no more steps of its own than the round
      it is in has left, one more for each functor pushed meanwhile. */
  lemma QuitStopsTheLoop(s: Loop, step: Step, steps: seq<Step>, later: seq<Step>)
    requires Inv(s) && Enabled(s, step) && (step.SetQuit? || step.LoopQuit?)
    requires LegalRun(Next(s, step), steps) && LegalRun(Run(Next(s, step), steps), later)
    ensures var n := Run(Next(s, step), steps);
      && (n.pc != Polling ==> Run(n, later).pc != Polling)
      && Count(later, Own) <= StepsLeft(n) + Count(later, Pushing)
  {
    StepKeepsInv(s, step);
    RunKeepsInv(Next(s, step), steps);
    QuitStays(Next(s, step), steps);
    QuitStays(Run(Next(s, step), steps), later);
    RunCounts(Run(Next(s, step), steps), later);
  }

  /** The step of its own the loop thread takes next; poll returns at the latest by its timeout. */
  function NextOwn(s: Loop): Step
    requires s.pc != Stopped
  {
    match s.pc
    case Top => TestQuit
    case Polling => PollReturns(false)
    case Handling(wakeReady) => if wakeReady then Drain else HandlersDone
    case Taking => Take
    case Running => if s.batch != [] then RunNext else BatchDone
    case SelfPushed => SelfWake
  }

  /** And it can always go on until it has stopped. */
  lemma {:induction false} QuitReachesStop(s: Loop) returns (steps: seq<Step>)
    requires Inv(s) && s.quit
    ensures LegalRun(s, steps) && Run(s, steps).pc == Stopped
    ensures |steps| <= StepsLeft(s) && forall i :: 0 <= i < |steps| ==> Own(steps[i])
    decreases StepsLeft(s)
  {
    if s.pc == Stopped {
      steps := [];
    } else {
      var step := NextOwn(s);
      StepCounts(s, step);
      StepKeepsInv(s, step);
      var rest := QuitReachesStop(Next(s, step));
      Prepend(s, step, rest);
      steps := [step] + rest;
    }
  }

  // ---------- one round ----------

  /** The loop thread's own steps from poll back to the top, none of its code pushing. */
  ghost function Round(s: Loop, wake: bool): seq<Step> {
    [PollReturns(wake)] + (if wake then [Drain] else []) + [HandlersDone, Take]
    + seq(|s.pending|, _ => RunNext) + [BatchDone]
  }

  lemma {:induction false} RunBatch(s: Loop, k: nat)
    requires Inv(s) && s.pc == Running && k == |s.batch|
    ensures var steps := seq(k, _ => RunNext) + [BatchDone];
      LegalRun(s, steps) && Run(s, steps)
           == s.(executed := s.executed + s.batch, batch := [], calling := false, pc := Top)
    decreases k
  {
    var steps := seq(k, _ => RunNext) + [BatchDone];
    if k == 0 {
      assert steps == [BatchDone] && s.executed + s.batch == s.executed;
      assert Run(Next(s, BatchDone), []) == Next(s, BatchDone);
    } else {
      var n := Next(s, RunNext);
      LoopStepKeepsInv(s, RunNext);
      RunBatch(n, k - 1);
      assert steps[0] == RunNext && steps[1..] == seq(k - 1, _ => RunNext) + [BatchDone];
      assert s.executed + [s.batch[0]] + s.batch[1..] == s.executed + s.batch;
    }
  }

  /** Once poll returns, one undisturbed round executes everything that was queued,
      whether or not the wakeup channel was among the active ones. */
  lemma RoundRunsEverything(s: Loop, wake: bool)
    requires Inv(s) && s.pc == Polling && (wake ==> s.eventfd > 0)
    ensures LegalRun(s, Round(s, wake))
    ensures var n := Run(s, Round(s, wake));
      n.executed == s.enqueued && n.pending == [] && n.pc == Top && n.eventfd == if wake then 0 else s.eventfd
  {
    var a := Next(s, PollReturns(wake));
    var b := if wake then Next(a, Drain) else a;
    var c := Next(b, HandlersDone);
    var rest := seq(|s.pending|, _ => RunNext) + [BatchDone];
    RoundTakes(s, wake);
    RunBatch(Next(c, Take), |s.pending|);
    Prepend(c, Take, rest);
    Prepend(b, HandlersDone, [Take] + rest);
    var tail := [HandlersDone] + ([Take] + rest);
    if wake {
      Prepend(a, Drain, tail);
      Prepend(s, PollReturns(wake), [Drain] + tail);
    } else {
      Prepend(s, PollReturns(wake), tail);
    }
    RoundIs(s, wake, rest);
  }

  /** So from the start of the loop: whenever poll returns, one round later everything
      queued by then has run. */
  lemma NextRoundRunsAll(s: Loop, steps: seq<Step>, wake: bool)
    requires Initial(s) && LegalRun(s, steps)
    requires var n := Run(s, steps); n.pc == Polling && (wake ==> n.eventfd > 0)
    ensures var n := Run(s, steps);
      LegalRun(n, Round(n, wake)) && Run(n, Round(n, wake)).executed == Queueing(steps)
  {
    RunKeepsInv(s, steps);
    EnqueuedFromStart(s, steps);
    RoundRunsEverything(Run(s, steps), wake);
  }

  lemma RoundIs(s: Loop, wake: bool, rest: seq<Step>)
    requires rest == seq(|s.pending|, _ => RunNext) + [BatchDone]
    ensures var tail := [HandlersDone] + ([Take] + rest);
      Round(s, wake) == [PollReturns(wake)] + (if wake then [Drain] + tail else tail)
  {
  }

  /** From poll to the moment the whole pending list has become the batch. */
  lemma RoundTakes(s: Loop, wake: bool)
    requires Inv(s) && s.pc == Polling && (wake ==> s.eventfd > 0)
    ensures var a := Next(s, PollReturns(wake));
      var b := if wake then Next(a, Drain) else a;
      Inv(Next(Next(b, HandlersDone), Take))
  {
    var a := Next(s, PollReturns(wake));
    var b := if wake then Next(a, Drain) else a;
    LoopStepKeepsInv(s, PollReturns(wake));
    if wake {
      LoopStepKeepsInv(a, Drain);
    }
    LoopStepKeepsInv(b, HandlersDone);
    LoopStepKeepsInv(Next(b, HandlersDone), Take);
  }

  lemma Prepend(s: Loop, step: Step, rest: seq<Step>)
    requires Enabled(s, step) && LegalRun(Next(s, step), rest)
    ensures LegalRun(s, [step] + rest) && Run(s, [step] + rest) == Run(Next(s, step), rest)
  {
    assert ([step] + rest)[1..] == rest;
  }

  // ---------- the program ----------

  /** The loop object. Each method is one atomic section of the code; `threads` and
      `pc` say, for the proof only, where each thread stands. */
  class EventLoop {
    var quit: bool
    var callingPendingFunctors: bool
    var wakeupFd: nat
    var pendingFunctors: seq<Functor>
    var functors: seq<Functor>
    ghost var executed: seq<Functor>
    ghost var enqueued: seq<Functor>
    ghost var pc: LoopPc
    ghost var threads: map<Thread, ThreadPc>

    ghost function View(): Loop
      reads this
    {
      Loop(pc, quit, callingPendingFunctors, wakeupFd, pendingFunctors, functors, executed, enqueued, threads)
    }

    constructor (ghost others: set<Thread>)
      ensures Initial(View()) && threads.Keys == others
    {
      quit, callingPendingFunctors, wakeupFd := false, false, 0;
      pendingFunctors, functors := [], [];
      executed, enqueued, pc := [], [], Top;
      threads := map t | t in others :: Idle;
    }

    /** The locked half of queueInLoop, called from thread t. */
    method QueueFrom(ghost t: Thread, cb: Functor)
      requires Enabled(View(), Push(t, cb))
      modifies this
      ensures View() == Next(old(View()), Push(t, cb))
      ensures pendingFunctors == old(pendingFunctors) + [cb]
    {
      pendingFunctors := pendingFunctors + [cb];
      enqueued := enqueued + [cb];
      threads := threads[t := Pushed];
    }

    /** quit from another thread, up to its wakeup. */
    method QuitFrom(ghost t: Thread)
      requires Enabled(View(), SetQuit(t))
      modifies this
      ensures View() == Next(old(View()), SetQuit(t))
    {
      quit := true;
      threads := threads[t := Quitting];
    }

    method WakeupFrom(ghost t: Thread)
      requires Enabled(View(), Wake(t))
      modifies this
      ensures View() == Next(old(View()), Wake(t))
    {
      wakeupFd := wakeupFd + 1;
      threads := threads[t := Idle];
    }

    method TestQuitFlag() returns (more: bool)
      requires Enabled(View(), TestQuit)
      modifies this
      ensures View() == Next(old(View()), TestQuit) && (more <==> pc == Polling) && (more <==> !quit)
    {
      more := !quit;
      pc := if quit then Stopped else Polling;
    }

    /** ready says whether the kernel reports the wakeup channel. */
    method Poll(ready: bool) returns (wakeActive: bool)
      requires Enabled(View(), PollReturns(ready))
      modifies this
      ensures View() == Next(old(View()), PollReturns(ready)) && pc == Handling(wakeActive)
    {
      wakeActive := ready;
      pc := Handling(wakeActive);
    }

    method HandleRead()
      requires Enabled(View(), Drain)
      modifies this
      ensures View() == Next(old(View()), Drain)
    {
      wakeupFd := 0;
      pc := Handling(false);
    }

    /** The push of queueInLoop from the loop thread; only while the batch runs does a
        wakeup follow. */
    method QueueInLoop(cb: Functor) returns (wake: bool)
      requires Enabled(View(), LoopPush(cb))
      modifies this
      ensures View() == Next(old(View()), LoopPush(cb)) && (wake <==> pc == SelfPushed)
      ensures pendingFunctors == old(pendingFunctors) + [cb] && (wake <==> callingPendingFunctors)
    {
      pendingFunctors := pendingFunctors + [cb];
      enqueued := enqueued + [cb];
      wake := callingPendingFunctors;
      pc := if wake then SelfPushed else pc;
    }

    method Wakeup()
      requires Enabled(View(), SelfWake)
      modifies this
      ensures View() == Next(old(View()), SelfWake)
    {
      wakeupFd := wakeupFd + 1;
      pc := Running;
    }

    method Quit()
      requires Enabled(View(), LoopQuit)
      modifies this
      ensures View() == Next(old(View()), LoopQuit)
    {
      quit := true;
    }

    method BeginPending()
      requires Enabled(View(), HandlersDone)
      modifies this
      ensures View() == Next(old(View()), HandlersDone)
    {
      callingPendingFunctors := true;
      pc := Taking;
    }

    method SwapPending()
      requires Enabled(View(), Take)
      modifies this
      ensures View() == Next(old(View()), Take)
      ensures functors == old(pendingFunctors) && pendingFunctors == []
    {
      functors, pendingFunctors := pendingFunctors, [];
      pc := Running;
    }

    method CallFunctor() returns (f: Functor)
      requires Enabled(View(), RunNext)
      modifies this
      ensures View() == Next(old(View()), RunNext) && executed == old(executed) + [f]
    {
      f := functors[0];
      executed := executed + [f];
      functors := functors[1..];
    }

    method EndPending()
      requires Enabled(View(), BatchDone)
      modifies this
      ensures View() == Next(old(View()), BatchDone)
    {
      callingPendingFunctors := false;
      pc := Top;
    }
  }
}
