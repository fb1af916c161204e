/** The database connection pool. Every locked section is one step: the producer makes
    a connection when the queue is empty, a caller borrows from the front, the returning
    deleter pushes to the back, and a scanner closes connections idle for too long. */
module ConnectionPools {

  /** A connection and the clock reading at which its idle time began. */
  datatype Connection = Connection(id: nat, since: nat)

  datatype Config = Config(initSize: nat, maxSize: int, idleLimit: int)

  /** The pool: `count` is _connectionCnt; `borrowed` and `deleted` name the connections
      handed out and closed, `made` how many were ever made, `now` the last clock reading. */
  datatype Pool = Pool(queue: seq<Connection>, count: int, borrowed: set<nat>, deleted: set<nat>, made: nat, now: nat)

  datatype Event =
    | Produce(t: nat)
    | Borrow
    | Return(id: nat, t: nat)
    | Scan(ts: seq<nat>)

  function Push(s: Pool, id: nat, t: nat): Pool {
    s.(queue := s.queue + [Connection(id, t)], now := t)
  }

  function Start(cfg: Config, ts: seq<nat>): Pool
    requires |ts| == cfg.initSize
  {
    Pool(seq(cfg.initSize, i requires 0 <= i < |ts| => Connection(i, ts[i])), cfg.initSize, {}, {}, cfg.initSize,
         if ts == [] then 0 else ts[|ts| - 1])
  }

  function DoProduce(cfg: Config, s: Pool, t: nat): Pool {
    if s.count < cfg.maxSize then Push(s, s.made, t).(count := s.count + 1, made := s.made + 1) else s.(now := t)
  }

  /** The connection a caller gets, or nothing after a timeout on an empty queue. */
  function DoBorrow(s: Pool): Pool {
    if s.queue == [] then s else s.(queue := s.queue[1..], borrowed := s.borrowed + {s.queue[0].id})
  }

  function DoReturn(s: Pool, id: nat, t: nat): Pool {
    Push(s, id, t).(borrowed := s.borrowed - {id})
  }

  predicate Expired(cfg: Config, c: Connection, t: nat) {
    t - c.since > cfg.idleLimit
  }

  predicate Sorted(ts: seq<nat>) {
    forall i, j :: 0 <= i < j < |ts| ==> ts[i] <= ts[j]
  }

  function Close(s: Pool, t: nat): Pool
    requires s.queue != []
  {
    s.(queue := s.queue[1..], count := s.count - 1, deleted := s.deleted + {s.queue[0].id}, now := t)
  }

  /** The scanner's loop, one clock reading per check. It also says whether the loop
      came to read the front of an empty queue, which the code does not guard. */
  function DoScan(cfg: Config, s: Pool, ts: seq<nat>): (Pool, bool)
    decreases |ts|
  {
    if s.count <= cfg.initSize then (s, false)
    else if s.queue == [] then (s, true)
    else if ts == [] || !Expired(cfg, s.queue[0], ts[0]) then (if ts == [] then s else s.(now := ts[0]), false)
    else DoScan(cfg, Close(s, ts[0]), ts[1..])
  }

  /** What the environment may do: the clock never runs backwards, the producer holds the
      lock only once it found the queue empty, only borrowed connections come back, and
      the scanner reads the clock as often as it needs. */
  predicate Legal(cfg: Config, s: Pool, e: Event) {
    match e
    case Produce(t) => s.queue == [] && t >= s.now
    case Borrow => true
    case Return(id, t) => id in s.borrowed && t >= s.now
    case Scan(ts) => Sorted(ts) && |ts| > |s.queue| && ts[0] >= s.now
  }

  function Next(cfg: Config, s: Pool, e: Event): Pool {
    match e
    case Produce(t) => DoProduce(cfg, s, t)
    case Borrow => DoBorrow(s)
    case Return(id, t) => DoReturn(s, id, t)
    case Scan(ts) => DoScan(cfg, s, ts).0
  }

  ghost predicate LegalRun(cfg: Config, s: Pool, es: seq<Event>)
    decreases |es|
  {
    es == [] || (Legal(cfg, s, es[0]) && LegalRun(cfg, Next(cfg, s, es[0]), es[1..]))
  }

  ghost function Run(cfg: Config, s: Pool, es: seq<Event>): Pool
    requires LegalRun(cfg, s, es)
    decreases |es|
  {
    if es == [] then s else Run(cfg, Next(cfg, s, es[0]), es[1..])
  }

  // ---------- what every interleaving keeps ----------

  /** The queue is in the order of last use, oldest first. */
  ghost predicate ByAge(s: Pool) {
    && (forall i, j :: 0 <= i < j < |s.queue| ==> s.queue[i].since <= s.queue[j].since)
    && (forall i :: 0 <= i < |s.queue| ==> s.queue[i].since <= s.now)
  }

  ghost predicate Queued(s: Pool, id: nat) {
    exists i :: 0 <= i < |s.queue| && s.queue[i].id == id
  }

  /** Every connection ever made is queued once, borrowed, or deleted, and only one of these. */
  ghost predicate Placed(s: Pool) {
    && (forall i, j :: 0 <= i < j < |s.queue| ==> s.queue[i].id != s.queue[j].id)
    && (forall i :: 0 <= i < |s.queue| ==>
          s.queue[i].id < s.made && s.queue[i].id !in s.borrowed && s.queue[i].id !in s.deleted)
    && s.borrowed !! s.deleted
    && (forall id :: id in s.borrowed || id in s.deleted ==> id < s.made)
    && (forall id: nat :: id < s.made && id !in s.borrowed && id !in s.deleted ==> Queued(s, id))
  }

  ghost predicate Inv(cfg: Config, s: Pool) {
    && ByAge(s) && Placed(s)
    && s.count == |s.queue| + |s.borrowed|
    && cfg.initSize <= s.count
    && (s.count <= cfg.initSize || s.count <= cfg.maxSize)
  }

  lemma StartInv(cfg: Config, ts: seq<nat>)
    requires |ts| == cfg.initSize && Sorted(ts)
    ensures Inv(cfg, Start(cfg, ts))
  {
    var s := Start(cfg, ts);
    forall id: nat | id < s.made
      ensures Queued(s, id)
    {
      assert s.queue[id].id == id;
    }
  }

  /** The pool starts with its floor of connections, each stamped when it was made. */
  lemma StartHolds(cfg: Config, ts: seq<nat>)
    requires |ts| == cfg.initSize
    ensures var s := Start(cfg, ts);
      && |s.queue| == |ts| == s.count == s.made && s.borrowed == {} && s.deleted == {}
      && (forall i :: 0 <= i < |ts| ==> s.queue[i] == Connection(i, ts[i]))
      && (ts != [] ==> s.now == ts[|ts| - 1])
  {
  }

  lemma PushKeepsPlaced(s: Pool, t: Pool, id: nat, now: nat)
    requires ByAge(s) && Placed(s) && now >= s.now
    requires t.queue == s.queue + [Connection(id, now)] && t.now == now && t.deleted == s.deleted
    requires (id == s.made && t.made == s.made + 1 && t.borrowed == s.borrowed)
          || (id in s.borrowed && t.made == s.made && t.borrowed == s.borrowed - {id})
    ensures ByAge(t) && Placed(t)
  {
    forall k: nat | k < t.made && k !in t.borrowed && k !in t.deleted
      ensures Queued(t, k)
    {
      if k == id {
        assert t.queue[|s.queue|].id == id;
      } else {
        assert Queued(s, k);
        var i :| 0 <= i < |s.queue| && s.queue[i].id == k;
        assert t.queue[i].id == k;
      }
    }
  }

  lemma PopKeepsPlaced(s: Pool, t: Pool)
    requires ByAge(s) && Placed(s) && s.queue != [] && t.now >= s.now
    requires t.queue == s.queue[1..] && t.made == s.made
    requires (t.borrowed == s.borrowed + {s.queue[0].id} && t.deleted == s.deleted)
          || (t.deleted == s.deleted + {s.queue[0].id} && t.borrowed == s.borrowed)
    ensures ByAge(t) && Placed(t)
  {
    forall k: nat | k < t.made && k !in t.borrowed && k !in t.deleted
      ensures Queued(t, k)
    {
      assert Queued(s, k);
      var i :| 0 <= i < |s.queue| && s.queue[i].id == k;
      assert t.queue[i - 1].id == k;
    }
  }

  lemma StepKeepsInv(cfg: Config, s: Pool, e: Event)
    requires Inv(cfg, s) && Legal(cfg, s, e)
    ensures Inv(cfg, Next(cfg, s, e))
  {
    var n := Next(cfg, s, e);
    match e
    case Produce(t) =>
      if s.count < cfg.maxSize {
        PushKeepsPlaced(s, n, s.made, t);
      } else {
        assert forall id :: Queued(s, id) ==> Queued(n, id);
      }
    case Borrow =>
      if s.queue != [] {
        PopKeepsPlaced(s, n);
      }
    case Return(id, t) =>
      PushKeepsPlaced(s, n, id, t);
    case Scan(ts) =>
      ScanKeepsInv(cfg, s, ts);
  }

  lemma {:induction false} ScanKeepsInv(cfg: Config, s: Pool, ts: seq<nat>)
    requires Inv(cfg, s) && Sorted(ts) && (ts != [] ==> ts[0] >= s.now)
    ensures Inv(cfg, DoScan(cfg, s, ts).0)
    ensures DoScan(cfg, s, ts).0.borrowed == s.borrowed
    decreases |ts|
  {
    if s.count > cfg.initSize && s.queue != [] && ts != [] {
      if Expired(cfg, s.queue[0], ts[0]) {
        PopKeepsPlaced(s, Close(s, ts[0]));
        ScanKeepsInv(cfg, Close(s, ts[0]), ts[1..]);
      } else {
        var n := s.(now := ts[0]);
        assert forall id :: Queued(s, id) ==> Queued(n, id);
      }
    }
  }

  lemma {:induction false} RunKeepsInv(cfg: Config, s: Pool, es: seq<Event>)
    requires Inv(cfg, s) && LegalRun(cfg, s, es)
    ensures Inv(cfg, Run(cfg, s, es))
    decreases |es|
  {
    if es != [] {
      StepKeepsInv(cfg, s, es[0]);
      RunKeepsInv(cfg, Next(cfg, s, es[0]), es[1..]);
    }
  }

  /** Conservation: in every run the counter is the number queued plus the number
      borrowed, stays within its bounds, and each connection is in exactly one place:
      once in the queue, which is in the order of last use, borrowed, or deleted. */
  lemma ConnectionsConserved(cfg: Config, ts: seq<nat>, es: seq<Event>, id: nat)
    requires |ts| == cfg.initSize && Sorted(ts) && LegalRun(cfg, Start(cfg, ts), es)
    ensures var s := Run(cfg, Start(cfg, ts), es);
      && s.count == |s.queue| + |s.borrowed|
      && cfg.initSize <= s.count && (s.count <= cfg.initSize || s.count <= cfg.maxSize)
      && (id < s.made <==> Queued(s, id) || id in s.borrowed || id in s.deleted)
      && !(id in s.borrowed && id in s.deleted)
      && !(Queued(s, id) && (id in s.borrowed || id in s.deleted))
      && (forall i, j :: 0 <= i < j < |s.queue| ==> s.queue[i].id != s.queue[j].id)
      && (forall i, j :: 0 <= i < j < |s.queue| ==> s.queue[i].since <= s.queue[j].since <= s.now)
  {
    StartInv(cfg, ts);
    RunKeepsInv(cfg, Start(cfg, ts), es);
  }

  /** A pool below its limit serves a caller who finds the queue empty: the producer
      makes a connection nobody has had, and the caller gets it. */
  lemma ProducerServes(cfg: Config, s: Pool, t: nat)
    requires Inv(cfg, s) && Legal(cfg, s, Produce(t)) && s.count < cfg.maxSize
    ensures var n := Next(cfg, Next(cfg, s, Produce(t)), Borrow);
      && n.queue == [] && n.count == s.count + 1
      && s.made !in s.borrowed && n.borrowed == s.borrowed + {s.made}
  {
    StepKeepsInv(cfg, s, Produce(t));
  }

  /** A borrowed connection stays borrowed until its holder returns it; nothing deletes it. */
  lemma BorrowedStays(cfg: Config, s: Pool, e: Event, id: nat)
    requires Inv(cfg, s) && Legal(cfg, s, e) && id in s.borrowed
    ensures var n := Next(cfg, s, e);
      id !in n.deleted && (id in n.borrowed <==> !(e.Return? && e.id == id))
  {
    StepKeepsInv(cfg, s, e);
    if e.Scan? {
      ScanKeepsInv(cfg, s, e.ts);
    }
  }

  /** The first k connections are idle for longer than the limit, each at its own check,
      with the counter above its floor. */
  ghost predicate OverLimit(cfg: Config, queue: seq<Connection>, count: int, ts: seq<nat>, k: nat)
    requires k <= |queue| && k <= |ts|
  {
    forall i :: 0 <= i < k ==> ts[i] - queue[i].since > cfg.idleLimit && count - i > cfg.initSize
  }

  /** From s to n the first k queued connections were closed, rightly, and no more could
      be; nothing else changed but the clock. */
  ghost predicate ClosedPrefix(cfg: Config, s: Pool, ts: seq<nat>, n: Pool, k: nat) {
    && k <= |s.queue| < |ts| && OverLimit(cfg, s.queue, s.count, ts, k)
    && (k == |s.queue| || s.count - k <= cfg.initSize || ts[k] - s.queue[k].since <= cfg.idleLimit)
    && n.queue == s.queue[k..] && n.count == s.count - k && n.deleted == s.deleted + FirstIds(s.queue, k)
    && n.borrowed == s.borrowed && n.made == s.made
  }

  lemma OneMoreClosed(cfg: Config, s: Pool, ts: seq<nat>, n: Pool, j: nat)
    requires s.queue != [] && ts != [] && ClosedPrefix(cfg, Close(s, ts[0]), ts[1..], n, j)
    requires ts[0] - s.queue[0].since > cfg.idleLimit && s.count > cfg.initSize
    ensures ClosedPrefix(cfg, s, ts, n, j + 1)
  {
    var c := Close(s, ts[0]);
    assert c.queue[j..] == s.queue[j + 1..];
    forall i | 0 <= i < j + 1
      ensures ts[i] - s.queue[i].since > cfg.idleLimit && s.count - i > cfg.initSize
    {
      if i > 0 {
        assert ts[1..][i - 1] - c.queue[i - 1].since > cfg.idleLimit;
      }
    }
    PrefixIds(s.queue, j);
    assert s.deleted + ({s.queue[0].id} + FirstIds(c.queue, j)) == c.deleted + FirstIds(c.queue, j);
  }

  lemma NoneClosed(cfg: Config, s: Pool, ts: seq<nat>, n: Pool)
    requires |s.queue| < |ts| && n == s.(now := n.now)
    requires s.queue == [] || s.count <= cfg.initSize || ts[0] - s.queue[0].since <= cfg.idleLimit
    ensures ClosedPrefix(cfg, s, ts, n, 0)
  {
    assert FirstIds(s.queue, 0) == {};
  }

  lemma CloseScansOn(cfg: Config, s: Pool, ts: seq<nat>)
    requires Inv(cfg, s) && Legal(cfg, s, Scan(ts)) && s.queue != [] && s.count > cfg.initSize
    ensures Inv(cfg, Close(s, ts[0])) && Legal(cfg, Close(s, ts[0]), Scan(ts[1..]))
  {
    PopKeepsPlaced(s, Close(s, ts[0]));
  }

  /** A scan closes a prefix of the queue, each connection in it idle for longer than the
      limit at its own check, and stops at the floor, at the end of the queue, or at the
      first one that is not. Nothing else changes but the clock. */
  lemma {:induction false} ScanClosesPrefix(cfg: Config, s: Pool, ts: seq<nat>) returns (k: nat)
    requires Inv(cfg, s) && Legal(cfg, s, Scan(ts))
    ensures ClosedPrefix(cfg, s, ts, DoScan(cfg, s, ts).0, k)
    decreases |ts|
  {
    if s.count > cfg.initSize && s.queue != [] && ts[0] - s.queue[0].since > cfg.idleLimit {
      CloseScansOn(cfg, s, ts);
      var j := ScanClosesPrefix(cfg, Close(s, ts[0]), ts[1..]);
      OneMoreClosed(cfg, s, ts, DoScan(cfg, s, ts).0, j);
      k := j + 1;
    } else {
      NoneClosed(cfg, s, ts, DoScan(cfg, s, ts).0);
      k := 0;
    }
  }

  ghost function FirstIds(queue: seq<Connection>, k: nat): set<nat>
    requires k <= |queue|
  {
    set i | 0 <= i < k :: queue[i].id
  }

  lemma PrefixIds(queue: seq<Connection>, j: nat)
    requires j < |queue|
    ensures {queue[0].id} + FirstIds(queue[1..], j) == FirstIds(queue, j + 1)
  {
    forall i | 0 <= i < j + 1
      ensures queue[i].id in {queue[0].id} + FirstIds(queue[1..], j)
    {
      if i > 0 {
        assert queue[1..][i - 1] == queue[i];
      }
    }
  }

  /** A connection that comes back or is newly made stands last, stamped with the time;
      one is made only below the limit. */
  lemma StampedAtTheBack(cfg: Config, s: Pool, id: nat, t: nat)
    ensures Legal(cfg, s, Return(id, t)) ==>
              Next(cfg, s, Return(id, t))
              == s.(queue := s.queue + [Connection(id, t)], borrowed := s.borrowed - {id}, now := t)
    ensures Legal(cfg, s, Produce(t)) ==>
              Next(cfg, s, Produce(t)) ==
              if s.count >= cfg.maxSize then s.(now := t)
              else s.(queue := s.queue + [Connection(s.made, t)], count := s.count + 1, made := s.made + 1, now := t)
  {
  }

  /** A caller gets the connection idle for longest, if there is one. */
  lemma BorrowTakesOldest(cfg: Config, s: Pool)
    requires Inv(cfg, s)
    ensures var n := Next(cfg, s, Borrow);
      if s.queue == [] then n == s
      else
        && n == s.(queue := s.queue[1..], borrowed := s.borrowed + {s.queue[0].id})
        && forall i :: 0 <= i < |s.queue| ==> s.queue[0].since <= s.queue[i].since
  {
  }

  /** The early break is exact: because the queue is in order of age, a scan ends with
      the counter at its floor, an empty queue, or no queued connection over the idle
      limit at the last check - not only the one at the front. */
  lemma {:induction false} ScanExact(cfg: Config, s: Pool, ts: seq<nat>)
    requires Inv(cfg, s) && Legal(cfg, s, Scan(ts))
    ensures var n := DoScan(cfg, s, ts).0;
      || n.count == cfg.initSize || n.queue == []
      || NoneOver(cfg, n.queue, n.now)
    decreases |ts|
  {
    if s.count > cfg.initSize && s.queue != [] {
      if ts[0] - s.queue[0].since > cfg.idleLimit {
        CloseScansOn(cfg, s, ts);
        ScanExact(cfg, Close(s, ts[0]), ts[1..]);
      } else {
        FrontDecides(cfg, s, ts[0]);
      }
    }
  }

  ghost predicate NoneOver(cfg: Config, queue: seq<Connection>, now: nat) {
    forall i :: 0 <= i < |queue| ==> now - queue[i].since <= cfg.idleLimit
  }

  lemma FrontDecides(cfg: Config, s: Pool, t: nat)
    requires ByAge(s) && s.queue != [] && t - s.queue[0].since <= cfg.idleLimit
    ensures NoneOver(cfg, s.queue, t)
  {
    forall i | 0 <= i < |s.queue|
      ensures t - s.queue[i].since <= cfg.idleLimit
    {
      assert i > 0 ==> s.queue[0].since <= s.queue[i].since;
    }
  }

  /** The scanner reads the front of an empty queue exactly when more connections are
      borrowed than the floor and every queued one is over the limit at its own check. */
  lemma {:induction false} UnguardedReadIff(cfg: Config, s: Pool, ts: seq<nat>)
    requires Inv(cfg, s) && Legal(cfg, s, Scan(ts))
    ensures DoScan(cfg, s, ts).1 <==>
            |s.borrowed| > cfg.initSize && forall i :: 0 <= i < |s.queue| ==> Expired(cfg, s.queue[i], ts[i])
    decreases |ts|
  {
    if s.queue != [] && s.count > cfg.initSize && Expired(cfg, s.queue[0], ts[0]) {
      var n := Close(s, ts[0]);
      PopKeepsPlaced(s, n);
      UnguardedReadIff(cfg, n, ts[1..]);
      assert forall i :: 0 <= i < |n.queue| ==> n.queue[i] == s.queue[i + 1] && ts[1..][i] == ts[i + 1];
      if forall i :: 0 <= i < |n.queue| ==> Expired(cfg, n.queue[i], ts[1..][i]) {
        forall i | 0 <= i < |s.queue|
          ensures Expired(cfg, s.queue[i], ts[i])
        {
          assert i > 0 ==> Expired(cfg, n.queue[i - 1], ts[1..][i - 1]);
        }
      }
    }
  }

  /** And it can: two connections borrowed over a floor of one leave the queue empty. */
  lemma UnguardedReadReachable()
    ensures var cfg, es := Config(1, 2, 0), [Borrow, Produce(0), Borrow];
      LegalRun(cfg, Start(cfg, [0]), es) && DoScan(cfg, Run(cfg, Start(cfg, [0]), es), [0]).1
  {
    var cfg := Config(1, 2, 0);
    var a := Start(cfg, [0]);
    var b := Next(cfg, a, Borrow);
    var c := Next(cfg, b, Produce(0));
    var d := Next(cfg, c, Borrow);
    assert d.queue == [] && d.count == 2;
    assert LegalRun(cfg, d, []) && Run(cfg, d, []) == d;
    assert LegalRun(cfg, c, [Borrow]) && Run(cfg, c, [Borrow]) == d;
    assert [Produce(0), Borrow][1..] == [Borrow];
    assert LegalRun(cfg, b, [Produce(0), Borrow]) && Run(cfg, b, [Produce(0), Borrow]) == d;
    assert [Borrow, Produce(0), Borrow][1..] == [Produce(0), Borrow];
  }

  // ---------- the program ----------

  class ConnectionPool {
    const cfg: Config
    var connectionQue: seq<Connection>
    var connectionCnt: int
    ghost var borrowed: set<nat>
    ghost var deleted: set<nat>
    ghost var now: nat
    var made: nat

    ghost function View(): Pool
      reads this
    {
      Pool(connectionQue, connectionCnt, borrowed, deleted, made, now)
    }

    /** ts are the clock readings taken while the first connections are made. */
    constructor (cfg: Config, ts: seq<nat>)
      requires |ts| == cfg.initSize
      ensures this.cfg == cfg && View() == Start(cfg, ts)
    {
      this.cfg := cfg;
      connectionQue, connectionCnt, made := [], 0, 0;
      borrowed, deleted, now := {}, {}, 0;
      new;
      for i := 0 to cfg.initSize
        invariant View() == Pool(Start(cfg, ts).queue[..i], i, {}, {}, i, if i == 0 then 0 else ts[i - 1])
      {
        connectionQue := connectionQue + [Connection(made, ts[i])];
        connectionCnt := connectionCnt + 1;
        made := made + 1;
        now := ts[i];
      }
    }

    /** One pass of the producer, which holds the lock and found the queue empty. */
    method ProduceConnectionTask(t: nat)
      requires Legal(cfg, View(), Produce(t))
      modifies this
      ensures View() == Next(cfg, old(View()), Produce(t))
    {
      if connectionCnt < cfg.maxSize {
        connectionQue := connectionQue + [Connection(made, t)];
        connectionCnt := connectionCnt + 1;
        made := made + 1;
      }
      now := t;
    }

    /** The connection borrowed, or null after a timeout on an empty queue. */
    method GetConnection() returns (found: bool, sp: nat)
      modifies this
      ensures View() == Next(cfg, old(View()), Borrow)
      ensures found <==> old(connectionQue) != []
      ensures found ==> sp == old(connectionQue)[0].id && sp in borrowed
    {
      found, sp := false, 0;
      if connectionQue != [] {
        found, sp := true, connectionQue[0].id;
        borrowed := borrowed + {sp};
        connectionQue := connectionQue[1..];
      }
    }

    /** What the shared pointer's deleter does. */
    method ReturnConnection(pcon: nat, t: nat)
      requires Legal(cfg, View(), Return(pcon, t))
      modifies this
      ensures View() == Next(cfg, old(View()), Return(pcon, t))
    {
      connectionQue := connectionQue + [Connection(pcon, t)];
      borrowed := borrowed - {pcon};
      now := t;
    }

    /** One pass of the scanner; ts are its clock readings. It reports, instead of
        performing, the read of an empty queue's front. */
    method ScannerConnectionTask(ts: seq<nat>) returns (unguarded: bool)
      requires Legal(cfg, View(), Scan(ts))
      modifies this
      ensures (View(), unguarded) == DoScan(cfg, old(View()), ts)
    {
      var k := 0;
      while connectionCnt > cfg.initSize
        invariant k + |connectionQue| == |old(connectionQue)|
        invariant DoScan(cfg, View(), ts[k..]) == DoScan(cfg, old(View()), ts)
        decreases |connectionQue|
      {
        if connectionQue == [] {
          return true;
        }
        var p := connectionQue[0];
        now := ts[k];
        if ts[k] - p.since > cfg.idleLimit {
          connectionQue := connectionQue[1..];
          connectionCnt := connectionCnt - 1;
          deleted := deleted + {p.id};
          assert ts[k..][1..] == ts[k + 1..];
          k := k + 1;
        } else {
          break;
        }
      }
      unguarded := false;
    }
  }
}
