/** The output path of a TCP connection: a send writes straight to the socket or
    appends to the output buffer, the write handler drains the buffer, and a
    requested shutdown waits until the buffer is empty. */
module TcpConnections {
  import opened Bytes
  import opened ByteBuffer

  datatype ConnState = Disconnected | Connecting | Connected | Disconnecting

  /** The kernel's answer to a write: bytes taken, a full socket buffer, a peer that is
      gone (EPIPE or ECONNRESET), or any other error. */
  datatype Written = Wrote(n: nat) | WouldBlock | PeerGone | OtherError

  datatype Callback = WriteComplete | HighWater(size: nat)

  /** One connection. `wire` holds the bytes the kernel took, `accepted` the messages
      taken responsibility for, `shutdowns` what was on the wire at each shutdown of
      the write side, and `queued` the callbacks queued in the loop. */
  datatype Conn = Conn(state: ConnState, writing: bool, out: seq<byte>, wire: seq<byte>,
                       accepted: seq<seq<byte>>, shutdowns: seq<seq<byte>>, queued: seq<Callback>)

  datatype Event =
    | Establish
    | Send(data: seq<byte>, answer: Written)
    | Shutdown
    | CanWrite(answer: Written)
    | Close
    | Destroy

  const HIGH_WATER_MARK := 64 * 1024 * 1024

  function Init(): Conn {
    Conn(Connecting, false, [], [], [], [], [])
  }

  /** What the environment may do: the kernel takes at most what it is offered, and a
      connection is established once. */
  predicate Legal(c: Conn, e: Event) {
    match e
    case Establish => c.state == Connecting
    case Send(data, answer) => answer.Wrote? ==> answer.n <= |data|
    case CanWrite(answer) => answer.Wrote? ==> answer.n <= |c.out|
    case _ => true
  }

  // ---------- the steps ----------

  predicate Direct(c: Conn) {
    !c.writing && c.out == []
  }

  /** The bytes of a message the kernel takes at once. */
  function TakenAtOnce(c: Conn, data: seq<byte>, answer: Written): nat
    requires answer.Wrote? ==> answer.n <= |data|
  {
    if Direct(c) && answer.Wrote? then answer.n else 0
  }

  function DoSend(c: Conn, data: seq<byte>, answer: Written): Conn
    requires answer.Wrote? ==> answer.n <= |data|
  {
    var n := TakenAtOnce(c, data, answer);
    var rest := data[n..];
    var oldlen := |c.out|;
    if c.state != Connected then c
    else if Direct(c) && answer == PeerGone then c
    else if rest == [] then
      c.(wire := c.wire + data[..n], accepted := c.accepted + [data],
         queued := if Direct(c) && answer.Wrote? then c.queued + [WriteComplete] else c.queued)
    else
      c.(wire := c.wire + data[..n], accepted := c.accepted + [data], out := c.out + rest, writing := true,
         queued := if oldlen + |rest| >= HIGH_WATER_MARK && oldlen < HIGH_WATER_MARK
                   then c.queued + [HighWater(oldlen + |rest|)] else c.queued)
  }

  function ShutdownInLoop(c: Conn): Conn {
    if c.writing then c else c.(shutdowns := c.shutdowns + [c.wire])
  }

  function DoShutdown(c: Conn): Conn {
    if c.state == Connected then ShutdownInLoop(c.(state := Disconnecting)) else c
  }

  function DoCanWrite(c: Conn, answer: Written): Conn
    requires answer.Wrote? ==> answer.n <= |c.out|
  {
    if !c.writing || !answer.Wrote? || answer.n == 0 then c
    else
      var sent := c.(wire := c.wire + c.out[..answer.n], out := Retrieved(c.out, answer.n));
      if sent.out != [] then sent
      else
        var drained := sent.(writing := false, queued := sent.queued + [WriteComplete]);
        if c.state == Disconnecting then ShutdownInLoop(drained) else drained
  }

  function Next(c: Conn, e: Event): Conn
    requires Legal(c, e)
  {
    match e
    case Establish => c.(state := Connected)
    case Send(data, answer) => DoSend(c, data, answer)
    case Shutdown => DoShutdown(c)
    case CanWrite(answer) => DoCanWrite(c, answer)
    case Close => c.(state := Disconnected, writing := false)
    case Destroy => if c.state == Connected then c.(state := Disconnected, writing := false) else c
  }

  ghost predicate LegalRun(c: Conn, es: seq<Event>)
    decreases |es|
  {
    es == [] || (Legal(c, es[0]) && LegalRun(Next(c, es[0]), es[1..]))
  }

  ghost function Run(c: Conn, es: seq<Event>): Conn
    requires LegalRun(c, es)
    decreases |es|
  {
    if es == [] then c else Run(Next(c, es[0]), es[1..])
  }

  // ---------- what every run keeps ----------

  ghost function Flatten(ms: seq<seq<byte>>): seq<byte> {
    if ms == [] then [] else Flatten(ms[..|ms| - 1]) + ms[|ms| - 1]
  }

  ghost predicate Inv(c: Conn) {
    && c.wire + c.out == Flatten(c.accepted)
    && (c.state == Connecting ==> c.accepted == [] && !c.writing)
    && (c.state == Connected || c.state == Disconnecting ==> (c.writing <==> c.out != []))
    && (c.state == Disconnected ==> !c.writing)
    && (c.state == Connecting || c.state == Connected ==> c.shutdowns == [])
    && (c.state == Disconnecting ==> (c.shutdowns == [] <==> c.writing))
    && |c.shutdowns| <= 1
    && (c.shutdowns != [] ==> c.out == [] && c.shutdowns[0] == c.wire)
  }

  lemma FlattenAppend(ms: seq<seq<byte>>, m: seq<byte>)
    ensures Flatten(ms + [m]) == Flatten(ms) + m
  {
    assert (ms + [m])[..|ms|] == ms;
  }

  /** A part taken at once and the rest behind the backlog: in order when one of the
      part and the backlog is empty. */
  lemma SentJoins(wire: seq<byte>, out: seq<byte>, data: seq<byte>, n: nat)
    requires n <= |data| && (n == 0 || out == [])
    ensures (wire + data[..n]) + (out + data[n..]) == (wire + out) + data
    ensures n == |data| ==> (wire + data[..n]) + out == (wire + out) + data
  {
    if n == 0 {
      assert wire + data[..n] == wire && data[n..] == data;
      JoinAssociates(wire, out, data);
    } else {
      assert wire + out == wire && out + data[n..] == data[n..];
      JoinSplit(data, n);
      JoinAssociates(wire, data[..n], data[n..]);
    }
    if n == |data| {
      assert data[n..] == [] && out + data[n..] == out;
    }
  }

  lemma SendKeepsInv(c: Conn, data: seq<byte>, answer: Written)
    requires Inv(c) && Legal(c, Send(data, answer))
    ensures Inv(DoSend(c, data, answer))
  {
    var n := TakenAtOnce(c, data, answer);
    FlattenAppend(c.accepted, data);
    SentJoins(c.wire, c.out, data, n);
  }

  lemma CanWriteKeepsInv(c: Conn, answer: Written)
    requires Inv(c) && Legal(c, CanWrite(answer))
    ensures Inv(DoCanWrite(c, answer))
  {
    if answer.Wrote? {
      JoinSplit(c.out, answer.n);
      JoinAssociates(c.wire, c.out[..answer.n], c.out[answer.n..]);
      assert answer.n == |c.out| ==> c.out[answer.n..] == [];
    }
  }

  lemma StepKeepsInv(c: Conn, e: Event)
    requires Inv(c) && Legal(c, e)
    ensures Inv(Next(c, e))
  {
    match e
    case Send(data, answer) => SendKeepsInv(c, data, answer);
    case CanWrite(answer) => CanWriteKeepsInv(c, answer);
    case _ =>
  }

  lemma {:induction false} RunKeepsInv(c: Conn, es: seq<Event>)
    requires Inv(c) && LegalRun(c, es)
    ensures Inv(Run(c, es))
    decreases |es|
  {
    if es != [] {
      StepKeepsInv(c, es[0]);
      RunKeepsInv(Next(c, es[0]), es[1..]);
    }
  }

  /** Stream order: in every run the bytes on the wire followed by the output buffer
      are the accepted messages in order, and while the connection is up the channel
      asks for write events exactly when the buffer holds something. */
  lemma StreamOrder(es: seq<Event>)
    requires LegalRun(Init(), es)
    ensures var c := Run(Init(), es);
      && c.wire + c.out == Flatten(c.accepted)
      && (c.state == Connected || c.state == Disconnecting ==> (c.writing <==> c.out != []))
  {
    RunKeepsInv(Init(), es);
  }

  /** A message is accepted exactly when the connection is up and the write that tries
      it at once does not find the peer gone; then it is dropped whole. */
  lemma AcceptedExactly(c: Conn, data: seq<byte>, answer: Written)
    requires Inv(c) && Legal(c, Send(data, answer))
    ensures var d := DoSend(c, data, answer);
      if c.state == Connected && !(c.out == [] && answer == PeerGone)
      then d.accepted == c.accepted + [data] && d.wire + d.out == c.wire + c.out + data
      else d == c
  {
    SendKeepsInv(c, data, answer);
    FlattenAppend(c.accepted, data);
  }

  /** The write side is shut down at most once, and only when every accepted byte is
      already on the wire. */
  lemma ShutdownAfterEverything(es: seq<Event>)
    requires LegalRun(Init(), es)
    ensures var c := Run(Init(), es);
      && |c.shutdowns| <= 1
      && (c.shutdowns != [] ==> c.shutdowns[0] == c.wire == Flatten(c.accepted))
  {
    RunKeepsInv(Init(), es);
    var c := Run(Init(), es);
    assert c.out == [] ==> c.wire + c.out == c.wire;
  }

  /** After it no byte is written, no message accepted and no second shutdown made. */
  lemma {:induction false} SilentAfterShutdown(c: Conn, es: seq<Event>)
    requires Inv(c) && c.shutdowns != [] && LegalRun(c, es)
    ensures var d := Run(c, es);
      d.wire == c.wire && d.accepted == c.accepted && d.shutdowns == c.shutdowns
    decreases |es|
  {
    if es != [] {
      StepKeepsInv(c, es[0]);
      SilentAfterShutdown(Next(c, es[0]), es[1..]);
    }
  }

  /** A shutdown asked for is made as soon as the buffer runs empty. */
  lemma ShutdownNotForgotten(es: seq<Event>)
    requires LegalRun(Init(), es)
    ensures var c := Run(Init(), es);
      c.state == Disconnecting ==> (c.shutdowns != [] <==> c.out == [])
  {
    RunKeepsInv(Init(), es);
  }

  /** The wire gains exactly the bytes the kernel took: on a send only when nothing was
      waiting, on a write event only when something was. */
  lemma WireGainsWhatKernelTook(c: Conn, e: Event)
    requires Inv(c) && Legal(c, e)
    ensures var d := Next(c, e);
      && c.wire <= d.wire
      && |d.wire| - |c.wire| ==
           match e
           case Send(_, Wrote(n)) => if c.state == Connected && c.out == [] then n else 0
           case CanWrite(Wrote(n)) => if c.state == Connected || c.state == Disconnecting then n else 0
           case _ => 0
  {
  }

  /** A shutdown asked for is made, at once or when the backlog has been taken, and by
      then everything accepted is on the wire. */
  lemma ShutdownHappens(c: Conn)
    requires Inv(c) && c.state == Connected
    ensures var d := Next(c, Shutdown);
      && d.state == Disconnecting && (d.shutdowns == [] <==> c.out != [])
      && Next(d, CanWrite(Wrote(|d.out|))).shutdowns == [Flatten(c.accepted)]
  {
    var d := Next(c, Shutdown);
    StepKeepsInv(c, Shutdown);
    CanWriteKeepsInv(d, Wrote(|d.out|));
    assert c.wire + [] == c.wire;
    assert d.out[..|d.out|] == d.out;
  }

  /** A send written at once and whole, or a write event that empties the buffer. */
  ghost predicate Completes(c: Conn, e: Event) {
    match e
    case Send(data, Wrote(n)) => c.state == Connected && c.out == [] && n == |data|
    case CanWrite(Wrote(n)) => (c.state == Connected || c.state == Disconnecting) && c.out != [] && n == |c.out|
    case _ => false
  }

  ghost predicate CallbacksRight(c: Conn, e: Event, d: Conn) {
    && c.queued <= d.queued
    && var added := d.queued[|c.queued|..];
    && |added| <= 1
    && (added == [HighWater(|d.out|)] <==> |c.out| < 67108864 <= |d.out|)
    && (added == [WriteComplete] <==> Completes(c, e))
    && (Completes(c, e) ==> d.out == [] && d.wire == Flatten(d.accepted))
  }

  lemma OneQueued(c: Conn, e: Event, d: Conn, x: Callback)
    requires d.queued == c.queued + [x]
    requires x == HighWater(|d.out|) <==> |c.out| < 67108864 <= |d.out|
    requires x == WriteComplete <==> Completes(c, e)
    requires Completes(c, e) ==> d.out == [] && d.wire == Flatten(d.accepted)
    ensures CallbacksRight(c, e, d)
  {
    assert d.queued[|c.queued|..] == [x];
  }

  lemma NoneQueued(c: Conn, e: Event, d: Conn)
    requires d.queued == c.queued && !(|c.out| < 67108864 <= |d.out|) && !Completes(c, e)
    ensures CallbacksRight(c, e, d)
  {
    assert d.queued[|c.queued|..] == [];
  }

  lemma SendCallbacks(c: Conn, data: seq<byte>, answer: Written)
    requires Legal(c, Send(data, answer)) && (c.writing <==> c.out != [] && Up(c))
    requires var d := DoSend(c, data, answer); d.wire + d.out == Flatten(d.accepted)
    ensures CallbacksRight(c, Send(data, answer), DoSend(c, data, answer))
  {
    var e, d := Send(data, answer), DoSend(c, data, answer);
    assert d.out == [] ==> d.wire + d.out == d.wire;
    if d.queued == c.queued {
      NoneQueued(c, e, d);
    } else {
      OneQueued(c, e, d, d.queued[|d.queued| - 1]);
    }
  }

  lemma CanWriteCallbacks(c: Conn, answer: Written)
    requires Legal(c, CanWrite(answer)) && (c.writing <==> c.out != [] && Up(c))
    requires var d := DoCanWrite(c, answer); d.wire + d.out == Flatten(d.accepted)
    ensures CallbacksRight(c, CanWrite(answer), DoCanWrite(c, answer))
  {
    var e, d := CanWrite(answer), DoCanWrite(c, answer);
    assert d.out == [] ==> d.wire + d.out == d.wire;
    if d.queued == c.queued {
      NoneQueued(c, e, d);
    } else {
      OneQueued(c, e, d, d.queued[|d.queued| - 1]);
    }
  }

  ghost predicate Up(c: Conn) {
    c.state == Connected || c.state == Disconnecting
  }

  /** The high-water callback fires exactly when the backlog crosses the mark upwards;
      the write-complete callback exactly when a send is written at once and whole or a
      write event empties the buffer, and then all that was accepted is on the wire. */
  lemma CallbacksExactly(c: Conn, e: Event)
    requires Inv(c) && Legal(c, e)
    ensures CallbacksRight(c, e, Next(c, e))
  {
    StepKeepsInv(c, e);
    match e
    case Send(data, answer) => SendCallbacks(c, data, answer);
    case CanWrite(answer) => CanWriteCallbacks(c, answer);
    case _ => NoneQueued(c, e, Next(c, e));
  }

  // ---------- the state by what was asked ----------

  /** Only establishing, a shutdown, a close and a destruction touch the state. */
  lemma StateChanges(c: Conn, e: Event)
    requires Legal(c, e)
    ensures Next(c, e).state ==
              match e
              case Establish => Connected
              case Shutdown => if c.state == Connected then Disconnecting else c.state
              case Close => Disconnected
              case Destroy => if c.state == Connected then Disconnected else c.state
              case Send(_, _) => c.state
              case CanWrite(_) => c.state
  {
  }

  /** And establishing, closing and destroying touch neither bytes nor messages; the
      latter two stop the wait for write events. */
  lemma BytesKept(c: Conn, e: Event)
    requires Inv(c) && Legal(c, e) && (e == Establish || e == Close || e == Destroy)
    ensures var d := Next(c, e);
      && d.wire == c.wire && d.out == c.out && d.accepted == c.accepted
      && d.shutdowns == c.shutdowns && d.queued == c.queued
      && (d.state == Disconnected || d.state == Connecting ==> !d.writing)
  {
  }

  predicate Leaves(e: Event) {
    e == Shutdown || e == Close || e == Destroy
  }

  /** The data of the sends of a run, in order. */
  function Sends(es: seq<Event>): seq<seq<byte>> {
    if es == [] then []
    else (match es[0]
          case Send(data, _) => [data]
          case _ => []) + Sends(es[1..])
  }

  predicate PeerThere(e: Event) {
    e.Send? ==> e.answer != PeerGone
  }

  lemma OpenStep(c: Conn, e: Event)
    requires c.state == Connected && Legal(c, e) && !Leaves(e)
    ensures var d := Next(c, e);
      && d.state == Connected && d.shutdowns == c.shutdowns
      && (PeerThere(e) ==> d.accepted == c.accepted + if e.Send? then [e.data] else [])
  {
  }

  /** Until somebody asks it to leave, an open connection stays open, is not shut down,
      and takes responsibility for every message sent over it, in order, unless the peer
      is found gone. */
  lemma {:induction false} StaysOpen(c: Conn, es: seq<Event>)
    requires c.state == Connected && LegalRun(c, es) && forall i :: 0 <= i < |es| ==> !Leaves(es[i])
    ensures Run(c, es).state == Connected && Run(c, es).shutdowns == c.shutdowns
    ensures (forall i :: 0 <= i < |es| ==> PeerThere(es[i])) ==> Run(c, es).accepted == c.accepted + Sends(es)
    decreases |es|
  {
    if es == [] {
      assert c.accepted + [] == c.accepted;
    } else {
      OpenStep(c, es[0]);
      StaysOpen(Next(c, es[0]), es[1..]);
      JoinAssociates(c.accepted, if es[0].Send? then [es[0].data] else [], Sends(es[1..]));
    }
  }

  /** So, from the start: what was sent since the connection was made is on the wire or
      waiting in the buffer, in order. */
  lemma EverythingSent(es: seq<Event>)
    requires LegalRun(Init(), [Establish] + es)
    requires forall i :: 0 <= i < |es| ==> !Leaves(es[i]) && PeerThere(es[i])
    ensures var c := Run(Init(), [Establish] + es);
      c.state == Connected && c.accepted == Sends(es) && c.wire + c.out == Flatten(Sends(es))
  {
    var c := Next(Init(), Establish);
    assert ([Establish] + es)[1..] == es;
    StaysOpen(c, es);
    assert [] + Sends(es) == Sends(es);
    StreamOrder([Establish] + es);
  }

  /** Once closed, a connection stays closed: nothing is accepted, written, shut down or
      called back any more. */
  lemma {:induction false} ClosedForGood(c: Conn, es: seq<Event>)
    requires Inv(c) && c.state == Disconnected && LegalRun(c, es)
    ensures Run(c, es) == c
    decreases |es|
  {
    if es != [] {
      assert Next(c, es[0]) == c;
      ClosedForGood(c, es[1..]);
    }
  }

  // ---------- the program ----------

  class TcpConnection {
    var state: ConnState
    var writing: bool
    const outputBuffer: Buffer
    var queued: seq<Callback>
    ghost var wire: seq<byte>
    ghost var accepted: seq<seq<byte>>
    ghost var shutdowns: seq<seq<byte>>

    ghost predicate Valid()
      reads this, outputBuffer
    {
      outputBuffer.Valid()
    }

    ghost function View(): Conn
      requires Valid()
      reads this, outputBuffer, outputBuffer.buffer
    {
      Conn(state, writing, outputBuffer.Contents(), wire, accepted, shutdowns, queued)
    }

    constructor ()
      ensures Valid() && View() == Init()
      ensures fresh(outputBuffer) && fresh(outputBuffer.buffer)
    {
      state, writing, queued := Connecting, false, [];
      wire, accepted, shutdowns := [], [], [];
      outputBuffer := new Buffer();
    }

    method ConnectEstablished()
      requires Valid() && Legal(View(), Establish)
      modifies this
      ensures Valid() && View() == Next(old(View()), Establish) && state == Connected
    {
      state := Connected;
    }

    method SendMessage(data: seq<byte>, answer: Written)
      requires Valid() && Legal(View(), Send(data, answer))
      modifies this, outputBuffer, outputBuffer.buffer
      ensures Valid() && View() == Next(old(View()), Send(data, answer))
      ensures outputBuffer.buffer == old(outputBuffer.buffer) || fresh(outputBuffer.buffer)
    {
      if state == Connected {
        SendInLoop(data, answer);
      }
    }

    method SendInLoop(data: seq<byte>, answer: Written)
      requires Valid() && Legal(View(), Send(data, answer)) && state == Connected
      modifies this, outputBuffer, outputBuffer.buffer
      ensures Valid() && View() == Next(old(View()), Send(data, answer)) && state == Connected
      ensures outputBuffer.buffer == old(outputBuffer.buffer) || fresh(outputBuffer.buffer)
    {
      var nwrote, remaining, faultError := 0, |data|, false;
      if state == Disconnected {
        return;
      }
      if !writing && outputBuffer.ReadableBytes() == 0 {
        match answer {
          case Wrote(n) =>
            nwrote := n;
            wire := wire + data[..n];
            remaining := |data| - nwrote;
            if remaining == 0 {
              queued := queued + [WriteComplete];
            }
          case PeerGone => faultError := true;
          case WouldBlock =>
          case OtherError =>
        }
      }
      if !faultError {
        accepted := accepted + [data];
      }
      if !faultError && remaining > 0 {
        KeepRest(data[nwrote..]);
      }
    }

    /** Buffers what the kernel did not take and asks for write events. */
    method KeepRest(rest: seq<byte>)
      requires Valid()
      modifies this, outputBuffer, outputBuffer.buffer
      ensures Valid() && (outputBuffer.buffer == old(outputBuffer.buffer) || fresh(outputBuffer.buffer))
      ensures var c := old(View());
        View() == c.(out := c.out + rest, writing := true,
                     queued := if |c.out| + |rest| >= HIGH_WATER_MARK && |c.out| < HIGH_WATER_MARK
                               then c.queued + [HighWater(|c.out| + |rest|)] else c.queued)
    {
      var oldlen := outputBuffer.ReadableBytes();
      if oldlen + |rest| >= HIGH_WATER_MARK && oldlen < HIGH_WATER_MARK {
        queued := queued + [HighWater(oldlen + |rest|)];
      }
      outputBuffer.Append(rest);
      if !writing {
        writing := true;
      }
    }

    method RequestShutdown()
      requires Valid()
      modifies this
      ensures Valid() && View() == Next(old(View()), Shutdown)
    {
      if state == Connected {
        state := Disconnecting;
        ShutdownNow();
      }
    }

    method ShutdownNow()
      requires Valid()
      modifies this`shutdowns
      ensures Valid() && View() == ShutdownInLoop(old(View()))
    {
      if !writing {
        shutdowns := shutdowns + [wire];
      }
    }

    method HandleWrite(answer: Written)
      requires Valid() && Legal(View(), CanWrite(answer))
      modifies this, outputBuffer, outputBuffer.buffer
      ensures Valid() && View() == Next(old(View()), CanWrite(answer))
      ensures outputBuffer.buffer == old(outputBuffer.buffer)
    {
      if writing && answer.Wrote? && answer.n > 0 {
        wire := wire + outputBuffer.Contents()[..answer.n];
        outputBuffer.Retrieve(answer.n);
        if outputBuffer.ReadableBytes() == 0 {
          writing := false;
          queued := queued + [WriteComplete];
          if state == Disconnecting {
            ShutdownNow();
          }
        }
      }
    }

    method HandleClose()
      requires Valid()
      modifies this
      ensures Valid() && View() == Next(old(View()), Close) && state == Disconnected
    {
      state := Disconnected;
      writing := false;
    }

    method ConnectDestroyed()
      requires Valid()
      modifies this
      ensures Valid() && View() == Next(old(View()), Destroy)
    {
      if state == Connected {
        state := Disconnected;
        writing := false;
      }
    }
  }
}
