/** Channel registration with epoll: each channel carries its interest mask and a
    three-state index, which must agree with the poller's map and the kernel's set. */
module Pollers {
  import opened Options

  const READ_EVENT: bv8 := 3     // EPOLLIN | EPOLLPRI
  const WRITE_EVENT: bv8 := 4    // EPOLLOUT

  const NEW := -1
  const ADDED := 1
  const DELETED := 2

  datatype Ctl = CtlAdd | CtlMod | CtlDel

  datatype Op = EnableReading | DisableReading | EnableWriting | DisableWriting | DisableAll | Remove

  /** All there is about one channel: its mask and index, whether the poller's map has
      it, what the kernel holds for its descriptor and how many epoll_ctl calls failed. */
  datatype Entry = Entry(events: bv8, index: int, mapped: bool, kernel: Option<bv8>, errors: nat)

  /** epoll_ctl: adding a present descriptor, or changing or deleting an absent one, fails. */
  function DoCtl(e: Entry, op: Ctl): Entry {
    if (op == CtlAdd) == e.kernel.Some? then e.(errors := e.errors + 1)
    else e.(kernel := if op == CtlDel then None else Some(e.events))
  }

  function DoUpdate(e: Entry): Entry {
    if e.index == NEW || e.index == DELETED then
      DoCtl(e.(mapped := e.mapped || e.index == NEW, index := ADDED), CtlAdd)
    else if e.events == 0 then DoCtl(e, CtlDel).(index := DELETED)
    else DoCtl(e, CtlMod)
  }

  function DoRemove(e: Entry): Entry {
    var f := e.(mapped := false);
    (if e.index == ADDED then DoCtl(f, CtlDel) else f).(index := NEW)
  }

  function NewEvents(events: bv8, op: Op): bv8 {
    match op
    case EnableReading => events | READ_EVENT
    case DisableReading => events & !READ_EVENT
    case EnableWriting => events | WRITE_EVENT
    case DisableWriting => events & !WRITE_EVENT
    case DisableAll => 0
    case Remove => events
  }

  function Next(e: Entry, op: Op): Entry {
    if op == Remove then DoRemove(e) else DoUpdate(e.(events := NewEvents(e.events, op)))
  }

  function Run(e: Entry, ops: seq<Op>): Entry
    decreases |ops|
  {
    if ops == [] then e else Run(Next(e, ops[0]), ops[1..])
  }

  function Fresh(): Entry {
    Entry(0, NEW, false, None, 0)
  }

  ghost predicate Agrees(e: Entry) {
    && e.errors == 0
    && (e.index == NEW || e.index == ADDED || e.index == DELETED)
    && (e.index == NEW <==> !e.mapped)
    && e.kernel == (if e.index == ADDED then Some(e.events) else None)
    && (e.index == DELETED ==> e.events == 0)
  }

  lemma StepAgrees(e: Entry, op: Op)
    requires Agrees(e)
    ensures Agrees(Next(e, op))
  {
  }

  lemma {:induction false} RunAgrees(e: Entry, ops: seq<Op>)
    requires Agrees(e)
    ensures Agrees(Run(e, ops))
    decreases |ops|
  {
    if ops != [] {
      StepAgrees(e, ops[0]);
      RunAgrees(Next(e, ops[0]), ops[1..]);
    }
  }

  /** After any sequence of calls the index is "added" exactly when the kernel holds the
      descriptor, and then with the channel's current mask; it is "new" exactly when the
      poller's map lacks it; and no epoll_ctl call has failed. */
  lemma IndexTellsTruth(ops: seq<Op>)
    ensures var e := Run(Fresh(), ops);
      && (e.index == ADDED <==> e.kernel == Some(e.events))
      && (e.index == ADDED <==> e.kernel.Some?)
      && (e.index == NEW <==> !e.mapped)
      && e.errors == 0
  {
    RunAgrees(Fresh(), ops);
  }

  /** The kernel follows each call: it holds the new mask, except that a registered
      channel without interests, or one removed, is taken out. */
  lemma KernelFollows(ops: seq<Op>, op: Op)
    ensures var e := Run(Fresh(), ops);
      var n := Next(e, op);
      && n.kernel == (if op == Remove || (e.kernel.Some? && NewEvents(e.events, op) == 0) then None
                      else Some(NewEvents(e.events, op)))
      && n.mapped == (op != Remove)
  {
    RunAgrees(Fresh(), ops);
  }

  /** Turning everything off takes a descriptor out of the kernel's set exactly when it
      was in it; on any other channel the call puts it in, with an empty mask. */
  lemma DisableAllLeavesIff(ops: seq<Op>)
    ensures var e := Run(Fresh(), ops);
      && (Next(e, DisableAll).kernel == None <==> e.kernel.Some?)
      && (e.kernel == None ==> Next(e, DisableAll).kernel == Some(0))
  {
    RunAgrees(Fresh(), ops);
  }

  /** The two interests are switched independently: reading is EPOLLIN and EPOLLPRI, the
      two low bits, writing is EPOLLOUT, the third. */
  lemma InterestsIndependent(events: bv8)
    ensures NewEvents(events, EnableReading) & 3 == 3
    ensures NewEvents(events, DisableReading) & 3 == 0
    ensures NewEvents(events, EnableReading) & 0xFC == events & 0xFC
    ensures NewEvents(events, DisableReading) & 0xFC == events & 0xFC
    ensures NewEvents(events, EnableWriting) & 4 == 4
    ensures NewEvents(events, DisableWriting) & 4 == 0
    ensures NewEvents(events, EnableWriting) & 0xFB == events & 0xFB
    ensures NewEvents(events, DisableWriting) & 0xFB == events & 0xFB
    ensures NewEvents(events, DisableAll) == 0 && NewEvents(events, Remove) == events
  {
  }

  /** What the kernel is asked to watch for: the bits of mask, with the descriptor added. */
  predicate Watches(e: Entry, mask: bv8) {
    e.index == ADDED && e.events & mask == mask
  }

  lemma WatchStays(e: Entry, op: Op, mask: bv8)
    requires Agrees(e) && Watches(e, mask) && (mask == 3 || mask == 4) && op != DisableAll && op != Remove
    requires mask == 3 ==> op != DisableReading
    requires mask == 4 ==> op != DisableWriting
    ensures Watches(Next(e, op), mask)
  {
    InterestsIndependent(e.events);
    var events := NewEvents(e.events, op);
    assert events & mask == mask;
    assert events != 0;
  }

  lemma {:induction false} WatchStaysOver(e: Entry, ops: seq<Op>, mask: bv8)
    requires Agrees(e) && Watches(e, mask) && (mask == 3 || mask == 4)
    requires forall op :: op in ops ==> op != DisableAll && op != Remove
    requires mask == 3 ==> DisableReading !in ops
    requires mask == 4 ==> DisableWriting !in ops
    ensures Agrees(Run(e, ops)) && Watches(Run(e, ops), mask)
    decreases |ops|
  {
    if ops != [] {
      assert ops[0] in ops && forall op :: op in ops[1..] ==> op in ops;
      WatchStays(e, ops[0], mask);
      StepAgrees(e, ops[0]);
      WatchStaysOver(Next(e, ops[0]), ops[1..], mask);
    }
  }

  /** Whatever went before, once reading is enabled the kernel watches for EPOLLIN and
      EPOLLPRI until reading or everything is disabled or the channel is removed. */
  lemma ReadingWatched(before: seq<Op>, after: seq<Op>)
    requires forall op :: op in after ==> op != DisableReading && op != DisableAll && op != Remove
    ensures var kernel := Run(Next(Run(Fresh(), before), EnableReading), after).kernel;
      kernel.Some? && kernel.value & 3 == 3
  {
    RunAgrees(Fresh(), before);
    var e := Run(Fresh(), before);
    InterestsIndependent(e.events);
    StepAgrees(e, EnableReading);
    assert NewEvents(e.events, EnableReading) != 0;
    WatchStaysOver(Next(e, EnableReading), after, 3);
  }

  /** The same of writing and EPOLLOUT. */
  lemma WritingWatched(before: seq<Op>, after: seq<Op>)
    requires forall op :: op in after ==> op != DisableWriting && op != DisableAll && op != Remove
    ensures var kernel := Run(Next(Run(Fresh(), before), EnableWriting), after).kernel;
      kernel.Some? && kernel.value & 4 == 4
  {
    RunAgrees(Fresh(), before);
    var e := Run(Fresh(), before);
    InterestsIndependent(e.events);
    StepAgrees(e, EnableWriting);
    assert NewEvents(e.events, EnableWriting) != 0;
    WatchStaysOver(Next(e, EnableWriting), after, 4);
  }

  // ---------- the program ----------

  class Channel {
    const fd: int
    var events: bv8
    var index: int

    constructor (fd: int)
      ensures this.fd == fd && events == 0 && index == NEW
    {
      this.fd := fd;
      events, index := 0, NEW;
    }

    predicate IsNoneEvent()
      reads this
    {
      events == 0
    }
  }

  class EPollPoller {
    var channels: map<int, Channel>
    ghost var kernel: map<int, bv8>
    ghost var errors: nat

    /** The poller's view of one channel. */
    ghost function EntryOf(c: Channel): Entry
      reads this, c
    {
      Entry(c.events, c.index, c.fd in channels, if c.fd in kernel then Some(kernel[c.fd]) else None, errors)
    }

    /** The channels in use have different descriptors, and each agrees. */
    ghost predicate Valid(all: set<Channel>)
      reads this, all
    {
      && (forall c, d :: c in all && d in all && c.fd == d.fd ==> c == d)
      && (forall c :: c in all ==> Agrees(EntryOf(c)) && (c.fd in channels ==> channels[c.fd] == c))
    }

    constructor ()
      ensures channels == map[] && kernel == map[] && errors == 0
    {
      channels, kernel, errors := map[], map[], 0;
    }

    /** The epoll_ctl call; only c's own descriptor is touched. */
    method Update(operation: Ctl, c: Channel)
      modifies this`kernel, this`errors
      ensures EntryOf(c) == DoCtl(old(EntryOf(c)), operation)
      ensures kernel - {c.fd} == old(kernel) - {c.fd}
    {
      if (operation == CtlAdd) == (c.fd in kernel) {
        errors := errors + 1;
      } else if operation == CtlDel {
        kernel := kernel - {c.fd};
      } else {
        kernel := kernel[c.fd := c.events];
      }
    }

    method UpdateChannel(c: Channel)
      requires c.fd in channels ==> channels[c.fd] == c
      modifies this, c`index
      ensures EntryOf(c) == DoUpdate(old(EntryOf(c)))
      ensures kernel - {c.fd} == old(kernel) - {c.fd} && channels - {c.fd} == old(channels) - {c.fd}
      ensures c.fd in channels ==> channels[c.fd] == c
    {
      if c.index == NEW || c.index == DELETED {
        if c.index == NEW {
          channels := channels[c.fd := c];
        }
        c.index := ADDED;
        Update(CtlAdd, c);
      } else if c.IsNoneEvent() {
        Update(CtlDel, c);
        c.index := DELETED;
      } else {
        Update(CtlMod, c);
      }
    }

    method RemoveChannel(c: Channel)
      modifies this, c`index
      ensures EntryOf(c) == DoRemove(old(EntryOf(c)))
      ensures kernel - {c.fd} == old(kernel) - {c.fd} && channels - {c.fd} == old(channels) - {c.fd}
    {
      channels := channels - {c.fd};
      if c.index == ADDED {
        Update(CtlDel, c);
      }
      c.index := NEW;
    }

    /** One of the channel's calls: it changes that channel as specified, leaves every
        other channel alone, and keeps all of them in agreement. */
    method Perform(c: Channel, op: Op, ghost all: set<Channel>)
      requires Valid(all) && c in all
      modifies this, c
      ensures Valid(all)
      ensures EntryOf(c) == Next(old(EntryOf(c)), op)
      ensures forall d :: d in all && d != c ==> EntryOf(d) == old(EntryOf(d))
    {
      StepAgrees(EntryOf(c), op);
      if op == Remove {
        RemoveChannel(c);
      } else {
        c.events := NewEvents(c.events, op);
        UpdateChannel(c);
      }
      forall d | d in all && d != c
        ensures EntryOf(d) == old(EntryOf(d)) && (d.fd in channels ==> channels[d.fd] == d)
      {
        assert d.fd != c.fd;
        assert d.fd in kernel <==> d.fd in kernel - {c.fd};
        assert d.fd in old(kernel) <==> d.fd in old(kernel) - {c.fd};
        assert d.fd in kernel ==> kernel[d.fd] == (kernel - {c.fd})[d.fd];
        assert d.fd in channels <==> d.fd in channels - {c.fd};
        assert d.fd in old(channels) <==> d.fd in old(channels) - {c.fd};
        assert d.fd in channels ==> channels[d.fd] == (channels - {c.fd})[d.fd];
      }
    }
  }
}
