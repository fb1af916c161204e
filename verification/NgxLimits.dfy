/** Where the memory pool falls short: on which pool sizes the unsigned room of a block
    can be trusted, and which large allocations lose their chunk. */
module NgxLimits {
  import opened NgxPool

  // ---------- runs that need not keep the invariant ----------

  ghost predicate Callable(s: Pool) {
    s.current < |s.blocks| && PoolSize(s) >= 0
  }

  /** A run in which malloc keeps its promises, of any pool the code can be given. */
  ghost predicate AnyRun(s: Pool, ops: seq<Op>)
    decreases |ops|
  {
    Callable(s) && (ops == [] || (Legal(s, ops[0]) && AnyRun(Next(s, ops[0]), ops[1..])))
  }

  ghost function After(s: Pool, ops: seq<Op>): Pool
    requires AnyRun(s, ops)
    decreases |ops|
  {
    if ops == [] then s else After(Next(s, ops[0]), ops[1..])
  }

  /** The free part of every block lies inside the block. */
  ghost predicate LastsInside(s: Pool) {
    forall k :: 0 <= k < |s.blocks| ==> s.blocks[k].last <= s.blocks[k].end
  }

  lemma {:induction false} AnyRunKeepsInv(s: Pool, ops: seq<Op>)
    requires Inv(s) && AnyRun(s, ops)
    ensures Inv(After(s, ops))
    decreases |ops|
  {
    if ops != [] {
      NextKeepsInv(s, ops[0]);
      AnyRunKeepsInv(Next(s, ops[0]), ops[1..]);
    }
  }

  lemma InvInside(s: Pool)
    requires Inv(s)
    ensures LastsInside(s)
  {
    forall k | 0 <= k < |s.blocks|
      ensures s.blocks[k].last <= s.blocks[k].end
    {
      assert BlockOk(s, k);
    }
  }

  /** A pool of one block that nothing but small allocations was taken from. */
  ghost predicate OneBlock(s: Pool, base: nat, end: nat) {
    && |s.blocks| == 1 && s.current == 0 && s.live == {}
    && s.blocks[0].base == base && s.blocks[0].end == end
    && base + SIZEOF_POOL <= s.blocks[0].last <= end && end < ADDRESSES
    && 1 <= s.max <= MAX_ALLOC
  }

  function Unaligned(size: nat): Op {
    Alloc(size, false, 0, 0)
  }

  lemma FillStep(s: Pool, base: nat, end: nat, size: nat)
    requires OneBlock(s, base, end) && size <= s.max && size <= end - s.blocks[0].last
    ensures Callable(s) && Legal(s, Unaligned(size)) && OneBlock(Next(s, Unaligned(size)), base, end)
    ensures Next(s, Unaligned(size)).blocks[0].last == s.blocks[0].last + size
  {
    assert Unsigned(end - s.blocks[0].last) == end - s.blocks[0].last;
    assert FindFit(s.blocks, 0, size, false) == 0;
  }

  /** One aligned byte asked of a full block whose end is not aligned is granted outside it. */
  lemma OverrunStep(s: Pool, base: nat, end: nat)
    requires OneBlock(s, base, end) && s.blocks[0].last == end && end % ALIGNMENT != 0
    ensures Callable(s) && Legal(s, Alloc(1, true, 0, 0))
    ensures var t := Next(s, Alloc(1, true, 0, 0)); Callable(t) && !LastsInside(t)
  {
    AlignUp(end);
    assert Unsigned(end - Align(end)) >= 1;
    assert FindFit(s.blocks, 0, 1, true) == 0;
    var t := Next(s, Alloc(1, true, 0, 0));
    assert t.blocks[0].last == Align(end) + 1;
  }

  /** Unaligned allocations fill the block, one aligned one then overruns it. */
  lemma {:induction false} Overrun(s: Pool, base: nat, end: nat) returns (ops: seq<Op>)
    requires OneBlock(s, base, end) && end % ALIGNMENT != 0
    ensures AnyRun(s, ops) && !LastsInside(After(s, ops))
    decreases end - s.blocks[0].last
  {
    var room := end - s.blocks[0].last;
    if room == 0 {
      OverrunStep(s, base, end);
      var last := Alloc(1, true, 0, 0);
      ops := [last];
      assert ops[1..] == [];
      assert AnyRun(Next(s, last), []);
      assert After(Next(s, last), []) == Next(s, last);
    } else {
      var size := if room < s.max then room else s.max;
      FillStep(s, base, end, size);
      var rest := Overrun(Next(s, Unaligned(size)), base, end);
      ops := [Unaligned(size)] + rest;
      assert ops[1..] == rest;
    }
  }

  /** The free part of every block stays inside it in every run exactly when the pool
      size is a multiple of the alignment. */
  lemma PoolStaysInsideIff(base: nat, size: nat)
    requires 0 < base && base % ALIGNMENT == 0 && SIZEOF_POOL <= size && base + size < ADDRESSES
    ensures (forall ops :: AnyRun(Create(base, size), ops) ==> LastsInside(After(Create(base, size), ops)))
       <==> size % ALIGNMENT == 0
  {
    var s := Create(base, size);
    if size % ALIGNMENT == 0 {
      CreateInv(base, size);
      forall ops | AnyRun(s, ops)
        ensures LastsInside(After(s, ops))
      {
        AnyRunKeepsInv(s, ops);
        InvInside(After(s, ops));
      }
    } else {
      SumUnaligned(base, size);
      var ops := Overrun(s, base, base + size);
    }
  }

  lemma SumUnaligned(base: nat, size: nat)
    requires base % ALIGNMENT == 0 && size % ALIGNMENT != 0
    ensures (base + size) % ALIGNMENT != 0 && size != SIZEOF_POOL
  {
  }

  /** The smallest case: a pool of 66 bytes, two bytes taken, then an aligned one. */
  lemma OverrunReachable()
    ensures var ops := [Unaligned(2), Alloc(1, true, 0, 0)];
      && AnyRun(Create(4096, 66), ops)
      && After(Create(4096, 66), ops).blocks[0].last == 4096 + 73
      && After(Create(4096, 66), ops).blocks[0].end == 4096 + 66
  {
    var s := Create(4096, 66);
    FillStep(s, 4096, 4162, 2);
    var t := Next(s, Unaligned(2));
    OverrunStep(t, 4096, 4162);
    var last := Alloc(1, true, 0, 0);
    assert [Unaligned(2), last][1..] == [last] && [last][1..] == [];
    assert AnyRun(Next(t, last), []) && AnyRun(t, [last]);
    assert After(t, [last]) == Next(t, last);
    assert FindFit(t.blocks, 0, 1, true) == 0;
    assert Align(4162) == 4168;
  }

  // ---------- lost chunks ----------

  /** A large allocation loses its chunk exactly when it got one, no header among the
      first five is free, no block has room for a new header, and malloc has no new block. */
  lemma ChunkLeaksIff(s: Pool, p: nat, m: nat)
    requires Inv(s) && FreshBlock(s, m) && p !in s.live
    ensures Chunk(s, p, m).0.leaked != s.leaked
       <==> p != 0 && FreeHeader(s.large, 0) == |s.large|
            && FindFit(s.blocks, s.current, SIZEOF_LARGE, true) == |s.blocks| && m == 0
  {
    SmallLeavesLarge(s, SIZEOF_LARGE, true, m);
    if p != 0 && FreeHeader(s.large, 0) == |s.large| {
      var (t, node) := Small(s, SIZEOF_LARGE, true, m);
      HeaderDenied(s, m);
      if node == 0 {
        assert p !in s.leaked;
      }
    }
  }

  lemma HeaderDenied(s: Pool, m: nat)
    requires Inv(s) && FreshBlock(s, m)
    ensures Small(s, SIZEOF_LARGE, true, m).1 == 0
       <==> FindFit(s.blocks, s.current, SIZEOF_LARGE, true) == |s.blocks| && m == 0
  {
    var j := FindFit(s.blocks, s.current, SIZEOF_LARGE, true);
    if j < |s.blocks| {
      assert BlockOk(s, j);
      AlignUp(s.blocks[j].last);
    } else if m != 0 {
      AlignUp(m + SIZEOF_DATA);
    }
  }

  /** A run that gets there: one large allocation from a pool with eight bytes to spare. */
  lemma LeakReachable()
    ensures var ops := [Alloc(100, true, 8192, 0)];
      && AnyRun(Create(4096, 72), ops)
      && After(Create(4096, 72), ops).leaked == {8192} == After(Create(4096, 72), ops).live
  {
    var s, op := Create(4096, 72), Alloc(100, true, 8192, 0);
    CreateInv(4096, 72);
    assert Align(4160) == 4160 && Unsigned(8) == 8;
    assert FindFit(s.blocks, 0, SIZEOF_LARGE, true) == 1;
    assert [op][1..] == [];
    assert AnyRun(Next(s, op), []) && After(Next(s, op), []) == Next(s, op);
  }

  lemma NextKeepsLeaked(s: Pool, op: Op)
    requires Inv(s) && Legal(s, op)
    ensures s.leaked <= Next(s, op).leaked && s.leaked <= Next(s, op).live
  {
    NextKeepsInv(s, op);
    match op
    case Alloc(size, aligned, p, m) =>
      SmallLeavesLarge(s, size, aligned, m);
      SmallLeavesLarge(s, SIZEOF_LARGE, true, m);
    case Free(p) => FreeChunkLarge(s, p);
    case ResetPool => ResetKeeps(s); FreeAllFrees(s, 0);
  }

  /** A lost chunk is lost for good: no free and no reset gives it back. */
  lemma {:induction false} LostForGood(s: Pool, ops: seq<Op>)
    requires Inv(s) && LegalRun(s, ops)
    ensures s.leaked <= Run(s, ops).leaked && s.leaked <= Run(s, ops).live
    decreases |ops|
  {
    if ops != [] {
      NextKeepsLeaked(s, ops[0]);
      NextKeepsInv(s, ops[0]);
      LostForGood(Next(s, ops[0]), ops[1..]);
    }
  }
}
