/** The memory pool: a chain of equal blocks that small allocations are carved from,
    a skip pointer moved by failure counters, and a list of large chunks. Addresses
    are numbers and 0 is the null pointer. Sizes are those of a 64-bit platform. */
module NgxPool {

  const SIZEOF_POOL := 64     // ngx_pool_s
  const SIZEOF_DATA := 32     // ngx_pool_data_t
  const SIZEOF_LARGE := 16    // ngx_pool_large_s
  const ALIGNMENT := 8        // sizeof(unsigned long)
  const MAX_ALLOC := 4095     // NGX_MAX_ALLOC_FROM_POOL
  const ADDRESSES := 0x1_0000_0000_0000_0000

  datatype Block = Block(base: nat, last: nat, end: nat, failed: nat)

  /** One header in the list of large chunks: where it lies and what it points to. */
  datatype Large = Large(node: nat, alloc: nat)

  /** A stretch of memory handed out of a block. */
  datatype Region = Region(block: nat, addr: nat, size: nat, aligned: bool)

  /** A pool. `carved` records what was handed out since the last reset, `live` the
      large chunks not yet freed, `leaked` those whose header could not be had, `atReset`
      how many blocks there were at the last reset, or at the start. */
  datatype Pool = Pool(blocks: seq<Block>, current: nat, max: nat, large: seq<Large>,
                       carved: seq<Region>, live: set<nat>, leaked: set<nat>, atReset: nat)

  // ---------- alignment ----------

  function Align(a: nat): nat {
    (a + (ALIGNMENT - 1)) / ALIGNMENT * ALIGNMENT
  }

  /** A difference of two addresses as the unsigned size the code compares. */
  function Unsigned(d: int): int {
    d % ADDRESSES
  }

  lemma AlignUp(a: nat)
    ensures a <= Align(a) < a + ALIGNMENT && Align(a) % ALIGNMENT == 0
  {
  }

  /** Aligning the next free byte of a block never passes its end exactly when the end
      is aligned itself; otherwise the free room wraps around to a huge number. */
  lemma AlignStaysInsideIff(end: nat)
    requires ALIGNMENT <= end < ADDRESSES
    ensures (forall last: nat :: last <= end ==> Align(last) <= end) <==> end % ALIGNMENT == 0
    ensures end % ALIGNMENT != 0 ==> Unsigned(end - Align(end)) > ADDRESSES - ALIGNMENT
  {
    AlignUp(end);
    if end % ALIGNMENT == 0 {
      forall last: nat | last <= end
        ensures Align(last) <= end
      {
        AlignUp(last);
      }
    }
  }

  // ---------- the operations ----------

  function Create(base: nat, size: nat): Pool
    requires SIZEOF_POOL <= size
  {
    var room := size - SIZEOF_POOL;
    Pool([Block(base, base + SIZEOF_POOL, base + size, 0)], 0,
         if room < MAX_ALLOC then room else MAX_ALLOC, [], [], {}, {}, 1)
  }

  function Start(b: Block, aligned: bool): nat {
    if aligned then Align(b.last) else b.last
  }

  predicate Fits(b: Block, size: nat, aligned: bool) {
    Unsigned(b.end - Start(b, aligned)) >= size
  }

  /** The first block at or after i with room, or the number of blocks. */
  function FindFit(blocks: seq<Block>, i: nat, size: nat, aligned: bool): (j: nat)
    requires i <= |blocks|
    ensures i <= j <= |blocks|
    ensures j < |blocks| ==> Fits(blocks[j], size, aligned)
    ensures forall k :: i <= k < j ==> !Fits(blocks[k], size, aligned)
    decreases |blocks| - i
  {
    if i == |blocks| || Fits(blocks[i], size, aligned) then i else FindFit(blocks, i + 1, size, aligned)
  }

  /** Counts a failure on every block from p on except the last, and moves the skip
      pointer past each block whose counter had exceeded four. */
  function Bump(blocks: seq<Block>, p: nat, current: nat): (seq<Block>, nat)
    requires p < |blocks|
    decreases |blocks| - p
  {
    if p + 1 == |blocks| then (blocks, current)
    else
      Bump(blocks[p := blocks[p].(failed := blocks[p].failed + 1)], p + 1,
           if blocks[p].failed > 4 then p + 1 else current)
  }

  function PoolSize(s: Pool): int
    requires s.blocks != []
  {
    s.blocks[0].end - s.blocks[0].base
  }

  /** A new block at address m, or nothing when m is null. */
  function NewBlock(s: Pool, size: nat, m: nat): (Pool, nat)
    requires s.current < |s.blocks| && PoolSize(s) >= 0
  {
    if m == 0 then (s, 0)
    else
      var a := Align(m + SIZEOF_DATA);
      var (bumped, current) := Bump(s.blocks, s.current, s.current);
      (s.(blocks := bumped + [Block(m, a + size, m + PoolSize(s), 0)], current := current,
          carved := s.carved + [Region(|s.blocks|, a, size, true)]), a)
  }

  function Small(s: Pool, size: nat, aligned: bool, m: nat): (Pool, nat)
    requires s.current < |s.blocks| && PoolSize(s) >= 0
  {
    var j := FindFit(s.blocks, s.current, size, aligned);
    if j < |s.blocks| then
      var a := Start(s.blocks[j], aligned);
      (s.(blocks := s.blocks[j := s.blocks[j].(last := a + size)],
          carved := s.carved + [Region(j, a, size, aligned)]), a)
    else
      NewBlock(s, size, m)
  }

  /** The first of the leading five headers that points nowhere, or the list's length. */
  function FreeHeader(large: seq<Large>, i: nat): (j: nat)
    requires i <= |large|
    ensures i <= j <= |large| && (j < |large| ==> large[j].alloc == 0 && j < 5)
    ensures forall k :: i <= k < j && k < 5 ==> large[k].alloc != 0
    decreases |large| - i
  {
    if i == |large| || i >= 5 then |large|
    else if large[i].alloc == 0 then i
    else FreeHeader(large, i + 1)
  }

  /** A chunk of its own at address p, with a header carved from the pool if none is free. */
  function Chunk(s: Pool, p: nat, m: nat): (Pool, nat)
    requires s.current < |s.blocks| && PoolSize(s) >= 0
  {
    var j := FreeHeader(s.large, 0);
    if p == 0 then (s, 0)
    else if j < |s.large| then
      (s.(large := s.large[j := s.large[j].(alloc := p)], live := s.live + {p}), p)
    else
      var (t, node) := Small(s, SIZEOF_LARGE, true, m);
      if node == 0 then (t.(live := t.live + {p}, leaked := t.leaked + {p}), 0)
      else (t.(large := [Large(node, p)] + t.large, live := t.live + {p}), p)
  }

  function Allocate(s: Pool, size: nat, aligned: bool, p: nat, m: nat): (Pool, nat)
    requires s.current < |s.blocks| && PoolSize(s) >= 0
  {
    if size <= s.max then Small(s, size, aligned, m) else Chunk(s, p, m)
  }

  /** The first header that points to p, or the list's length. */
  function HeaderOf(large: seq<Large>, p: nat, i: nat): (j: nat)
    requires i <= |large|
    ensures i <= j <= |large| && (j < |large| ==> large[j].alloc == p)
    ensures forall k :: i <= k < j ==> large[k].alloc != p
    decreases |large| - i
  {
    if i == |large| || large[i].alloc == p then i else HeaderOf(large, p, i + 1)
  }

  function FreeChunk(s: Pool, p: nat): Pool {
    var j := HeaderOf(s.large, p, 0);
    if j == |s.large| then s
    else s.(large := s.large[j := s.large[j].(alloc := 0)], live := s.live - {p})
  }

  /** Frees the chunk of every header from i on. */
  function FreeAll(s: Pool, i: nat): Pool
    requires i <= |s.large|
    decreases |s.large| - i
  {
    if i == |s.large| then s
    else FreeAll(if s.large[i].alloc != 0 then FreeChunk(s, s.large[i].alloc) else s, i + 1)
  }

  function ResetBlocks(blocks: seq<Block>): (r: seq<Block>)
  {
    seq(|blocks|, k requires 0 <= k < |blocks| =>
      blocks[k].(last := blocks[k].base + Header(k), failed := 0))
  }

  function Reset(s: Pool): Pool {
    FreeAll(s, 0).(blocks := ResetBlocks(s.blocks), current := 0, large := [], carved := [], atReset := |s.blocks|)
  }

  /** What a block keeps at its front: the first holds the whole pool header. */
  function Header(k: nat): nat {
    if k == 0 then SIZEOF_POOL else SIZEOF_DATA
  }

  // ---------- what every operation keeps ----------

  ghost predicate BlockOk(s: Pool, k: nat)
    requires k < |s.blocks|
  {
    var b := s.blocks[k];
    && 0 < b.base && b.base % ALIGNMENT == 0 && b.end < ADDRESSES
    && b.end - b.base == PoolSize(s)
    && b.base + Header(k) <= b.last <= b.end
  }

  ghost predicate Apart(lo: nat, hi: nat, lo': nat, hi': nat) {
    hi <= lo' || hi' <= lo
  }

  ghost predicate BlocksOk(s: Pool) {
    && s.blocks != []
    && PoolSize(s) >= SIZEOF_POOL && PoolSize(s) % ALIGNMENT == 0
    && s.max == (if PoolSize(s) - SIZEOF_POOL < MAX_ALLOC then PoolSize(s) - SIZEOF_POOL else MAX_ALLOC)
    && (forall k :: 0 <= k < |s.blocks| ==> BlockOk(s, k))
    && (forall i, j :: 0 <= i < j < |s.blocks| ==>
          Apart(s.blocks[i].base, s.blocks[i].end, s.blocks[j].base, s.blocks[j].end))
  }

  ghost predicate RegionOk(s: Pool, r: Region)
    requires s.blocks != []
  {
    && r.block < |s.blocks|
    && s.blocks[r.block].base + Header(r.block) <= r.addr
    && r.addr + r.size <= s.blocks[r.block].last
    && (r.aligned ==> r.addr % ALIGNMENT == 0)
  }

  ghost predicate CarvedOk(s: Pool)
    requires s.blocks != []
  {
    && (forall i :: 0 <= i < |s.carved| ==> RegionOk(s, s.carved[i]))
    && (forall i, j :: 0 <= i < j < |s.carved| ==>
          Apart(s.carved[i].addr, s.carved[i].addr + s.carved[i].size,
                s.carved[j].addr, s.carved[j].addr + s.carved[j].size))
  }

  /** Counters never increase along the chain, the last block's is zero, and a block
      lies before the skip pointer exactly when its counter is six. */
  ghost predicate CountersOk(blocks: seq<Block>, current: nat) {
    && current < |blocks|
    && blocks[|blocks| - 1].failed == 0
    && (forall i, j :: 0 <= i < j < |blocks| ==> blocks[i].failed >= blocks[j].failed)
    && (forall k :: 0 <= k < |blocks| ==> blocks[k].failed <= 6 && (k < current <==> blocks[k].failed == 6))
  }

  // ---------- counters ----------

  /** Counting failures changes nothing but the counters of the blocks walked. */
  lemma {:induction false} BumpFields(blocks: seq<Block>, p: nat, current: nat)
    requires p < |blocks|
    ensures var r := Bump(blocks, p, current).0;
      && |r| == |blocks|
      && forall k :: 0 <= k < |r| ==>
           r[k] == if p <= k < |r| - 1 then blocks[k].(failed := blocks[k].failed + 1) else blocks[k]
    decreases |blocks| - p
  {
    if p + 1 < |blocks| {
      BumpFields(blocks[p := blocks[p].(failed := blocks[p].failed + 1)], p + 1,
                 if blocks[p].failed > 4 then p + 1 else current);
    }
  }

  /** With counters that never increase along the chain, the skip pointer ends up past
      exactly those blocks whose counter the walk has raised above five. */
  lemma {:induction false} BumpCurrent(blocks: seq<Block>, from: nat, p: nat, current: nat)
    requires from <= current <= p < |blocks|
    requires forall k :: from <= k < p ==> (k < current <==> blocks[k].failed > 5)
    requires forall k, q :: from <= k < p <= q < |blocks| ==> blocks[k].failed > blocks[q].failed
    requires forall k, q :: p <= k < q < |blocks| ==> blocks[k].failed >= blocks[q].failed
    ensures var (r, c) := Bump(blocks, p, current);
      && |r| == |blocks| && from <= c < |r|
      && forall k :: from <= k < |r| - 1 ==> (k < c <==> r[k].failed > 5)
    decreases |blocks| - p
  {
    if p + 1 < |blocks| {
      BumpCurrent(blocks[p := blocks[p].(failed := blocks[p].failed + 1)], from, p + 1,
                  if blocks[p].failed > 4 then p + 1 else current);
    }
  }

  lemma BumpKeepsCounters(blocks: seq<Block>, current: nat, b: Block)
    requires CountersOk(blocks, current) && b.failed == 0
    ensures var (r, c) := Bump(blocks, current, current); CountersOk(r + [b], c)
  {
    BumpFields(blocks, current, current);
    BumpCurrent(blocks, current, current, current);
  }

  /** How often the k-th of n blocks has failed when there were n0 at the last reset:
      once for every block made since then and after its own successor, up to six. */
  function Failures(n: nat, n0: nat, k: nat): int {
    var f := if n - n0 < n - k - 2 then n - n0 else n - k - 2;
    if f < 0 then 0 else if f > 6 then 6 else f
  }

  ghost predicate CountersExact(blocks: seq<Block>, current: nat, n0: nat) {
    var n := |blocks|;
    && 1 <= n0 <= n
    && current == (if n < n0 + 6 then 0 else n - 7)
    && forall k :: 0 <= k < n ==> blocks[k].failed == Failures(n, n0, k)
  }

  lemma BumpKeepsExact(blocks: seq<Block>, current: nat, n0: nat, b: Block)
    requires CountersOk(blocks, current) && CountersExact(blocks, current, n0) && b.failed == 0
    ensures var (r, c) := Bump(blocks, current, current); CountersExact(r + [b], c, n0)
  {
    BumpKeepsCounters(blocks, current, b);
    BumpFields(blocks, current, current);
    var (r, c) := Bump(blocks, current, current);
    var n := |blocks| + 1;
    var all := r + [b];
    forall k | 0 <= k < n
      ensures all[k].failed == Failures(n, n0, k)
    {
      assert k < |blocks| ==> all[k] == r[k];
    }
    if n < n0 + 6 {
      assert all[0].failed == Failures(n, n0, 0) != 6;
    } else {
      assert all[n - 7].failed == Failures(n, n0, n - 7) == 5;
      assert n > 7 ==> all[n - 8].failed == Failures(n, n0, n - 8) == 6;
    }
  }

  // ---------- blocks and regions ----------

  /** Under the invariant the unsigned subtraction is the plain one: aligning the next
      free byte never passes the end of its block. */
  lemma NoWrap(s: Pool, k: nat, aligned: bool)
    requires BlocksOk(s) && k < |s.blocks|
    ensures var b := s.blocks[k];
      && b.last <= Start(b, aligned) <= b.end
      && Unsigned(b.end - Start(b, aligned)) == b.end - Start(b, aligned)
      && (aligned ==> Start(b, aligned) % ALIGNMENT == 0)
  {
    var b := s.blocks[k];
    assert BlockOk(s, k);
    AlignUp(b.last);
    assert b.end % ALIGNMENT == 0;
  }

  /** The pool after handing out size bytes at a from block j. */
  function Carve(s: Pool, j: nat, a: nat, size: nat, aligned: bool): Pool
    requires j < |s.blocks|
  {
    s.(blocks := s.blocks[j := s.blocks[j].(last := a + size)],
       carved := s.carved + [Region(j, a, size, aligned)])
  }

  lemma RegionApart(s: Pool, i: nat, j: nat, a: nat, size: nat)
    requires BlocksOk(s) && CarvedOk(s) && i < |s.carved| && j < |s.blocks|
    requires s.blocks[j].last <= a && a + size <= s.blocks[j].end
    ensures var r := s.carved[i]; Apart(r.addr, r.addr + r.size, a, a + size)
  {
    var r := s.carved[i];
    assert RegionOk(s, r) && BlockOk(s, j) && BlockOk(s, r.block);
    if r.block < j {
      assert Apart(s.blocks[r.block].base, s.blocks[r.block].end, s.blocks[j].base, s.blocks[j].end);
    } else if j < r.block {
      assert Apart(s.blocks[j].base, s.blocks[j].end, s.blocks[r.block].base, s.blocks[r.block].end);
    }
  }

  lemma CarveKeeps(s: Pool, j: nat, a: nat, size: nat, aligned: bool)
    requires BlocksOk(s) && CarvedOk(s) && j < |s.blocks|
    requires s.blocks[j].last <= a && a + size <= s.blocks[j].end && (aligned ==> a % ALIGNMENT == 0)
    ensures BlocksOk(Carve(s, j, a, size, aligned)) && CarvedOk(Carve(s, j, a, size, aligned))
  {
    var t := Carve(s, j, a, size, aligned);
    forall k | 0 <= k < |t.blocks|
      ensures BlockOk(t, k)
    {
      assert BlockOk(s, k);
    }
    forall i | 0 <= i < |t.carved|
      ensures RegionOk(t, t.carved[i])
    {
      assert BlockOk(s, j);
      if i < |s.carved| {
        assert RegionOk(s, s.carved[i]);
      }
    }
    forall i | 0 <= i < |s.carved|
      ensures Apart(s.carved[i].addr, s.carved[i].addr + s.carved[i].size, a, a + size)
    {
      RegionApart(s, i, j, a, size);
    }
  }

  /** An address malloc may answer with: null, or aligned memory apart from every block. */
  predicate FreshBlock(s: Pool, m: nat)
    requires s.blocks != []
  {
    m == 0 ||
    (&& m % ALIGNMENT == 0 && m + PoolSize(s) < ADDRESSES
     && forall k :: 0 <= k < |s.blocks| ==>
          s.blocks[k].end <= m || m + PoolSize(s) <= s.blocks[k].base)
  }

  /** The chain with its counters changed and an empty block at m put behind it. */
  function Grow(s: Pool, blocks: seq<Block>, current: nat, m: nat): Pool
    requires s.blocks != [] && PoolSize(s) >= 0
  {
    s.(blocks := blocks + [Block(m, m + SIZEOF_DATA, m + PoolSize(s), 0)], current := current)
  }

  lemma GrowKeeps(s: Pool, blocks: seq<Block>, current: nat, m: nat)
    requires BlocksOk(s) && CarvedOk(s) && FreshBlock(s, m) && m != 0
    requires |blocks| == |s.blocks|
    requires forall k :: 0 <= k < |blocks| ==> blocks[k] == s.blocks[k].(failed := blocks[k].failed)
    ensures BlocksOk(Grow(s, blocks, current, m)) && CarvedOk(Grow(s, blocks, current, m))
  {
    var t := Grow(s, blocks, current, m);
    forall k | 0 <= k < |t.blocks|
      ensures BlockOk(t, k)
    {
      if k < |blocks| {
        assert BlockOk(s, k);
      }
    }
    forall i | 0 <= i < |t.carved|
      ensures RegionOk(t, t.carved[i])
    {
      assert RegionOk(s, s.carved[i]);
    }
  }

  // ---------- the invariant ----------

  /** The chunks the headers point to. */
  ghost function Allocs(large: seq<Large>): set<nat> {
    set l | l in large && l.alloc != 0 :: l.alloc
  }

  /** Every header was carved, aligned, from the pool; no two point to the same chunk;
      and the chunks alive are those pointed to, besides the leaked ones. */
  ghost predicate LargeOk(s: Pool) {
    && (forall i :: 0 <= i < |s.large| ==> HeaderCarved(s.carved, s.large[i].node))
    && (forall i, j :: 0 <= i < j < |s.large| ==> s.large[i].alloc != 0 ==> s.large[i].alloc != s.large[j].alloc)
    && 0 !in s.live && s.live == Allocs(s.large) + s.leaked && Allocs(s.large) !! s.leaked
  }

  ghost predicate HeaderCarved(carved: seq<Region>, node: nat) {
    exists i :: 0 <= i < |carved| && carved[i].addr == node && carved[i].size == SIZEOF_LARGE && carved[i].aligned
  }

  ghost predicate Inv(s: Pool) {
    && BlocksOk(s) && CarvedOk(s) && CountersOk(s.blocks, s.current) && LargeOk(s)
    && CountersExact(s.blocks, s.current, s.atReset)
  }

  lemma CreateInv(base: nat, size: nat)
    requires 0 < base && base % ALIGNMENT == 0 && base + size < ADDRESSES
    requires SIZEOF_POOL <= size && size % ALIGNMENT == 0
    ensures Inv(Create(base, size))
  {
    var s := Create(base, size);
    assert BlockOk(s, 0);
    assert Allocs([]) == {};
  }

  /** A small allocation either hands out one new region, in a block from the skip
      pointer on or in a fresh one, or fails because malloc did and changes nothing. */
  lemma SmallKeeps(s: Pool, size: nat, aligned: bool, m: nat)
    requires Inv(s) && FreshBlock(s, m) && size + SIZEOF_DATA <= PoolSize(s)
    ensures var (t, a) := Small(s, size, aligned, m);
      && Inv(t)
      && (a == 0 ==> t == s && m == 0)
      && var j := FindFit(s.blocks, s.current, size, aligned);
      (a != 0 ==> t.carved == s.carved + [Region(j, a, size, aligned || j == |s.blocks|)])
  {
    var j := FindFit(s.blocks, s.current, size, aligned);
    if j < |s.blocks| {
      SmallFits(s, size, aligned, m);
      CarveInv(s, j, Start(s.blocks[j], aligned), size, aligned);
    } else if m != 0 {
      NewBlockKeeps(s, size, m);
    }
  }

  /** A block that passes the unsigned test really has the room. */
  lemma SmallFits(s: Pool, size: nat, aligned: bool, m: nat)
    requires BlocksOk(s) && s.current < |s.blocks|
    requires FindFit(s.blocks, s.current, size, aligned) < |s.blocks|
    ensures var j := FindFit(s.blocks, s.current, size, aligned);
      var a := Start(s.blocks[j], aligned);
      && Small(s, size, aligned, m) == (Carve(s, j, a, size, aligned), a)
      && s.blocks[j].last <= a && a + size <= s.blocks[j].end && (aligned ==> a % ALIGNMENT == 0)
  {
    NoWrap(s, FindFit(s.blocks, s.current, size, aligned), aligned);
  }

  /** Carving from a block with room keeps the whole invariant. */
  lemma CarveInv(s: Pool, j: nat, a: nat, size: nat, aligned: bool)
    requires Inv(s) && j < |s.blocks|
    requires s.blocks[j].last <= a && a + size <= s.blocks[j].end && (aligned ==> a % ALIGNMENT == 0)
    ensures Inv(Carve(s, j, a, size, aligned)) && a != 0
  {
    assert BlockOk(s, j);
    CarveKeeps(s, j, a, size, aligned);
    CarvedGrows(s.large, s.carved, Carve(s, j, a, size, aligned).carved);
  }

  lemma CarvedGrows(large: seq<Large>, carved: seq<Region>, more: seq<Region>)
    requires carved <= more
    requires forall i :: 0 <= i < |large| ==> HeaderCarved(carved, large[i].node)
    ensures forall i :: 0 <= i < |large| ==> HeaderCarved(more, large[i].node)
  {
    forall i | 0 <= i < |large|
      ensures HeaderCarved(more, large[i].node)
    {
      var k :| 0 <= k < |carved|
               && carved[k].addr == large[i].node && carved[k].size == SIZEOF_LARGE && carved[k].aligned;
      assert more[k] == carved[k];
    }
  }

  /** A fresh block always fits the request. */
  lemma NewBlockKeeps(s: Pool, size: nat, m: nat)
    requires Inv(s) && FreshBlock(s, m) && m != 0 && size + SIZEOF_DATA <= PoolSize(s)
    ensures var (t, a) := NewBlock(s, size, m);
      && Inv(t) && a == m + SIZEOF_DATA
      && t.carved == s.carved + [Region(|s.blocks|, a, size, true)]
      && |t.blocks| == |s.blocks| + 1 && a + size <= t.blocks[|s.blocks|].end
  {
    var (t, a) := NewBlock(s, size, m);
    var (bumped, current) := Bump(s.blocks, s.current, s.current);
    var n := |s.blocks|;
    AlignUp(m + SIZEOF_DATA);
    assert a == m + SIZEOF_DATA;
    BumpFields(s.blocks, s.current, s.current);
    GrowKeeps(s, bumped, current, m);
    var g := Grow(s, bumped, current, m);
    CarveKeeps(g, n, a, size, true);
    assert t == Carve(g, n, a, size, true);
    BumpKeepsCounters(s.blocks, s.current, t.blocks[n]);
    BumpKeepsExact(s.blocks, s.current, s.atReset, t.blocks[n]);
    assert t.blocks == bumped + [t.blocks[n]];
    CarvedGrows(s.large, s.carved, t.carved);
  }

  // ---------- large chunks ----------

  lemma AllocsFilled(large: seq<Large>, j: nat, p: nat)
    requires j < |large| && large[j].alloc == 0 && p != 0
    ensures Allocs(large[j := large[j].(alloc := p)]) == Allocs(large) + {p}
  {
    var after := large[j := large[j].(alloc := p)];
    assert after[j] in after;
    forall l | l in large && l.alloc != 0
      ensures l in after
    {
      var i :| 0 <= i < |large| && large[i] == l;
      assert after[i] == l;
    }
  }

  lemma AllocsCleared(large: seq<Large>, j: nat)
    requires j < |large|
    requires forall i, k :: 0 <= i < k < |large| ==> large[i].alloc != 0 ==> large[i].alloc != large[k].alloc
    ensures Allocs(large[j := large[j].(alloc := 0)]) == Allocs(large) - {large[j].alloc}
  {
    var after := large[j := large[j].(alloc := 0)];
    forall l | l in after && l.alloc != 0
      ensures l in large && l.alloc != large[j].alloc
    {
      var i :| 0 <= i < |after| && after[i] == l;
      assert large[i] == l;
    }
    forall l | l in large && l.alloc != 0 && l.alloc != large[j].alloc
      ensures l in after
    {
      var i :| 0 <= i < |large| && large[i] == l;
      assert after[i] == l;
    }
  }

  lemma ChunkKeeps(s: Pool, p: nat, m: nat)
    requires Inv(s) && FreshBlock(s, m) && p !in s.live
    ensures var (t, a) := Chunk(s, p, m);
      && Inv(t) && (a == 0 || a == p)
      && t.live == (if p == 0 then s.live else s.live + {p})
      && (a == 0 && p != 0 ==> t.leaked == s.leaked + {p} && m == 0)
      && (a != 0 ==> t.leaked == s.leaked && exists l :: l in t.large && l.alloc == a)
  {
    var j := FreeHeader(s.large, 0);
    if p == 0 {
    } else if j < |s.large| {
      HeaderReused(s, j, p);
    } else {
      NewHeader(s, p, m);
    }
  }

  /** No header is free: one is carved from the pool, or the chunk is leaked. */
  lemma NewHeader(s: Pool, p: nat, m: nat)
    requires Inv(s) && FreshBlock(s, m) && p != 0 && p !in s.live
    requires FreeHeader(s.large, 0) == |s.large|
    ensures var (t, a) := Chunk(s, p, m);
      && Inv(t) && (a == 0 || a == p) && t.live == s.live + {p}
      && (a == 0 ==> t.leaked == s.leaked + {p} && m == 0)
      && (a != 0 ==> t.leaked == s.leaked && exists l :: l in t.large && l.alloc == a)
  {
    SmallKeeps(s, SIZEOF_LARGE, true, m);
    SmallLeavesLarge(s, SIZEOF_LARGE, true, m);
    var (u, node) := Small(s, SIZEOF_LARGE, true, m);
    if node != 0 {
      HeaderAdded(u, node, p);
    } else {
      Leaked(s, p);
    }
  }

  lemma Leaked(s: Pool, p: nat)
    requires Inv(s) && p != 0 && p !in s.live
    ensures Inv(s.(live := s.live + {p}, leaked := s.leaked + {p}))
  {
    SameChain(s, s.(live := s.live + {p}, leaked := s.leaked + {p}));
  }

  lemma HeaderReused(s: Pool, j: nat, p: nat)
    requires Inv(s) && j < |s.large| && s.large[j].alloc == 0 && p != 0 && p !in s.live
    ensures var t := s.(large := s.large[j := s.large[j].(alloc := p)], live := s.live + {p});
      Inv(t) && exists l :: l in t.large && l.alloc == p
  {
    var t := s.(large := s.large[j := s.large[j].(alloc := p)], live := s.live + {p});
    AllocsFilled(s.large, j, p);
    SameChain(s, t);
    assert t.large[j] in t.large;
    forall i, k | 0 <= i < k < |t.large| && t.large[i].alloc != 0
      ensures t.large[i].alloc != t.large[k].alloc
    {
      assert s.large[i] in s.large && s.large[k] in s.large;
    }
  }

  lemma SmallLeavesLarge(s: Pool, size: nat, aligned: bool, m: nat)
    requires s.current < |s.blocks| && PoolSize(s) >= 0
    ensures var t := Small(s, size, aligned, m).0;
      t.large == s.large && t.live == s.live && t.leaked == s.leaked && t.atReset == s.atReset && t.max == s.max
  {
  }

  lemma SameChain(s: Pool, t: Pool)
    requires BlocksOk(s) && CarvedOk(s)
    requires t.blocks == s.blocks && t.carved == s.carved && t.max == s.max
    ensures BlocksOk(t) && CarvedOk(t)
  {
    assert forall k :: 0 <= k < |s.blocks| ==> BlockOk(s, k) ==> BlockOk(t, k);
    assert forall r :: RegionOk(s, r) ==> RegionOk(t, r);
  }

  lemma HeaderAdded(u: Pool, node: nat, p: nat)
    requires Inv(u) && p != 0 && p !in u.live
    requires |u.carved| > 0
    requires u.carved[|u.carved| - 1].addr == node
    requires u.carved[|u.carved| - 1].size == SIZEOF_LARGE && u.carved[|u.carved| - 1].aligned
    ensures var t := u.(large := [Large(node, p)] + u.large, live := u.live + {p});
      Inv(t) && exists l :: l in t.large && l.alloc == p
  {
    var t := u.(large := [Large(node, p)] + u.large, live := u.live + {p});
    SameChain(u, t);
    assert t.large[0] in t.large;
    assert forall l :: l in t.large <==> l == Large(node, p) || l in u.large;
    assert Allocs(t.large) == Allocs(u.large) + {p};
    forall i, k | 0 <= i < k < |t.large| && t.large[i].alloc != 0
      ensures t.large[i].alloc != t.large[k].alloc
    {
      assert t.large[k] == u.large[k - 1] && u.large[k - 1] in u.large;
      if i > 0 {
        assert t.large[i] == u.large[i - 1];
      }
    }
    assert forall i :: 0 < i < |t.large| ==> t.large[i] == u.large[i - 1];
  }

  lemma FreeChunkLarge(s: Pool, p: nat)
    requires LargeOk(s)
    ensures LargeOk(FreeChunk(s, p))
    ensures FreeChunk(s, p).live == (if p in Allocs(s.large) then s.live - {p} else s.live)
    ensures FreeChunk(s, p) == s.(large := FreeChunk(s, p).large, live := FreeChunk(s, p).live)
  {
    var t := FreeChunk(s, p);
    var j := HeaderOf(s.large, p, 0);
    if j < |s.large| {
      AllocsCleared(s.large, j);
      assert s.large[j] in s.large;
      assert 0 !in s.live;
    }
  }

  lemma FreeChunkKeeps(s: Pool, p: nat)
    requires Inv(s)
    ensures Inv(FreeChunk(s, p))
  {
    FreeChunkLarge(s, p);
    SameChain(s, FreeChunk(s, p));
  }

  // ---------- reset ----------

  lemma {:induction false} FreeAllFrees(s: Pool, i: nat)
    requires LargeOk(s) && i <= |s.large|
    requires forall k :: 0 <= k < i ==> s.large[k].alloc == 0
    ensures var t := FreeAll(s, i);
      && LargeOk(t) && Allocs(t.large) == {}
      && t == s.(large := t.large, live := t.live)
    decreases |s.large| - i
  {
    if i < |s.large| {
      var u := if s.large[i].alloc != 0 then FreeChunk(s, s.large[i].alloc) else s;
      FreeChunkLarge(s, s.large[i].alloc);
      FreeAllFrees(u, i + 1);
    }
  }

  /** A reset frees every chunk that has a header and empties every block. */
  lemma ResetKeeps(s: Pool)
    requires Inv(s)
    ensures Inv(Reset(s)) && Reset(s).live == s.leaked
    ensures var t := Reset(s);
      && t.carved == [] && t.large == [] && t.current == 0 && |t.blocks| == |s.blocks|
      && forall k :: 0 <= k < |t.blocks| ==>
           t.blocks[k] == s.blocks[k].(last := s.blocks[k].base + Header(k), failed := 0)
  {
    FreeAllFrees(s, 0);
    var t := Reset(s);
    forall k | 0 <= k < |t.blocks|
      ensures BlockOk(t, k)
    {
      assert BlockOk(s, k);
    }
    assert Allocs([]) == {};
  }

  // ---------- which request is answered from where ----------

  /** The block has room for the request, in plain numbers. */
  predicate HasRoom(b: Block, size: nat, aligned: bool) {
    (if aligned then (b.last + 7) / 8 * 8 else b.last) + size <= b.end
  }

  lemma FitsIsRoom(s: Pool, k: nat, size: nat, aligned: bool)
    requires BlocksOk(s) && k < |s.blocks|
    ensures Fits(s.blocks[k], size, aligned) <==> HasRoom(s.blocks[k], size, aligned)
  {
    NoWrap(s, k, aligned);
  }

  /** A request up to the pool's limit is answered by the first block from the skip
      pointer on that has room, and only without one by a new block, if malloc has it. */
  lemma SmallRequest(s: Pool, size: nat, aligned: bool, p: nat, m: nat) returns (j: nat)
    requires Inv(s) && FreshBlock(s, m) && size <= PoolSize(s) - 64 && size <= 4095
    ensures s.current <= j <= |s.blocks|
    ensures forall k :: s.current <= k < j ==> !HasRoom(s.blocks[k], size, aligned)
    ensures j < |s.blocks| ==> HasRoom(s.blocks[j], size, aligned)
    ensures var (t, a) := Allocate(s, size, aligned, p, m);
      && t.large == s.large && t.live == s.live && t.leaked == s.leaked
      && (j < |s.blocks| ==>
            var b := s.blocks[j];
            && a == (if aligned then (b.last + 7) / 8 * 8 else b.last)
            && t == s.(blocks := s.blocks[j := b.(last := a + size)],
                       carved := s.carved + [Region(j, a, size, aligned)]))
      && (j == |s.blocks| && m == 0 ==> t == s && a == 0)
      && (j == |s.blocks| && m != 0 ==>
            && a == m + 32 && |t.blocks| == j + 1
            && t.blocks[j] == Block(m, a + size, m + PoolSize(s), 0))
  {
    j := FindFit(s.blocks, s.current, size, aligned);
    forall k | s.current <= k < |s.blocks|
      ensures Fits(s.blocks[k], size, aligned) <==> HasRoom(s.blocks[k], size, aligned)
    {
      FitsIsRoom(s, k, size, aligned);
    }
    SmallLeavesLarge(s, size, aligned, m);
    if j == |s.blocks| && m != 0 {
      NewBlockKeeps(s, size, m);
      BumpFields(s.blocks, s.current, s.current);
    }
  }

  /** A larger one is answered with the chunk malloc gave, if it gave one, through one of
      the first five headers if one of them is free. */
  lemma LargeRequest(s: Pool, size: nat, aligned: bool, p: nat, m: nat)
    requires Inv(s) && FreshBlock(s, m) && p !in s.live && (size > PoolSize(s) - 64 || size > 4095)
    ensures var (t, a) := Allocate(s, size, aligned, p, m);
      && (p == 0 ==> t == s && a == 0)
      && (p != 0 ==> t.live == s.live + {p} && (a == p || (a == 0 && t.leaked == s.leaked + {p})))
      && (p != 0 && (exists k :: 0 <= k < 5 && k < |s.large| && s.large[k].alloc == 0) ==>
            && a == p && t.blocks == s.blocks && t.carved == s.carved && |t.large| == |s.large|
            && exists k :: 0 <= k < 5 && k < |s.large| && s.large[k].alloc == 0
                 && t.large == s.large[k := s.large[k].(alloc := p)])
  {
    ChunkKeeps(s, p, m);
  }

  /** With none free, a header of 16 bytes is carved and put in front of the list. */
  lemma HeaderInFront(s: Pool, p: nat, m: nat)
    requires Inv(s) && FreshBlock(s, m) && p != 0
    requires forall k :: 0 <= k < 5 && k < |s.large| ==> s.large[k].alloc != 0
    ensures var (t, a) := Chunk(s, p, m);
      a != 0 ==>
        && a == p && |t.carved| == |s.carved| + 1 && t.carved[..|s.carved|] == s.carved
        && t.carved[|s.carved|].size == 16 && t.carved[|s.carved|].aligned
        && t.large == [Large(t.carved[|s.carved|].addr, p)] + s.large
  {
    SmallKeeps(s, SIZEOF_LARGE, true, m);
    SmallLeavesLarge(s, SIZEOF_LARGE, true, m);
  }

  /** What a pool starts with. */
  lemma CreateHolds(base: nat, size: nat)
    requires 64 <= size
    ensures var s := Create(base, size);
      && s.blocks == [Block(base, base + 64, base + size, 0)] && s.current == 0
      && s.max == (if size - 64 < 4095 then size - 64 else 4095)
      && s.large == [] && s.carved == [] && s.live == {}
  {
  }

  // ---------- runs ----------

  datatype Op = Alloc(size: nat, aligned: bool, p: nat, m: nat) | Free(p: nat) | ResetPool

  /** What malloc may answer: memory apart from what is in use, or null. */
  ghost predicate Legal(s: Pool, op: Op)
    requires s.blocks != []
  {
    op.Alloc? ==> FreshBlock(s, op.m) && op.p !in s.live
  }

  ghost function Next(s: Pool, op: Op): Pool
    requires s.current < |s.blocks| && PoolSize(s) >= 0
  {
    match op
    case Alloc(size, aligned, p, m) => Allocate(s, size, aligned, p, m).0
    case Free(p) => FreeChunk(s, p)
    case ResetPool => Reset(s)
  }

  lemma NextKeepsInv(s: Pool, op: Op)
    requires Inv(s) && Legal(s, op)
    ensures Inv(Next(s, op))
    ensures Next(s, op).atReset == (if op.ResetPool? then |s.blocks| else s.atReset)
  {
    match op
    case Alloc(size, aligned, p, m) =>
      if size <= s.max {
        SmallKeeps(s, size, aligned, m);
        SmallLeavesLarge(s, size, aligned, m);
      } else {
        ChunkKeeps(s, p, m);
        SmallLeavesLarge(s, SIZEOF_LARGE, true, m);
      }
    case Free(p) => FreeChunkKeeps(s, p);
    case ResetPool =>
      ResetKeeps(s);
      FreeAllFrees(s, 0);
  }

  ghost predicate LegalRun(s: Pool, ops: seq<Op>)
    requires Inv(s)
    decreases |ops|
  {
    ops == [] || (Legal(s, ops[0]) && (NextKeepsInv(s, ops[0]); LegalRun(Next(s, ops[0]), ops[1..])))
  }

  /** The pool after a run; every run keeps the invariant. */
  ghost function Run(s: Pool, ops: seq<Op>): (t: Pool)
    requires Inv(s) && LegalRun(s, ops)
    ensures Inv(t)
    decreases |ops|
  {
    if ops == [] then s
    else
      NextKeepsInv(s, ops[0]);
      Run(Next(s, ops[0]), ops[1..])
  }

  /** In every run, what was handed out of the pool since the last reset - headers of
      large chunks included - is pairwise disjoint, lies after its block's header and
      before the block's end, and is aligned when that was asked for. */
  lemma CarvedNeverOverlap(s: Pool, ops: seq<Op>, i: nat)
    requires Inv(s) && LegalRun(s, ops) && i < |Run(s, ops).carved|
    ensures var t := Run(s, ops);
      var r := t.carved[i];
      && r.block < |t.blocks|
      && t.blocks[r.block].base + Header(r.block) <= r.addr
      && r.addr + r.size <= t.blocks[r.block].last <= t.blocks[r.block].end
      && (r.aligned ==> r.addr % ALIGNMENT == 0)
      && forall j :: 0 <= j < |t.carved| && j != i ==>
           Apart(r.addr, r.addr + r.size, t.carved[j].addr, t.carved[j].addr + t.carved[j].size)
  {
    var t := Run(s, ops);
    assert RegionOk(t, t.carved[i]) && BlockOk(t, t.carved[i].block);
  }

  /** In every run the counters are known exactly, and the suffix from the skip pointer
      is at most seven blocks long, or five longer than the chain was at the last reset:
      that many blocks at most does a small allocation examine. */
  lemma SuffixBounded(s: Pool, ops: seq<Op>)
    requires Inv(s) && LegalRun(s, ops)
    ensures var t := Run(s, ops);
      && t.current < |t.blocks|
      && |t.blocks| - t.current <= (if t.atReset <= 2 then 7 else t.atReset + 5)
      && forall k :: 0 <= k < |t.blocks| ==> t.blocks[k].failed == Failures(|t.blocks|, t.atReset, k)
  {
  }

  lemma {:induction false} NoResetInRun(s: Pool, ops: seq<Op>)
    requires Inv(s) && LegalRun(s, ops) && ResetPool !in ops
    ensures Run(s, ops).atReset == s.atReset
    decreases |ops|
  {
    if ops != [] {
      NextKeepsInv(s, ops[0]);
      assert ops[0] in ops && forall op :: op in ops[1..] ==> op in ops;
      NoResetInRun(Next(s, ops[0]), ops[1..]);
    }
  }

  /** So without a reset a small allocation examines at most seven blocks. */
  lemma SevenBlocks(s: Pool, ops: seq<Op>)
    requires Inv(s) && s.atReset == 1 && LegalRun(s, ops) && ResetPool !in ops
    ensures var t := Run(s, ops); t.current < |t.blocks| <= t.current + 7
  {
    NoResetInRun(s, ops);
    SuffixBounded(s, ops);
  }

  ghost predicate OnlyHeader(large: seq<Large>, i: nat, p: nat)
    requires i < |large|
  {
    large[i].alloc == p && forall k :: 0 <= k < |large| && k != i ==> large[k].alloc != p
  }

  /** A large chunk stays alive until it is freed: each is pointed to by one header,
      unless the header itself could not be had, when the chunk is lost. */
  lemma ChunksConserved(s: Pool, ops: seq<Op>, p: nat)
    requires Inv(s) && LegalRun(s, ops)
    ensures var t := Run(s, ops);
      p in t.live && p !in t.leaked <==>
      p != 0 && exists i :: 0 <= i < |t.large| && OnlyHeader(t.large, i, p)
  {
    LiveIffHeld(Run(s, ops), p);
  }

  lemma LiveIffHeld(t: Pool, p: nat)
    requires LargeOk(t)
    ensures p in t.live && p !in t.leaked <==>
            p != 0 && exists i :: 0 <= i < |t.large| && OnlyHeader(t.large, i, p)
  {
    if p in t.live && p !in t.leaked {
      var l :| l in t.large && l.alloc == p && p != 0;
      var i :| 0 <= i < |t.large| && t.large[i] == l;
      assert OnlyHeader(t.large, i, p);
    }
    if i :| 0 <= i < |t.large| && t.large[i].alloc == p {
      assert t.large[i] in t.large;
    }
  }

  // ---------- the program ----------

  class MemPool {
    var blocks: seq<Block>
    var current: nat
    var max: nat
    var large: seq<Large>
    ghost var carved: seq<Region>
    ghost var live: set<nat>
    ghost var leaked: set<nat>
    ghost var atReset: nat

    ghost function View(): Pool
      reads this
    {
      Pool(blocks, current, max, large, carved, live, leaked, atReset)
    }

    /** base is malloc's answer, aligned memory. */
    constructor CreatePool(base: nat, size: nat)
      requires 0 < base && base % ALIGNMENT == 0 && base + size < ADDRESSES
      requires SIZEOF_POOL <= size && size % ALIGNMENT == 0
      ensures View() == Create(base, size) && Inv(View())
    {
      blocks := [Block(base, base + SIZEOF_POOL, base + size, 0)];
      var room := size - SIZEOF_POOL;
      max := if room < MAX_ALLOC then room else MAX_ALLOC;
      current, large := 0, [];
      carved, live, leaked, atReset := [], {}, {}, 1;
      CreateInv(base, size);
    }

    method PallocSmall(size: nat, aligned: bool, m: nat) returns (r: nat)
      requires current < |blocks| && PoolSize(View()) >= 0
      modifies this
      ensures (View(), r) == Small(old(View()), size, aligned, m)
    {
      var p := current;
      while p < |blocks|
        invariant current <= p <= |blocks|
        invariant FindFit(blocks, current, size, aligned) == FindFit(blocks, p, size, aligned)
      {
        var a := if aligned then Align(blocks[p].last) else blocks[p].last;
        if Unsigned(blocks[p].end - a) >= size {
          r := Take(p, a, size, aligned);
          return;
        }
        p := p + 1;
      }
      r := PallocBlock(size, m);
    }

    method Take(p: nat, a: nat, size: nat, aligned: bool) returns (r: nat)
      requires p < |blocks|
      modifies this`blocks, this`carved
      ensures r == a && View() == Carve(old(View()), p, a, size, aligned)
    {
      blocks := blocks[p := blocks[p].(last := a + size)];
      carved := carved + [Region(p, a, size, aligned)];
      r := a;
    }

    method PallocBlock(size: nat, m: nat) returns (r: nat)
      requires current < |blocks| && PoolSize(View()) >= 0
      modifies this
      ensures (View(), r) == NewBlock(old(View()), size, m)
    {
      if m == 0 {
        return 0;
      }
      var psize := blocks[0].end - blocks[0].base;
      var a := Align(m + SIZEOF_DATA);
      var newpool := Block(m, a + size, m + psize, 0);
      ghost var was, start := blocks, current;
      var p := current;
      while p + 1 < |blocks|
        invariant current <= p || p < |blocks|
        invariant p < |blocks| == |was| && View() == old(View()).(blocks := blocks, current := current)
        invariant Bump(was, start, start) == Bump(blocks, p, current)
      {
        var failed := blocks[p].failed;
        blocks := blocks[p := blocks[p].(failed := failed + 1)];
        if failed > 4 {
          current := p + 1;
        }
        p := p + 1;
      }
      carved := carved + [Region(|blocks|, a, size, true)];
      blocks := blocks + [newpool];
      r := a;
    }

    method PallocLarge(p: nat, m: nat) returns (r: nat)
      requires current < |blocks| && PoolSize(View()) >= 0
      modifies this
      ensures (View(), r) == Chunk(old(View()), p, m)
    {
      if p == 0 {
        return 0;
      }
      var i, n := 0, 0;
      while i < |large|
        invariant i == n <= 4 && i <= |large| && View() == old(View())
        invariant FreeHeader(large, 0) == FreeHeader(large, i)
      {
        if large[i].alloc == 0 {
          large := large[i := large[i].(alloc := p)];
          live := live + {p};
          return p;
        }
        n := n + 1;
        if n > 4 {
          break;
        }
        i := i + 1;
      }
      var node := PallocSmall(SIZEOF_LARGE, true, m);
      live := live + {p};
      if node == 0 {
        leaked := leaked + {p};
        return 0;
      }
      large := [Large(node, p)] + large;
      r := p;
    }

    /** The aligned (palloc) and the unaligned (pnalloc) allocation. */
    method Palloc(size: nat, aligned: bool, p: nat, m: nat) returns (r: nat)
      requires Inv(View()) && Legal(View(), Alloc(size, aligned, p, m))
      modifies this
      ensures (View(), r) == Allocate(old(View()), size, aligned, p, m)
      ensures size > old(PoolSize(View())) - 64 || size > 4095 ==> r == 0 || r == p
    {
      if size <= max {
        r := PallocSmall(size, aligned, m);
      } else {
        r := PallocLarge(p, m);
      }
    }

    method Pfree(p: nat)
      modifies this`large, this`live
      ensures View() == FreeChunk(old(View()), p)
    {
      var i := 0;
      while i < |large|
        invariant i <= |large| && View() == old(View())
        invariant HeaderOf(large, p, 0) == HeaderOf(large, p, i)
      {
        if p == large[i].alloc {
          large := large[i := large[i].(alloc := 0)];
          live := live - {p};
          return;
        }
        i := i + 1;
      }
    }

    /** Frees the chunk of every header. */
    method FreeChunks()
      modifies this`large, this`live
      ensures View() == FreeAll(old(View()), 0)
    {
      var i := 0;
      while i < |large|
        invariant i <= |large|
        invariant FreeAll(old(View()), 0) == FreeAll(View(), i)
      {
        if large[i].alloc != 0 {
          Pfree(large[i].alloc);
        }
        i := i + 1;
      }
    }

    /** Empties every block. */
    method ClearBlocks()
      modifies this`blocks
      ensures blocks == ResetBlocks(old(blocks))
    {
      var k := 0;
      while k < |blocks|
        invariant k <= |blocks| == |old(blocks)|
        invariant forall i :: 0 <= i < k ==> blocks[i] == ResetBlocks(old(blocks))[i]
        invariant forall i :: k <= i < |blocks| ==> blocks[i] == old(blocks)[i]
      {
        var front := if k == 0 then SIZEOF_POOL else SIZEOF_DATA;
        blocks := blocks[k := blocks[k].(last := blocks[k].base + front, failed := 0)];
        k := k + 1;
      }
    }

    method ResetPool()
      requires Inv(View())
      modifies this
      ensures View() == Reset(old(View()))
    {
      FreeAllFrees(View(), 0);
      FreeChunks();
      ClearBlocks();
      current, large := 0, [];
      carved, atReset := [], |blocks|;
    }
  }
}
