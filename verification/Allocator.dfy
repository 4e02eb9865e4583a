/** The sbrk allocator of advUNIX/HW1: a free list whose headers live in the same memory
    as the bytes handed out. Addresses are indices into `mem`; 0 is NULL. */
module Allocator {

  /** `sizeof(block_t)` and the offsets of its fields. */
  const HEADER: nat := 24
  const SIZE: nat := 0
  const FREE: nat := 8
  const NEXT: nat := 16

  /** What one header in memory says. */
  datatype Block = Block(addr: nat, size: nat, free: bool) {
    function User(): nat { addr + HEADER }
    function End(): nat { addr + HEADER + size }
  }

  /** The memory, the `head` pointer, the program break, and the blocks the list denotes. */
  datatype Arena = Arena(mem: seq<int>, head: nat, brk: nat, blocks: seq<Block>)

  function AddrAt(bs: seq<Block>, i: nat): nat {
    if i < |bs| then bs[i].addr else 0
  }

  /** Headers and payloads ascend without touching each other, all below the break. */
  ghost predicate Layout(a: Arena) {
    && 0 < a.brk <= |a.mem|
    && (forall i | 0 <= i < |a.blocks| ::
          && 0 < a.blocks[i].addr && 0 < a.blocks[i].size && a.blocks[i].End() <= a.brk)
    && (forall i, j | 0 <= i < j < |a.blocks| :: a.blocks[i].End() <= a.blocks[j].addr)
  }

  /** Block i is what memory holds at its address. */
  ghost predicate Header(a: Arena, i: nat)
    requires i < |a.blocks| && a.blocks[i].End() <= |a.mem|
  {
    var b := a.blocks[i];
    && a.mem[b.addr + SIZE] == b.size
    && a.mem[b.addr + FREE] == (if b.free then 1 else 0)
    && a.mem[b.addr + NEXT] == AddrAt(a.blocks, i + 1)
  }

  ghost predicate Valid(a: Arena) {
    && Layout(a)
    && a.head == AddrAt(a.blocks, 0)
    && forall i | 0 <= i < |a.blocks| :: Header(a, i)
  }

  predicate Fits(b: Block, size: nat) {
    b.free && b.size >= size
  }

  /** The index of the first block that fits, or |bs|. */
  function FirstFit(bs: seq<Block>, size: nat, from: nat): (i: nat)
    requires from <= |bs|
    ensures from <= i <= |bs| && (i < |bs| ==> Fits(bs[i], size))
    ensures forall k | from <= k < i :: !Fits(bs[k], size)
    decreases |bs| - from
  {
    if from < |bs| && !Fits(bs[from], size) then FirstFit(bs, size, from + 1) else from
  }

  /** `my_malloc`; `granted` says whether the system agrees to move the break. */
  function Malloc(a: Arena, size: nat, granted: bool): (r: (Arena, nat))
    requires Valid(a)
  {
    var i := FirstFit(a.blocks, size, 0);
    if size == 0 then
      (a, 0)
    else if i < |a.blocks| then
      (SetFree(a, i, false), a.blocks[i].User())
    else if granted && a.brk + HEADER + size <= |a.mem| then
      (Extend(a, size), a.brk + HEADER)
    else
      (a, 0)
  }

  /** The `free` field of block i, in memory and in the list. */
  function SetFree(a: Arena, i: nat, free: bool): Arena
    requires Valid(a) && i < |a.blocks|
  {
    a.(blocks := a.blocks[i := a.blocks[i].(free := free)],
       mem := a.mem[a.blocks[i].addr + FREE := if free then 1 else 0])
  }

  /** The list with a new block at the break linked behind its last block. */
  function Extend(a: Arena, size: nat): Arena
    requires Valid(a) && a.brk + HEADER + size <= |a.mem|
  {
    var mem := a.mem[a.brk + SIZE := size][a.brk + FREE := 0][a.brk + NEXT := 0];
    var n := |a.blocks|;
    Arena(if n == 0 then mem else mem[a.blocks[n - 1].addr + NEXT := a.brk],
          if n == 0 then a.brk else a.head,
          a.brk + HEADER + size,
          a.blocks + [Block(a.brk, size, false)])
  }

  /** Some block's user pointer is `ptr`, and its owner has not freed it. */
  ghost predicate LiveAt(a: Arena, ptr: nat, i: nat) {
    i < |a.blocks| && a.blocks[i].User() == ptr && !a.blocks[i].free
  }

  ghost predicate Live(a: Arena, ptr: nat) {
    exists i :: LiveAt(a, ptr, i)
  }

  /** The block a live pointer belongs to. */
  ghost function Owner(a: Arena, ptr: nat): (i: nat)
    requires Live(a, ptr)
    ensures LiveAt(a, ptr, i)
  {
    var i :| LiveAt(a, ptr, i);
    i
  }

  /** Calls of the allocator, foreign growth of the break, and writes by owners. */
  datatype Op =
    | Allocate(size: nat, granted: bool)
    | Release(ptr: nat)
    | Foreign(bytes: nat)
    | Store(ptr: nat, off: nat, v: int)

  /** What callers owe: they free NULL or a live pointer and write inside live regions. */
  ghost predicate Legal(a: Arena, op: Op) {
    match op
    case Allocate(_, _) => true
    case Release(p) => p == 0 || Live(a, p)
    case Foreign(n) => a.brk + n <= |a.mem|
    case Store(p, off, _) => Live(a, p) && off < a.blocks[Owner(a, p)].size
  }

  ghost function Apply(a: Arena, op: Op): Arena
    requires Valid(a) && Legal(a, op)
  {
    match op
    case Allocate(size, granted) => Malloc(a, size, granted).0
    case Release(p) => if p == 0 then a else SetFree(a, Owner(a, p), true)
    case Foreign(n) => a.(brk := a.brk + n)
    case Store(p, off, v) => a.(mem := a.mem[p + off := v])
  }

  // ----- The list keeps its shape -----

  lemma SetFreeKeeps(a: Arena, i: nat, free: bool)
    requires Valid(a) && i < |a.blocks|
    ensures Valid(SetFree(a, i, free))
  {
    var a' := SetFree(a, i, free);
    forall k | 0 <= k < |a'.blocks| ensures Header(a', k) {
      assert Header(a, k);
    }
  }

  lemma ExtendKeeps(a: Arena, size: nat)
    requires Valid(a) && 0 < size && a.brk + HEADER + size <= |a.mem|
    ensures Valid(Extend(a, size))
  {
    var a', n := Extend(a, size), |a.blocks|;
    forall k | 0 <= k < |a'.blocks| ensures Header(a', k) {
      if k < n {
        assert Header(a, k);
        assert a.blocks[k].End() <= a.brk;
        if k < n - 1 {
          assert a.blocks[k].End() <= a.blocks[n - 1].addr;
        }
      }
    }
  }

  lemma StoreKeeps(a: Arena, p: nat, off: nat, v: int)
    requires Valid(a) && Legal(a, Store(p, off, v))
    ensures Valid(Apply(a, Store(p, off, v)))
  {
    var a', o := Apply(a, Store(p, off, v)), Owner(a, p);
    forall k | 0 <= k < |a'.blocks| ensures Header(a', k) {
      assert Header(a, k);
      assert k < o ==> a.blocks[k].End() <= a.blocks[o].addr;
      assert o < k ==> a.blocks[o].End() <= a.blocks[k].addr;
    }
  }

  /** Every call, foreign break growth and in-bounds write keeps the list well formed. */
  lemma OpKeepsValid(a: Arena, op: Op)
    requires Valid(a) && Legal(a, op)
    ensures Valid(Apply(a, op))
  {
    match op
    case Allocate(size, granted) =>
      var i := FirstFit(a.blocks, size, 0);
      if size != 0 && i < |a.blocks| {
        SetFreeKeeps(a, i, false);
      } else if size != 0 && granted && a.brk + HEADER + size <= |a.mem| {
        ExtendKeeps(a, size);
      }
    case Release(p) =>
      if p != 0 {
        SetFreeKeeps(a, Owner(a, p), true);
      }
    case Foreign(n) =>
      forall k | 0 <= k < |a.blocks| ensures Header(Apply(a, op), k) {
        assert Header(a, k);
      }
    case Store(p, off, v) => StoreKeeps(a, p, off, v);
  }

  /** Following `next` k times through memory alone. */
  function Walk(mem: seq<int>, from: int, k: nat): int
    decreases k
  {
    if k == 0 then from
    else if 0 < from && from + NEXT < |mem| then Walk(mem, mem[from + NEXT], k - 1)
    else 0
  }

  /** The chain in memory visits the blocks in ascending order and ends at NULL: it has
      no cycle and no detour. */
  lemma {:induction false} WalkVisits(a: Arena, i: nat, k: nat)
    requires Valid(a) && i + k <= |a.blocks|
    ensures Walk(a.mem, AddrAt(a.blocks, i), k) == AddrAt(a.blocks, i + k)
    decreases k
  {
    if k != 0 {
      assert Header(a, i);
      WalkVisits(a, i + 1, k - 1);
    }
  }

  // ----- Ownership -----

  lemma Apart(a: Arena, i: nat, j: nat)
    requires Layout(a) && i < |a.blocks| && j < |a.blocks|
    ensures i == j || a.blocks[i].End() <= a.blocks[j].addr || a.blocks[j].End() <= a.blocks[i].addr
  {
  }

  lemma OneOwner(a: Arena, p: nat, i: nat, j: nat)
    requires Layout(a) && i < |a.blocks| && j < |a.blocks|
    requires a.blocks[i].User() == p && a.blocks[j].User() == p
    ensures i == j
  {
    Apart(a, i, j);
  }

  /** How many bytes the owner of a live pointer may use. */
  ghost function SizeOf(a: Arena, p: nat): nat
    requires Live(a, p)
  {
    a.blocks[Owner(a, p)].size
  }

  /** The regions of two live pointers, headers included, share no address. */
  lemma LiveRegionsDisjoint(a: Arena, p: nat, q: nat)
    requires Valid(a) && Live(a, p) && Live(a, q) && p != q
    ensures p + SizeOf(a, p) <= q - HEADER || q + SizeOf(a, q) <= p - HEADER
    ensures p + SizeOf(a, p) <= a.brk && q + SizeOf(a, q) <= a.brk
  {
    var i, j := Owner(a, p), Owner(a, q);
    assert i < j ==> a.blocks[i].End() <= a.blocks[j].addr;
    assert j < i ==> a.blocks[j].End() <= a.blocks[i].addr;
  }

  /** What a caller of `my_malloc` gets: NULL exactly when the size is 0 or nothing fits
      and the break does not move; otherwise a pointer nobody held, to enough bytes, and
      no pointer held before is lost. */
  lemma MallocGivesFreshRegion(a: Arena, size: nat, granted: bool)
    requires Valid(a)
    ensures var (a', p) := Malloc(a, size, granted);
      && (p == 0 <==>
            || size == 0
            || ((forall k | 0 <= k < |a.blocks| :: !Fits(a.blocks[k], size))
                && !(granted && a.brk + HEADER + size <= |a.mem|)))
      && (p == 0 ==> a' == a)
      && (p != 0 ==> Live(a', p) && !Live(a, p) && SizeOf(a', p) >= size)
      && (forall q | Live(a, q) :: Live(a', q) && SizeOf(a', q) == SizeOf(a, q))
  {
    var p := Malloc(a, size, granted).1;
    if p != 0 {
      MallocOwner(a, size, granted);
      NotHeldBefore(a, size, granted);
    }
    forall q | Live(a, q)
      ensures Live(Malloc(a, size, granted).0, q)
      ensures SizeOf(Malloc(a, size, granted).0, q) == SizeOf(a, q)
    {
      OpKeepsOwner(a, Allocate(size, granted), q);
    }
  }

  lemma NotHeldBefore(a: Arena, size: nat, granted: bool)
    requires Valid(a) && Malloc(a, size, granted).1 != 0
    ensures !Live(a, Malloc(a, size, granted).1)
  {
    var p, i := Malloc(a, size, granted).1, FirstFit(a.blocks, size, 0);
    forall k | 0 <= k < |a.blocks| ensures !LiveAt(a, p, k) {
      if i < |a.blocks| {
        Apart(a, i, k);
      }
      assert a.blocks[k].End() <= a.brk;
    }
  }

  /** First fit, and growth only as the last resort. */
  lemma GrowsOnlyWhenNothingFits(a: Arena, size: nat, granted: bool)
    requires Valid(a)
    ensures var (a', p) := Malloc(a, size, granted);
      && |a.blocks| <= |a'.blocks| <= |a.blocks| + 1
      && (|a'.blocks| == |a.blocks| + 1 ==>
            forall k | 0 <= k < |a.blocks| :: !Fits(a.blocks[k], size))
      && (a'.brk != a.brk <==> |a'.blocks| != |a.blocks|)
      && (size > 0 && (exists k :: 0 <= k < |a.blocks| && Fits(a.blocks[k], size)) ==>
            exists k :: 0 <= k < |a.blocks| && Fits(a.blocks[k], size)
                        && p == a.blocks[k].User()
                        && forall j | 0 <= j < k :: !Fits(a.blocks[j], size))
  {
  }

  lemma SetFreeBack(a: Arena, i: nat)
    requires Valid(a) && i < |a.blocks| && a.blocks[i].free
    ensures Valid(SetFree(a, i, false)) && SetFree(SetFree(a, i, false), i, true) == a
  {
    SetFreeKeeps(a, i, false);
    assert Header(a, i);
    var a' := SetFree(SetFree(a, i, false), i, true);
    assert a'.blocks == a.blocks && a'.mem == a.mem;
  }

  /** The owner index of a pointer just handed out: the header is found again from it. */
  lemma MallocOwner(a: Arena, size: nat, granted: bool)
    requires Valid(a) && Malloc(a, size, granted).1 != 0
    ensures var (a', p) := Malloc(a, size, granted);
      Valid(a') && Live(a', p) && Owner(a', p) == FirstFit(a.blocks, size, 0)
  {
    var (a', p) := Malloc(a, size, granted);
    OpKeepsValid(a, Allocate(size, granted));
    assert LiveAt(a', p, FirstFit(a.blocks, size, 0));
    OneOwner(a', p, FirstFit(a.blocks, size, 0), Owner(a', p));
  }

  /** Freeing what was just allocated undoes the call: a reused block leaves no trace, a
      new block stays behind, free. */
  lemma FreeUndoesMalloc(a: Arena, size: nat, granted: bool)
    requires Valid(a) && Malloc(a, size, granted).1 != 0
    ensures var (a', p) := Malloc(a, size, granted);
      && Live(a', p) && Valid(a')
      && (|a'.blocks| == |a.blocks| ==> Apply(a', Release(p)) == a)
      && (|a'.blocks| != |a.blocks| ==>
            && Apply(a', Release(p)).blocks == a.blocks + [Block(a.brk, size, true)]
            && Apply(a', Release(p)).brk == a.brk + HEADER + size)
  {
    var i := FirstFit(a.blocks, size, 0);
    MallocOwner(a, size, granted);
    if i < |a.blocks| {
      SetFreeBack(a, i);
    }
  }

  /** What `my_free` does in any state: the pointer's block, and no other, is free afterwards;
      its `free` field is the one memory cell that changes, and NULL changes nothing. */
  lemma FreeReleases(a: Arena, p: nat)
    requires Valid(a) && (p == 0 || Live(a, p))
    ensures p == 0 ==> !Live(a, p) && Apply(a, Release(p)) == a
    ensures p != 0 ==> var a' := Apply(a, Release(p));
      && Valid(a') && !Live(a', p)
      && (forall q: nat | q != p :: Live(a', q) <==> Live(a, q))
      && a'.blocks == a.blocks[Owner(a, p) := a.blocks[Owner(a, p)].(free := true)]
      && a'.mem == a.mem[p - HEADER + FREE := 1]
      && a'.head == a.head && a'.brk == a.brk
  {
    var a' := Apply(a, Release(p));
    OpKeepsValid(a, Release(p));
    if p != 0 {
      var o := Owner(a, p);
      forall k | 0 <= k < |a.blocks| ensures !LiveAt(a', p, k) {
        Apart(a, o, k);
      }
      forall q: nat | q != p ensures Live(a', q) <==> Live(a, q) {
        assert forall k | 0 <= k < |a.blocks| :: LiveAt(a', q, k) <==> LiveAt(a, q, k);
      }
    }
  }

  /** A freed block serves the next request that it can hold, without the system's help. */
  lemma FreedSpaceIsReused(a: Arena, p: nat, size: nat, granted: bool)
    requires Valid(a) && Live(a, p) && 0 < size <= SizeOf(a, p)
    ensures Valid(Apply(a, Release(p)))
    ensures Malloc(Apply(a, Release(p)), size, granted).1 != 0
    ensures Malloc(Apply(a, Release(p)), size, granted).0.brk == a.brk
  {
    OpKeepsValid(a, Release(p));
    var a' := Apply(a, Release(p));
    if p != 0 {
      assert Fits(a'.blocks[Owner(a, p)], size);
    }
  }

  // ----- Runs -----

  ghost predicate IsRun(a: Arena, ops: seq<Op>)
    requires Valid(a)
    decreases |ops|
  {
    |ops| == 0 ||
    (Legal(a, ops[0]) && (OpKeepsValid(a, ops[0]); IsRun(Apply(a, ops[0]), ops[1..])))
  }

  ghost function Exec(a: Arena, ops: seq<Op>): (r: Arena)
    requires Valid(a) && IsRun(a, ops)
    ensures Valid(r)
    decreases |ops|
  {
    if |ops| == 0 then a
    else
      OpKeepsValid(a, ops[0]);
      Exec(Apply(a, ops[0]), ops[1..])
  }

  /** Does the owner of p give it up, or overwrite byte `off` of it? */
  predicate Touches(op: Op, p: nat, off: nat) {
    op == Release(p) || (op.Store? && op.ptr == p && op.off == off)
  }

  /** Blocks never move or change size, and only their owner frees them. */
  lemma OpKeepsOwner(a: Arena, op: Op, p: nat)
    requires Valid(a) && Legal(a, op) && Live(a, p) && op != Release(p)
    ensures Live(Apply(a, op), p) && Owner(Apply(a, op), p) == Owner(a, p)
    ensures SizeOf(Apply(a, op), p) == SizeOf(a, p)
  {
    var a', o := Apply(a, op), Owner(a, p);
    OpKeepsValid(a, op);
    if op.Release? && op.ptr != 0 {
      assert Owner(a, op.ptr) != o;
    }
    assert LiveAt(a', p, o);
    OneOwner(a', p, o, Owner(a', p));
  }

  /** Allocator calls write into headers only, and owners only into their own regions. */
  lemma OpKeepsByte(a: Arena, op: Op, p: nat, off: nat)
    requires Valid(a) && Legal(a, op) && Live(a, p) && off < SizeOf(a, p)
    requires !Touches(op, p, off)
    ensures Valid(Apply(a, op)) && Apply(a, op).mem[p + off] == a.mem[p + off]
  {
    var o := Owner(a, p);
    OpKeepsValid(a, op);
    match op
    case Allocate(size, granted) =>
      var i := FirstFit(a.blocks, size, 0);
      if i < |a.blocks| {
        Apart(a, i, o);
      } else if |a.blocks| > 0 {
        Apart(a, |a.blocks| - 1, o);
      }
    case Release(q) =>
      if q != 0 {
        Apart(a, Owner(a, q), o);
      }
    case Foreign(_) =>
    case Store(q, at, _) =>
      Apart(a, Owner(a, q), o);
  }

  /** A byte its owner does not touch survives every later call, every break growth and
      every other owner's writes, for as long as the owner does not free it. */
  lemma {:induction false} BytesSurvive(a: Arena, ops: seq<Op>, p: nat, off: nat)
    requires Valid(a) && IsRun(a, ops) && Live(a, p) && off < SizeOf(a, p)
    requires forall i | 0 <= i < |ops| :: !Touches(ops[i], p, off)
    ensures var e := Exec(a, ops);
      && Live(e, p) && SizeOf(e, p) == SizeOf(a, p)
      && p + off < |a.mem| && p + off < |e.mem| && e.mem[p + off] == a.mem[p + off]
    decreases |ops|
  {
    if |ops| != 0 {
      OpKeepsValid(a, ops[0]);
      OpKeepsOwner(a, ops[0], p);
      OpKeepsByte(a, ops[0], p, off);
      BytesSurvive(Apply(a, ops[0]), ops[1..], p, off);
    }
  }

  /** After any calls, with break growth by others in between: the chain in memory is the
      ascending list of blocks, it ends, and live regions overlap neither each other nor
      any header. */
  lemma EveryRun(a: Arena, ops: seq<Op>)
    requires Valid(a) && IsRun(a, ops)
    ensures var e := Exec(a, ops);
      && (forall k: nat | k <= |e.blocks| :: Walk(e.mem, e.head, k) == AddrAt(e.blocks, k))
      && (forall p: nat, q: nat | Live(e, p) && Live(e, q) && p != q ::
            p + SizeOf(e, p) <= q - HEADER || q + SizeOf(e, q) <= p - HEADER)
      && (forall p: nat, i | Live(e, p) && 0 <= i < |e.blocks| && e.blocks[i].User() != p ::
            p + SizeOf(e, p) <= e.blocks[i].addr || e.blocks[i].User() <= p)
  {
    var e := Exec(a, ops);
    forall k: nat | k <= |e.blocks|
      ensures Walk(e.mem, e.head, k) == AddrAt(e.blocks, k)
    {
      WalkVisits(e, 0, k);
    }
    forall p: nat, q: nat | Live(e, p) && Live(e, q) && p != q
      ensures p + SizeOf(e, p) <= q - HEADER || q + SizeOf(e, q) <= p - HEADER
    {
      LiveRegionsDisjoint(e, p, q);
    }
    forall p: nat, i | Live(e, p) && 0 <= i < |e.blocks| && e.blocks[i].User() != p
      ensures p + SizeOf(e, p) <= e.blocks[i].addr || e.blocks[i].User() <= p
    {
      Apart(e, Owner(e, p), i);
    }
  }

  /** So what an owner writes is what it reads back later. */
  lemma WrittenByteReadsBack(a: Arena, p: nat, off: nat, v: int, ops: seq<Op>)
    requires Valid(a) && Legal(a, Store(p, off, v))
    requires Valid(Apply(a, Store(p, off, v))) && IsRun(Apply(a, Store(p, off, v)), ops)
    requires forall i | 0 <= i < |ops| :: !Touches(ops[i], p, off)
    ensures var e := Exec(Apply(a, Store(p, off, v)), ops);
      Live(e, p) && p + off < |e.mem| && e.mem[p + off] == v
  {
    var a' := Apply(a, Store(p, off, v));
    OpKeepsOwner(a, Store(p, off, v), p);
    BytesSurvive(a', ops, p, off);
  }

  // ----- Space -----

  function LiveCount(bs: seq<Block>): (n: nat)
    ensures n <= |bs|
  {
    if |bs| == 0 then 0
    else LiveCount(bs[..|bs| - 1]) + if bs[|bs| - 1].free then 0 else 1
  }

  lemma {:induction false} CountUpdate(bs: seq<Block>, i: nat, b: Block)
    requires i < |bs|
    ensures LiveCount(bs[i := b]) ==
      LiveCount(bs) - (if bs[i].free then 0 else 1) + (if b.free then 0 else 1)
  {
    var n := |bs| - 1;
    if i < n {
      assert bs[i := b][..n] == bs[..n][i := b];
      CountUpdate(bs[..n], i, b);
    } else {
      assert bs[i := b][..n] == bs[..n];
    }
  }

  lemma {:induction false} CountAll(bs: seq<Block>)
    requires forall i | 0 <= i < |bs| :: !bs[i].free
    ensures LiveCount(bs) == |bs|
  {
    if |bs| != 0 {
      CountAll(bs[..|bs| - 1]);
    }
  }

  /** The most allocations alive at once, at any point of a run. */
  ghost function Peak(a: Arena, ops: seq<Op>): nat
    requires Valid(a) && IsRun(a, ops)
    decreases |ops|
  {
    var now := LiveCount(a.blocks);
    if |ops| == 0 then now
    else
      OpKeepsValid(a, ops[0]);
      var later := Peak(Apply(a, ops[0]), ops[1..]);
      if now < later then later else now
  }

  ghost predicate Uniform(bs: seq<Block>, z: nat) {
    forall i | 0 <= i < |bs| :: bs[i].size == z
  }

  lemma UniformAllocate(a: Arena, z: nat, granted: bool)
    requires Valid(a) && Uniform(a.blocks, z)
    ensures var bs := Malloc(a, z, granted).0.blocks;
      && Uniform(bs, z)
      && |bs| == if |a.blocks| < LiveCount(bs) then LiveCount(bs) else |a.blocks|
  {
    var i := FirstFit(a.blocks, z, 0);
    if i < |a.blocks| {
      CountUpdate(a.blocks, i, a.blocks[i].(free := false));
    } else {
      CountAll(a.blocks);
      assert (a.blocks + [Block(a.brk, z, false)])[..|a.blocks|] == a.blocks;
    }
  }

  lemma UniformStep(a: Arena, op: Op, z: nat)
    requires Valid(a) && Legal(a, op) && Uniform(a.blocks, z)
    requires op.Allocate? ==> op.size == z
    ensures var bs := Apply(a, op).blocks;
      && Uniform(bs, z)
      && |bs| == if |a.blocks| < LiveCount(bs) then LiveCount(bs) else |a.blocks|
  {
    if op.Allocate? {
      UniformAllocate(a, z, op.granted);
    } else if op.Release? && op.ptr != 0 {
      CountUpdate(a.blocks, Owner(a, op.ptr), a.blocks[Owner(a, op.ptr)].(free := true));
    }
  }

  /** With equal-sized requests the list is never longer than the peak demand: it has
      exactly as many blocks as were ever alive at the same time. */
  lemma {:induction false} BlocksArePeak(a: Arena, ops: seq<Op>, z: nat)
    requires Valid(a) && IsRun(a, ops) && Uniform(a.blocks, z)
    requires forall i | 0 <= i < |ops| && ops[i].Allocate? :: ops[i].size == z
    ensures |Exec(a, ops).blocks| ==
      if |a.blocks| < Peak(a, ops) then Peak(a, ops) else |a.blocks|
    ensures a.blocks == [] ==> |Exec(a, ops).blocks| == Peak(a, ops)
    decreases |ops|
  {
    if |ops| != 0 {
      OpKeepsValid(a, ops[0]);
      UniformStep(a, ops[0], z);
      BlocksArePeak(Apply(a, ops[0]), ops[1..], z);
    }
  }

  // ----- The program -----

  /** The process memory with the globals of the allocator; `blocks` is ghost. */
  class Heap {
    const mem: array<int>
    var head: nat
    var brk: nat
    ghost var blocks: seq<Block>

    ghost predicate Good()
      reads this, mem
    {
      Valid(Abs())
    }

    ghost function Abs(): Arena
      reads this, mem
    {
      Arena(mem[..], head, brk, blocks)
    }

    constructor (limit: nat, start: nat)
      requires 0 < start <= limit
      ensures Good() && fresh(mem) && mem.Length == limit && brk == start && blocks == []
    {
      mem := new int[limit](_ => 0);
      head, brk, blocks := 0, start, [];
    }

    /** Walks the list in memory for the first free block that is large enough. */
    method FindFreeBlock(size: nat) returns (current: int)
      requires Good()
      ensures current == AddrAt(blocks, FirstFit(blocks, size, 0))
    {
      current := head;
      ghost var i := 0;
      while current != 0
        invariant i <= |blocks| && current == AddrAt(blocks, i)
        invariant FirstFit(blocks, size, 0) == FirstFit(blocks, size, i)
        decreases |blocks| - i
      {
        assert Header(Abs(), i);
        if mem[current + FREE] != 0 && mem[current + SIZE] >= size {
          return;
        }
        current := mem[current + NEXT];
        i := i + 1;
      }
    }

    /** Asks the system for a header and `size` bytes and links them behind `last`.
        When the list was empty the caller still has to set `head`. */
    method RequestSpace(last: int, size: nat, granted: bool) returns (block: int)
      requires Good() && 0 < size
      requires last == if |blocks| == 0 then 0 else blocks[|blocks| - 1].addr
      modifies this`brk, this`blocks, mem
      ensures if granted && old(brk) + HEADER + size <= mem.Length
        then block == old(brk) && Abs().(head := Extend(old(Abs()), size).head) == Extend(old(Abs()), size)
        else block == 0 && Abs() == old(Abs())
    {
      if !granted || mem.Length < brk + HEADER + size {
        return 0;
      }
      block := brk;
      brk := brk + HEADER + size;
      mem[block + SIZE] := size;
      mem[block + FREE] := 0;
      mem[block + NEXT] := 0;
      if last != 0 {
        mem[last + NEXT] := block;
      }
      blocks := blocks + [Block(block, size, false)];
    }

    /** The inner loop of `my_malloc`: the end of a nonempty chain. */
    method FindLast() returns (last: int)
      requires Good() && head != 0
      ensures |blocks| > 0 && last == blocks[|blocks| - 1].addr
    {
      last := head;
      ghost var i := 0;
      assert Header(Abs(), i);
      while mem[last + NEXT] != 0
        invariant i < |blocks| && last == blocks[i].addr && Header(Abs(), i)
        decreases |blocks| - i
      {
        last := mem[last + NEXT];
        i := i + 1;
        assert Header(Abs(), i);
      }
    }

    /** Takes the first block that fits off the market. */
    method Reuse(block: int, size: nat)
      requires Good() && block != 0 && block == AddrAt(blocks, FirstFit(blocks, size, 0))
      modifies mem, this`blocks
      ensures Good() && Abs() == SetFree(old(Abs()), FirstFit(old(blocks), size, 0), false)
    {
      ghost var i := FirstFit(blocks, size, 0);
      SetFreeKeeps(Abs(), i, false);
      mem[block + FREE] := 0;
      blocks := blocks[i := blocks[i].(free := false)];
    }

    method MyMalloc(size: nat, granted: bool) returns (ptr: int)
      requires Good()
      modifies this, mem
      ensures Good() && ptr >= 0 && (Abs(), ptr) == Malloc(old(Abs()), size, granted)
    {
      OpKeepsValid(Abs(), Allocate(size, granted));
      var block;
      if size == 0 {
        return 0;
      }
      if head == 0 {
        block := RequestSpace(0, size, granted);
        if block == 0 {
          return 0;
        }
        head := block;
      } else {
        block := FindFreeBlock(size);
        if block == 0 {
          var last := FindLast();
          block := RequestSpace(last, size, granted);
          if block == 0 {
            return 0;
          }
        } else {
          Reuse(block, size);
        }
      }
      return block + HEADER;
    }

    method MyFree(ptr: nat)
      requires Good() && Legal(Abs(), Release(ptr))
      modifies mem, this`blocks
      ensures Good() && Abs() == Apply(old(Abs()), Release(ptr))
      ensures mem[..] == if ptr == 0 then old(mem[..]) else old(mem[..])[ptr - HEADER + FREE := 1]
      ensures ptr != 0 ==> !Live(Abs(), ptr)
    {
      FreeReleases(Abs(), ptr);
      OpKeepsValid(Abs(), Release(ptr));
      if ptr == 0 {
        return;
      }
      ghost var i := Owner(Abs(), ptr);
      var block := ptr - HEADER;
      mem[block + FREE] := 1;
      blocks := blocks[i := blocks[i].(free := true)];
    }

    /** An owner writes one of its bytes. */
    method StoreByte(ptr: nat, off: nat, v: int)
      requires Good() && Legal(Abs(), Store(ptr, off, v))
      modifies mem
      ensures Good() && Abs() == Apply(old(Abs()), Store(ptr, off, v))
      ensures mem[..] == old(mem[..])[ptr + off := v]
    {
      OpKeepsValid(Abs(), Store(ptr, off, v));
      mem[ptr + off] := v;
    }

    /** Other code in the process moves the break. */
    method ForeignSbrk(bytes: nat)
      requires Good() && Legal(Abs(), Foreign(bytes))
      modifies this`brk
      ensures Good() && Abs() == Apply(old(Abs()), Foreign(bytes)) && brk == old(brk) + bytes
    {
      OpKeepsValid(Abs(), Foreign(bytes));
      brk := brk + bytes;
    }
  }
}
