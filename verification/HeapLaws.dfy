/**
 Properties of every reachable heap: the invariant, that live blocks alone
 determine the whole list, and that allocation fails only when nothing fits.
 */
module HeapLaws {
  import opened Wrappers
  import opened Blocklist

  // ---- Coalescing.

  lemma {:induction false} CoalesceHead(bs: seq<Blk>)
    requires bs != []
    ensures Coalesce(bs) != [] && Coalesce(bs)[0].addr == bs[0].addr && Coalesce(bs)[0].free == bs[0].free
    decreases |bs|
  {
    if |bs| > 1 && bs[0].free && bs[1].free {
      CoalesceHead([Blk(bs[0].addr, bs[0].size + HEADER + bs[1].size, true)] + bs[2..]);
    }
  }

  lemma {:induction false} CoalesceTiles(bs: seq<Blk>, lo: nat, hi: nat)
    requires Tiles(bs, lo, hi)
    ensures Tiles(Coalesce(bs), lo, hi)
    decreases |bs|
  {
    if |bs| > 1 {
      if bs[0].free && bs[1].free {
        var merged := Blk(bs[0].addr, bs[0].size + HEADER + bs[1].size, true);
        assert bs[1..][1..] == bs[2..] && ([merged] + bs[2..])[1..] == bs[2..];
        CoalesceTiles([merged] + bs[2..], lo, hi);
      } else {
        CoalesceTiles(bs[1..], bs[0].End(), hi);
        assert ([bs[0]] + Coalesce(bs[1..]))[1..] == Coalesce(bs[1..]);
      }
    }
  }

  lemma {:induction false} CoalesceCoalesces(bs: seq<Blk>)
    ensures Coalesced(Coalesce(bs))
    decreases |bs|
  {
    if |bs| > 1 {
      if bs[0].free && bs[1].free {
        CoalesceCoalesces([Blk(bs[0].addr, bs[0].size + HEADER + bs[1].size, true)] + bs[2..]);
      } else {
        CoalesceCoalesces(bs[1..]);
        CoalesceHead(bs[1..]);
      }
    }
  }

  ghost predicate AllSized(bs: seq<Blk>) {
    forall i :: 0 <= i < |bs| ==> Sized(bs[i])
  }

  lemma {:induction false} CoalesceSized(bs: seq<Blk>)
    requires AllSized(bs)
    ensures AllSized(Coalesce(bs))
    decreases |bs|
  {
    if |bs| > 1 {
      if bs[0].free && bs[1].free {
        CoalesceSized([Blk(bs[0].addr, bs[0].size + HEADER + bs[1].size, true)] + bs[2..]);
      } else {
        CoalesceSized(bs[1..]);
      }
    }
  }

  lemma LiveCons(b: Blk, bs: seq<Blk>)
    ensures LiveBlocks([b] + bs) == (if b.free then {} else {b}) + LiveBlocks(bs)
  {
  }

  lemma {:induction false} CoalesceLive(bs: seq<Blk>)
    ensures LiveBlocks(Coalesce(bs)) == LiveBlocks(bs)
    decreases |bs|
  {
    if |bs| > 1 {
      if bs[0].free && bs[1].free {
        var merged := Blk(bs[0].addr, bs[0].size + HEADER + bs[1].size, true);
        CoalesceLive([merged] + bs[2..]);
        LiveCons(merged, bs[2..]);
        LiveCons(bs[1], bs[2..]);
        LiveCons(bs[0], bs[1..]);
        assert [bs[1]] + bs[2..] == bs[1..] && [bs[0]] + bs[1..] == bs;
      } else {
        CoalesceLive(bs[1..]);
        LiveCons(bs[0], bs[1..]);
        LiveCons(bs[0], Coalesce(bs[1..]));
        assert [bs[0]] + bs[1..] == bs;
      }
    }
  }

  // ---- Freeing.

  lemma {:induction false} FreeKeepsHeapOk(bs: seq<Blk>, ptr: nat)
    requires HeapOk(bs) && ptr >= HEADER
    ensures HeapOk(Free(bs, ptr))
  {
    var marked := Mark(bs, ptr - HEADER);
    MarkTiles(bs, ptr - HEADER, 0, ARENA);
    CoalesceTiles(marked, 0, ARENA);
    CoalesceCoalesces(marked);
    assert AllSized(marked);
    CoalesceSized(marked);
  }

  /** The live block of a pointer. */
  ghost function BlockOf(bs: seq<Blk>, ptr: nat): (b: Blk)
    requires Live(bs, ptr)
    ensures b in bs && !b.free && b.Payload() == ptr
  {
    var i :| 0 <= i < |bs| && !bs[i].free && bs[i].Payload() == ptr;
    bs[i]
  }

  lemma MarkLive(bs: seq<Blk>, ptr: nat, b: Blk)
    requires Tiles(bs, 0, ARENA) && b in LiveBlocks(bs) && b.Payload() == ptr
    ensures LiveBlocks(Mark(bs, ptr - HEADER)) == LiveBlocks(bs) - {b}
  {
    hide Tiles;
    TilesOrder(bs, 0, ARENA);
    var marked := Mark(bs, ptr - HEADER);
    forall c | c in LiveBlocks(marked) ensures c in LiveBlocks(bs) - {b} {
      var i :| 0 <= i < |bs| && marked[i] == c;
      assert bs[i] == c && c.addr != ptr - HEADER;
    }
    var j :| 0 <= j < |bs| && bs[j] == b;
    forall c | c in LiveBlocks(bs) - {b} ensures c in LiveBlocks(marked) {
      var i :| 0 <= i < |bs| && bs[i] == c;
      assert i != j && marked[i] == c;
    }
  }

  /** Freeing removes exactly the freed block from the live ones. */
  lemma {:induction false} FreeResult(bs: seq<Blk>, ptr: nat)
    requires Tiles(bs, 0, ARENA) && Live(bs, ptr)
    ensures LiveBlocks(Free(bs, ptr)) == LiveBlocks(bs) - {BlockOf(bs, ptr)}
  {
    hide Tiles, Coalesce, Mark;
    MarkLive(bs, ptr, BlockOf(bs, ptr));
    CoalesceLive(Mark(bs, ptr - HEADER));
  }

  // ---- The live blocks determine the heap.

  lemma {:induction false} LiveDetermines(a: seq<Blk>, b: seq<Blk>, lo: nat, hi: nat)
    requires Tiles(a, lo, hi) && Tiles(b, lo, hi) && Coalesced(a) && Coalesced(b)
    requires LiveBlocks(a) == LiveBlocks(b)
    ensures a == b
    decreases |a|
  {
    TilesOrder(a, lo, hi);
    TilesOrder(b, lo, hi);
    if a != [] && b != [] {
      HeadsEqual(a, b, lo, hi);
      var x, as', bs := a[0], a[1..], b[1..];
      LiveRest(a, lo, hi);
      LiveRest(b, lo, hi);
      forall i | 0 <= i < |as'| - 1 ensures !(as'[i].free && as'[i + 1].free) {
        assert as'[i] == a[i + 1] && as'[i + 1] == a[i + 2];
      }
      forall i | 0 <= i < |bs| - 1 ensures !(bs[i].free && bs[i + 1].free) {
        assert bs[i] == b[i + 1] && bs[i + 1] == b[i + 2];
      }
      LiveDetermines(as', bs, x.End(), hi);
      assert a == [x] + as' && b == [x] + bs;
    }
  }

  lemma LiveRest(a: seq<Blk>, lo: nat, hi: nat)
    requires Tiles(a, lo, hi) && a != []
    ensures LiveBlocks(a[1..]) == LiveBlocks(a) - {a[0]}
  {
    TilesOrder(a, lo, hi);
    assert a == [a[0]] + a[1..];
    LiveCons(a[0], a[1..]);
  }

  /** A live block of a at some address is a block of b there. */
  lemma SharedBlock(a: seq<Blk>, b: seq<Blk>, i: nat) returns (j: nat)
    requires i < |a| && !a[i].free && LiveBlocks(a) == LiveBlocks(b)
    ensures j < |b| && b[j] == a[i]
  {
    assert a[i] in LiveBlocks(b);
    j :| 0 <= j < |b| && b[j] == a[i];
  }

  lemma HeadsEqual(a: seq<Blk>, b: seq<Blk>, lo: nat, hi: nat)
    requires Tiles(a, lo, hi) && Tiles(b, lo, hi) && Coalesced(a) && Coalesced(b)
    requires LiveBlocks(a) == LiveBlocks(b) && a != [] && b != []
    ensures a[0] == b[0]
  {
    TilesOrder(a, lo, hi);
    TilesOrder(b, lo, hi);
    if !a[0].free {
      var j := SharedBlock(a, b, 0);
      assert j == 0;
    } else if !b[0].free {
      var j := SharedBlock(b, a, 0);
    } else {
      NoShorter(a, b, lo, hi);
      NoShorter(b, a, lo, hi);
    }
  }

  /** Of two free blocks at the same address, neither ends first: a live one would start inside the other. */
  lemma NoShorter(a: seq<Blk>, b: seq<Blk>, lo: nat, hi: nat)
    requires Tiles(a, lo, hi) && Tiles(b, lo, hi) && Coalesced(a)
    requires LiveBlocks(a) == LiveBlocks(b) && a != [] && b != [] && a[0].free && b[0].free
    ensures a[0].End() >= b[0].End()
  {
    TilesOrder(a, lo, hi);
    TilesOrder(b, lo, hi);
    TilesNext(a, lo, hi, 0);
    if a[0].End() < b[0].End() {
      var j := SharedBlock(a, b, 1);
      assert false;
    }
  }

  // ---- Order of frees, and freeing everything.

  lemma {:induction false} FreesCommute(bs: seq<Blk>, p: nat, q: nat)
    requires HeapOk(bs) && Live(bs, p) && Live(bs, q) && p != q
    ensures Live(Free(bs, p), q) && Live(Free(bs, q), p)
    ensures Free(Free(bs, p), q) == Free(Free(bs, q), p)
  {
    OtherStaysLive(bs, p, q);
    OtherStaysLive(bs, q, p);
    FreeKeepsHeapOk(bs, p);
    FreeKeepsHeapOk(bs, q);
    FreeKeepsHeapOk(Free(bs, p), q);
    FreeKeepsHeapOk(Free(bs, q), p);
    FreeResult(bs, p);
    FreeResult(bs, q);
    FreeResult(Free(bs, p), q);
    FreeResult(Free(bs, q), p);
    LiveDetermines(Free(Free(bs, p), q), Free(Free(bs, q), p), 0, ARENA);
  }

  lemma OtherStaysLive(bs: seq<Blk>, p: nat, q: nat)
    requires HeapOk(bs) && Live(bs, p) && Live(bs, q) && p != q
    ensures Live(Free(bs, p), q) && BlockOf(Free(bs, p), q) == BlockOf(bs, q)
  {
    FreeResult(bs, p);
    FreeKeepsHeapOk(bs, p);
    var b, after := BlockOf(bs, q), Free(bs, p);
    assert b in LiveBlocks(after);
    var i :| 0 <= i < |after| && after[i] == b;
    OneBlockPerPointer(after, BlockOf(after, q), b);
  }

  lemma OneBlockPerPointer(bs: seq<Blk>, b: Blk, c: Blk)
    requires Tiles(bs, 0, ARENA) && b in bs && c in bs && b.Payload() == c.Payload()
    ensures b == c
  {
    TilesOrder(bs, 0, ARENA);
    var i :| 0 <= i < |bs| && bs[i] == b;
    var j :| 0 <= j < |bs| && bs[j] == c;
    assert i == j;
  }

  function FreeAll(bs: seq<Blk>, ptrs: seq<nat>): seq<Blk>
    requires forall i :: 0 <= i < |ptrs| ==> ptrs[i] >= HEADER
    decreases |ptrs|
  {
    if ptrs == [] then bs else FreeAll(Free(bs, ptrs[0]), ptrs[1..])
  }

  ghost predicate EnumeratesLive(bs: seq<Blk>, ptrs: seq<nat>) {
    && (forall i, j :: 0 <= i < j < |ptrs| ==> ptrs[i] != ptrs[j])
    && (forall p :: p in ptrs <==> Live(bs, p))
  }

  lemma LiveIsLive(bs: seq<Blk>, b: Blk)
    ensures b in LiveBlocks(bs) ==> Live(bs, b.Payload())
  {
  }

  /** Freeing every live pointer, in any order, restores the single initial block. */
  lemma {:induction false} FreeAllRestores(bs: seq<Blk>, ptrs: seq<nat>)
    requires HeapOk(bs) && EnumeratesLive(bs, ptrs)
    ensures forall i :: 0 <= i < |ptrs| ==> ptrs[i] >= HEADER
    ensures FreeAll(bs, ptrs) == INITIAL
    decreases |ptrs|
  {
    forall i | 0 <= i < |ptrs| ensures ptrs[i] >= HEADER {
      assert Live(bs, ptrs[i]);
    }
    if ptrs == [] {
      InitialHeapOk();
      forall b ensures b !in LiveBlocks(bs) {
        LiveIsLive(bs, b);
      }
      assert LiveBlocks(bs) == LiveBlocks(INITIAL) == {};
      LiveDetermines(bs, INITIAL, 0, ARENA);
    } else {
      var p, rest := ptrs[0], ptrs[1..];
      assert p in ptrs;
      FreeKeepsHeapOk(bs, p);
      forall q ensures q in rest <==> Live(Free(bs, p), q) {
        if q in rest {
          OtherStaysLive(bs, p, q);
        }
        if Live(Free(bs, p), q) {
          StillLive(bs, p, q);
          assert q in ptrs;
        }
      }
      FreeAllRestores(Free(bs, p), rest);
    }
  }

  lemma StillLive(bs: seq<Blk>, p: nat, q: nat)
    requires HeapOk(bs) && Live(bs, p) && Live(Free(bs, p), q)
    ensures Live(bs, q) && q != p
  {
    FreeResult(bs, p);
    var b := BlockOf(Free(bs, p), q);
    assert b in LiveBlocks(Free(bs, p));
    assert b in LiveBlocks(bs);
    var i :| 0 <= i < |bs| && bs[i] == b;
    if q == p {
      OneBlockPerPointer(bs, b, BlockOf(bs, p));
    }
  }

  lemma InitialHeapOk()
    ensures HeapOk(INITIAL) && LiveBlocks(INITIAL) == {}
  {
    assert INITIAL[1..] == [];
  }

  // ---- When allocation fails.

  /** A stretch of the arena that no live block touches. */
  ghost predicate Vacant(bs: seq<Blk>, lo: nat, len: nat) {
    lo + len <= ARENA && forall b :: b in LiveBlocks(bs) ==> b.End() <= lo || lo + len <= b.addr
  }

  ghost predicate Full(bs: seq<Blk>, len: nat) {
    forall lo: nat :: !Vacant(bs, lo, len)
  }

  /** Allocation returns null exactly when no vacant stretch holds a header and the rounded request. */
  lemma {:induction false} AllocFailsOnlyWhenFull(bs: seq<Blk>, requested: nat)
    requires HeapOk(bs)
    ensures Alloc(bs, requested).0.None? <==> Full(bs, HEADER + Needed(requested))
  {
    var needed := Needed(requested);
    var i := FirstFit(bs, needed);
    if i < |bs| {
      FreeBlockVacant(bs, i, needed);
    } else {
      var len := HEADER + needed;
      if lo: nat :| Vacant(bs, lo, len) {
        var j := VacantInFreeBlock(bs, lo, len);
        assert false;
      }
    }
  }

  lemma FreeBlockVacant(bs: seq<Blk>, i: nat, needed: nat)
    requires Tiles(bs, 0, ARENA) && i < |bs| && bs[i].free && bs[i].size >= needed
    ensures Vacant(bs, bs[i].addr, HEADER + needed)
  {
    TilesOrder(bs, 0, ARENA);
    forall b | b in LiveBlocks(bs) ensures b.End() <= bs[i].addr || bs[i].addr + HEADER + needed <= b.addr {
      var j :| 0 <= j < |bs| && bs[j] == b;
      assert j != i;
    }
  }

  /** A vacant stretch lies inside one free block. */
  lemma VacantInFreeBlock(bs: seq<Blk>, lo: nat, len: nat) returns (i: nat)
    requires Tiles(bs, 0, ARENA) && Coalesced(bs) && Vacant(bs, lo, len) && len > 0
    ensures i < |bs| && bs[i].free && bs[i].addr <= lo && lo + len <= bs[i].End()
  {
    TilesOrder(bs, 0, ARENA);
    i := Containing(bs, 0, ARENA, lo);
    var c := bs[i];
    assert c in bs;
    TilesNext(bs, 0, ARENA, i);
    if i + 1 < |bs| {
      assert bs[i + 1] in LiveBlocks(bs);
    }
  }

  lemma {:induction false} Containing(bs: seq<Blk>, lo: nat, hi: nat, at: nat) returns (i: nat)
    requires Tiles(bs, lo, hi) && lo <= at < hi
    ensures i < |bs| && bs[i].addr <= at < bs[i].End()
    decreases |bs|
  {
    if at < bs[0].End() {
      i := 0;
    } else {
      i := Containing(bs[1..], bs[0].End(), hi, at);
      i := i + 1;
    }
  }

  // ---- Runs.

  datatype Op = Malloc(requested: nat) | Release(ptr: nat)

  /** What callers owe the allocator: requests that do not wrap, and only live pointers released. */
  ghost predicate Legal(op: Op, bs: seq<Blk>) {
    match op
    case Malloc(n) => Fits(n)
    case Release(p) => Live(bs, p)
  }

  function Apply(op: Op, bs: seq<Blk>): seq<Blk> {
    match op
    case Malloc(n) => Alloc(bs, n).1
    case Release(p) => if p >= HEADER then Free(bs, p) else bs
  }

  function Exec(ops: seq<Op>, bs: seq<Blk>): seq<Blk> {
    if ops == [] then bs else Exec(ops[1..], Apply(ops[0], bs))
  }

  ghost predicate LegalRun(ops: seq<Op>, bs: seq<Blk>) {
    ops == [] || (Legal(ops[0], bs) && LegalRun(ops[1..], Apply(ops[0], bs)))
  }

  /** Every heap that legal calls reach tiles the arena, is coalesced, and has 8-aligned blocks of at least 16 bytes. */
  lemma {:induction false} ReachableHeapsOk(ops: seq<Op>, bs: seq<Blk>)
    requires HeapOk(bs) && LegalRun(ops, bs)
    ensures HeapOk(Exec(ops, bs))
    decreases |ops|
  {
    if ops != [] {
      match ops[0] {
        case Malloc(n) => AllocKeepsHeapOk(bs, n);
        case Release(p) => FreeKeepsHeapOk(bs, p);
      }
      ReachableHeapsOk(ops[1..], Apply(ops[0], bs));
    }
  }

  lemma AlignedPayload(b: Blk)
    requires Sized(b)
    ensures b.Payload() % 8 == 0
  {
  }

  lemma BlocksApart(bs: seq<Blk>, i: nat, j: nat)
    requires Tiles(bs, 0, ARENA) && i < |bs| && j < |bs|
    ensures bs[i].End() <= ARENA
    ensures i != j ==> bs[i].End() <= bs[j].addr || bs[j].End() <= bs[i].addr
  {
    hide Tiles;
    TilesOrder(bs, 0, ARENA);
  }

  /** Payloads of different live blocks are disjoint, inside the arena, and 8-byte aligned. */
  lemma {:induction false} LivePayloadsDisjoint(bs: seq<Blk>, p: nat, q: nat)
    requires HeapOk(bs) && Live(bs, p) && Live(bs, q) && p != q
    ensures var a, b := BlockOf(bs, p), BlockOf(bs, q);
      p + a.size <= ARENA && p % 8 == 0 && (p + a.size <= q - HEADER || q + b.size <= p - HEADER)
  {
    hide Tiles, Coalesced, Live, Sized, BlockOf;
    var a, b := BlockOf(bs, p), BlockOf(bs, q);
    var i :| 0 <= i < |bs| && bs[i] == a;
    var j :| 0 <= j < |bs| && bs[j] == b;
    assert Sized(bs[i]);
    AlignedPayload(bs[i]);
    BlocksApart(bs, i, j);
  }

  // ---- Claims that the code does not meet.

  /**
   The first payload of every reachable heap is 24 bytes into a 16-aligned arena:
   it is never 16-byte aligned, and the initial block's size is not a multiple of 16.
   */
  lemma PayloadsAreNotSixteenAligned(bs: seq<Blk>)
    requires HeapOk(bs)
    ensures bs != [] && bs[0].Payload() == HEADER && bs[0].Payload() % 16 != 0
    ensures INITIAL[0].size % 16 != 0
  {
  }

  /** A returned pointer is 16-byte aligned exactly when the first block that fits lies 8 past a multiple of 16. */
  lemma {:induction false} PointerAlignedIff(bs: seq<Blk>, requested: nat)
    requires HeapOk(bs) && Alloc(bs, requested).0.Some?
    ensures Alloc(bs, requested).0.value % 16 == 0 <==> bs[FirstFit(bs, Needed(requested))].addr % 16 == 8
  {
    hide Needed, Tiles, Carve;
    var b := bs[FirstFit(bs, Needed(requested))];
    assert Sized(b);
  }

  /**
   A request too close to 2^64 rounds to zero. Any heap with a free block then
   grants the first one: all of it if it is too small to split, else no bytes at all.
   */
  lemma {:induction false} WrappedRequestGrantsNothing(bs: seq<Blk>, requested: nat)
    requires HeapOk(bs) && WORD - 16 < requested < WORD && exists i :: 0 <= i < |bs| && bs[i].free
    ensures Needed(requested) == 0 && Alloc(bs, requested).0.Some?
    ensures var b := bs[FirstFit(bs, 0)];
      && b.free && Alloc(bs, requested).0 == Some(b.Payload())
      && Taken(bs, requested).size == if b.size > HEADER + MIN_ALLOC then 0 else b.size
    ensures Taken(bs, requested).size < requested
  {
    assert Needed(requested) == 0;
    hide Needed, Tiles;
    var k :| 0 <= k < |bs| && bs[k].free;
    assert FirstFit(bs, 0) <= k;
  }

  /** A granted block is as large as the request exactly when rounding the request does not wrap. */
  lemma {:induction false} GrantedEnoughIffFits(bs: seq<Blk>, requested: nat)
    requires HeapOk(bs) && requested < WORD && Alloc(bs, requested).0.Some?
    ensures Taken(bs, requested).size >= requested <==> Fits(requested)
  {
    AllocResult(bs, requested);
    TilesOrder(bs, 0, ARENA);
    if Fits(requested) {
      NeededFacts(requested);
    }
  }
}
