/**
 The arena as a list of blocks in address order: what first-fit allocation with
 splitting, and freeing with forward coalescing, do to it.
 */
module Blocklist {
  import opened Wrappers

  const ARENA: nat := 1048576
  const HEADER: nat := 24
  const MIN_ALLOC: nat := 16
  const WORD: nat := 0x1_0000_0000_0000_0000

  /** A block: header address, usable size, availability. */
  datatype Blk = Blk(addr: nat, size: nat, free: bool) {
    function Payload(): nat { addr + HEADER }

    function End(): nat { addr + HEADER + size }
  }

  const INITIAL: seq<Blk> := [Blk(0, ARENA - HEADER, true)]

  /** Rounding up to 16 in 64-bit unsigned arithmetic. */
  function AlignUp(n: nat): nat {
    (n + 15) % WORD / 16 * 16
  }

  /** The usable size an allocation looks for. */
  function Needed(requested: nat): nat {
    AlignUp(if requested == 0 then MIN_ALLOC else requested)
  }

  /** Requests that rounding does not wrap. */
  predicate Fits(requested: nat) { requested <= WORD - 16 }

  // ---- Allocation.

  /** The first free block of at least this size, or the length of the list. */
  function FirstFit(bs: seq<Blk>, needed: nat): (i: nat)
    ensures i <= |bs|
    ensures i < |bs| ==> bs[i].free && bs[i].size >= needed
    ensures forall j :: 0 <= j < i ==> !(bs[j].free && bs[j].size >= needed)
  {
    if bs == [] then 0
    else if bs[0].free && bs[0].size >= needed then 0
    else 1 + FirstFit(bs[1..], needed)
  }

  /** The block taken, and the rest of it when that is big enough for another block. */
  function Carve(b: Blk, needed: nat): seq<Blk>
    requires needed <= b.size
  {
    if b.size - needed > HEADER + MIN_ALLOC then
      [Blk(b.addr, needed, false), Blk(b.addr + HEADER + needed, b.size - needed - HEADER, true)]
    else [Blk(b.addr, b.size, false)]
  }

  function Alloc(bs: seq<Blk>, requested: nat): (Option<nat>, seq<Blk>) {
    var needed := Needed(requested);
    var i := FirstFit(bs, needed);
    if i == |bs| then (None, bs)
    else (Some(bs[i].Payload()), bs[..i] + Carve(bs[i], needed) + bs[i + 1..])
  }

  // ---- Freeing.

  function Mark(bs: seq<Blk>, addr: nat): (r: seq<Blk>)
    ensures |r| == |bs|
  {
    seq(|bs|, i requires 0 <= i < |bs| => if bs[i].addr == addr then bs[i].(free := true) else bs[i])
  }

  /** One forward pass that absorbs every free successor of a free block. */
  function Coalesce(bs: seq<Blk>): seq<Blk>
    decreases |bs|
  {
    if |bs| <= 1 then bs
    else if bs[0].free && bs[1].free then
      Coalesce([Blk(bs[0].addr, bs[0].size + HEADER + bs[1].size, true)] + bs[2..])
    else [bs[0]] + Coalesce(bs[1..])
  }

  function Free(bs: seq<Blk>, ptr: nat): seq<Blk>
    requires ptr >= HEADER
  {
    Coalesce(Mark(bs, ptr - HEADER))
  }

  // ---- The heap invariant.

  /** The blocks cover [lo, hi) exactly, in order. */
  predicate Tiles(bs: seq<Blk>, lo: nat, hi: nat) {
    if bs == [] then lo == hi
    else bs[0].addr == lo && bs[0].End() <= hi && Tiles(bs[1..], bs[0].End(), hi)
  }

  /** No two neighbours are both free. */
  predicate Coalesced(bs: seq<Blk>) {
    forall i :: 0 <= i < |bs| - 1 ==> !(bs[i].free && bs[i + 1].free)
  }

  predicate Sized(b: Blk) { b.size >= MIN_ALLOC && b.size % 8 == 0 && b.addr % 8 == 0 }

  predicate HeapOk(bs: seq<Blk>) {
    && Tiles(bs, 0, ARENA) && Coalesced(bs)
    && (forall i :: 0 <= i < |bs| ==> Sized(bs[i]))
  }

  /** The pointer of a block that is in use. */
  predicate Live(bs: seq<Blk>, ptr: nat) {
    exists i :: 0 <= i < |bs| && !bs[i].free && bs[i].Payload() == ptr
  }

  function LiveBlocks(bs: seq<Blk>): set<Blk> {
    set b | b in bs && !b.free
  }

  // ---- Tilings.

  lemma {:induction false} TilesSplit(bs: seq<Blk>, lo: nat, hi: nat, i: nat)
    requires Tiles(bs, lo, hi) && i <= |bs|
    ensures var mid := if i == |bs| then hi else bs[i].addr;
      lo <= mid <= hi && Tiles(bs[..i], lo, mid) && Tiles(bs[i..], mid, hi)
    decreases |bs|
  {
    if i > 0 {
      TilesSplit(bs[1..], bs[0].End(), hi, i - 1);
      assert bs[1..][..i - 1] == bs[..i][1..] && bs[1..][i - 1..] == bs[i..];
    } else {
      assert bs[..0] == [] && bs[0..] == bs;
      if bs != [] { TilesOrder(bs, lo, hi); }
    }
  }

  lemma {:induction false} TilesJoin(as': seq<Blk>, bs: seq<Blk>, lo: nat, mid: nat, hi: nat)
    requires Tiles(as', lo, mid) && Tiles(bs, mid, hi) && mid <= hi
    ensures Tiles(as' + bs, lo, hi)
    decreases |as'|
  {
    if as' == [] {
      assert as' + bs == bs;
    } else {
      TilesOrder(as', lo, mid);
      TilesJoin(as'[1..], bs, as'[0].End(), mid, hi);
      assert (as' + bs)[1..] == as'[1..] + bs;
    }
  }

  /** In a tiling, addresses strictly increase and blocks neither overlap nor leave the interval. */
  lemma {:induction false} TilesOrder(bs: seq<Blk>, lo: nat, hi: nat)
    requires Tiles(bs, lo, hi)
    ensures lo <= hi
    ensures forall i :: 0 <= i < |bs| ==> lo <= bs[i].addr && bs[i].End() <= hi
    ensures forall i, j :: 0 <= i < j < |bs| ==> bs[i].End() <= bs[j].addr
    decreases |bs|
  {
    if bs != [] {
      TilesOrder(bs[1..], bs[0].End(), hi);
      forall i | 0 < i < |bs| ensures bs[0].End() <= bs[i].addr && bs[i].End() <= hi {
        assert bs[i] == bs[1..][i - 1];
      }
      forall i, j | 0 < i < j < |bs| ensures bs[i].End() <= bs[j].addr {
        assert bs[i] == bs[1..][i - 1] && bs[j] == bs[1..][j - 1];
      }
    }
  }

  /** The next block starts where this one ends. */
  lemma {:induction false} TilesNext(bs: seq<Blk>, lo: nat, hi: nat, i: nat)
    requires Tiles(bs, lo, hi) && i < |bs|
    ensures bs[i].End() == if i + 1 < |bs| then bs[i + 1].addr else hi
    decreases |bs|
  {
    if i > 0 {
      TilesNext(bs[1..], bs[0].End(), hi, i - 1);
    }
  }

  // ---- The operations in numbers.

  /** One free block of 1048552 bytes behind a header of 24, in a megabyte. */
  lemma Sizes()
    ensures ARENA == 1048576 && HEADER == 24 && MIN_ALLOC == 16 && WORD == 18446744073709551616
    ensures INITIAL == [Blk(0, 1048552, true)]
  {
  }

  /** A request is rounded up to a multiple of 16, nothing to 16, and the last fifteen requests of the 64-bit range to nothing. */
  lemma NeededIs(requested: nat)
    requires requested < 18446744073709551616
    ensures requested == 0 ==> Needed(requested) == 16
    ensures 0 < requested <= 18446744073709551600 ==>
      Needed(requested) % 16 == 0 && requested <= Needed(requested) < requested + 16
    ensures requested > 18446744073709551600 ==> Needed(requested) == 0
    ensures Fits(requested) <==> Needed(requested) >= requested
  {
    if Fits(requested) { AlignUpFacts(requested); }
  }

  /** The first free block that is large enough is taken: whole, unless more than 40 bytes are left over, which become a free block. */
  lemma {:induction false} AllocIs(bs: seq<Blk>, requested: nat, k: nat)
    requires k <= |bs| && forall j :: 0 <= j < k ==> !(bs[j].free && bs[j].size >= Needed(requested))
    requires k < |bs| ==> bs[k].free && bs[k].size >= Needed(requested)
    ensures var n := Needed(requested);
      Alloc(bs, requested) ==
      if k == |bs| then (None, bs)
      else if bs[k].size > n + 40 then
        (Some(bs[k].addr + 24),
         bs[..k] + [Blk(bs[k].addr, n, false), Blk(bs[k].addr + 24 + n, bs[k].size - n - 24, true)] + bs[k + 1..])
      else (Some(bs[k].addr + 24), bs[..k] + [Blk(bs[k].addr, bs[k].size, false)] + bs[k + 1..])
  {
    hide FirstFit, Needed;
  }

  // ---- Allocation keeps the invariant.

  lemma AlignUpFacts(n: nat)
    requires Fits(n)
    ensures n <= AlignUp(n) < n + 16 && AlignUp(n) % 16 == 0 && (n > 0 ==> AlignUp(n) >= 16)
  {
  }

  lemma NeededFacts(requested: nat)
    requires Fits(requested)
    ensures requested <= Needed(requested) && Needed(requested) % 16 == 0 && Needed(requested) >= MIN_ALLOC
  {
    AlignUpFacts(if requested == 0 then MIN_ALLOC else requested);
  }

  lemma {:induction false} ReplaceTiles(bs: seq<Blk>, i: nat, mid: seq<Blk>)
    requires Tiles(bs, 0, ARENA) && i < |bs| && Tiles(mid, bs[i].addr, bs[i].End())
    ensures Tiles(bs[..i] + mid + bs[i + 1..], 0, ARENA)
  {
    TilesSplit(bs, 0, ARENA, i);
    assert bs[i..][1..] == bs[i + 1..] && bs[i..][0] == bs[i];
    TilesOrder(bs[i + 1..], bs[i].End(), ARENA);
    TilesJoin(mid, bs[i + 1..], bs[i].addr, bs[i].End(), ARENA);
    TilesJoin(bs[..i], mid + bs[i + 1..], 0, bs[i].addr, ARENA);
    assert bs[..i] + (mid + bs[i + 1..]) == bs[..i] + mid + bs[i + 1..];
  }

  lemma CarveFacts(b: Blk, needed: nat)
    requires Sized(b) && needed <= b.size && needed % 16 == 0 && needed >= MIN_ALLOC
    ensures Tiles(Carve(b, needed), b.addr, b.End()) && forall k :: 0 <= k < |Carve(b, needed)| ==> Sized(Carve(b, needed)[k])
  {
    var mid := Carve(b, needed);
    assert mid[1..] == [] || mid[1..][1..] == [];
  }

  lemma {:induction false} AllocKeepsHeapOk(bs: seq<Blk>, requested: nat)
    requires HeapOk(bs) && Fits(requested)
    ensures HeapOk(Alloc(bs, requested).1)
  {
    hide Needed, Fits, Tiles, Carve;
    var needed := Needed(requested);
    NeededFacts(requested);
    var i := FirstFit(bs, needed);
    if i < |bs| {
      var mid := Carve(bs[i], needed);
      CarveFacts(bs[i], needed);
      ReplaceTiles(bs, i, mid);
      CarveCoalesced(bs, i, needed);
    }
  }

  lemma CarveCoalesced(bs: seq<Blk>, i: nat, needed: nat)
    requires Coalesced(bs) && i < |bs| && bs[i].free && needed <= bs[i].size
    ensures Coalesced(bs[..i] + Carve(bs[i], needed) + bs[i + 1..])
  {
    var mid := Carve(bs[i], needed);
    var r := bs[..i] + mid + bs[i + 1..];
    forall j | 0 <= j < |r| - 1 ensures !(r[j].free && r[j + 1].free) {
      if j + 1 < i {
        assert r[j] == bs[j] && r[j + 1] == bs[j + 1];
      } else if j >= i + |mid| {
        assert r[j] == bs[j - |mid| + 1] && r[j + 1] == bs[j - |mid| + 2];
      } else if j == i + |mid| - 1 && i + 1 < |bs| {
        assert r[j + 1] == bs[i + 1];
      }
    }
  }

  /** The block that a successful allocation hands out. */
  function Taken(bs: seq<Blk>, requested: nat): Blk
    requires Alloc(bs, requested).0.Some?
  {
    var needed := Needed(requested);
    Carve(bs[FirstFit(bs, needed)], needed)[0]
  }

  /** A successful allocation adds one live block, at the returned pointer, large enough and at most 40 bytes too large. */
  lemma {:induction false} AllocResult(bs: seq<Blk>, requested: nat)
    requires Tiles(bs, 0, ARENA) && Alloc(bs, requested).0.Some?
    ensures var (p, bs') := Alloc(bs, requested);
      var b := Taken(bs, requested);
      && b.Payload() == p.value && !b.free
      && Needed(requested) <= b.size <= Needed(requested) + HEADER + MIN_ALLOC
      && b !in LiveBlocks(bs) && LiveBlocks(bs') == LiveBlocks(bs) + {b}
  {
    hide Needed, Tiles, LiveBlocks;
    var i := FirstFit(bs, Needed(requested));
    var mid := Carve(bs[i], Needed(requested));
    FreeIsNotLive(bs, i, mid[0]);
    SpliceLive(bs, i, mid);
  }

  /** At a free block's address no block is live. */
  lemma FreeIsNotLive(bs: seq<Blk>, i: nat, b: Blk)
    requires Tiles(bs, 0, ARENA) && i < |bs| && bs[i].free && b.addr == bs[i].addr
    ensures b !in LiveBlocks(bs)
  {
    hide Tiles;
    TilesOrder(bs, 0, ARENA);
  }

  /** One live block, and free ones after it, in the place of a free block. */
  lemma SpliceLive(bs: seq<Blk>, i: nat, mid: seq<Blk>)
    requires i < |bs| && bs[i].free && mid != [] && !mid[0].free && forall j :: 0 < j < |mid| ==> mid[j].free
    ensures LiveBlocks(bs[..i] + mid + bs[i + 1..]) == LiveBlocks(bs) + {mid[0]}
  {
    var bs' := bs[..i] + mid + bs[i + 1..];
    assert bs'[i] == mid[0];
    forall c | c in LiveBlocks(bs) ensures c in LiveBlocks(bs') {
      var j :| 0 <= j < |bs| && bs[j] == c;
      assert if j < i then bs'[j] == c else bs'[j - 1 + |mid|] == c;
    }
  }

  lemma {:induction false} MarkTiles(bs: seq<Blk>, addr: nat, lo: nat, hi: nat)
    requires Tiles(bs, lo, hi)
    ensures Tiles(Mark(bs, addr), lo, hi)
    decreases |bs|
  {
    if bs != [] {
      MarkTiles(bs[1..], addr, bs[0].End(), hi);
      assert Mark(bs, addr)[1..] == Mark(bs[1..], addr);
    }
  }
}
