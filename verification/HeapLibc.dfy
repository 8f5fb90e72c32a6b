/**
 The C allocation calls over the arena: what they return, what they write, and
 what they leave alone.
 */
module HeapLibc {
  import opened Wrappers
  import opened Blocklist
  import opened HeapLaws
  import opened HeapArena

  /** Byte i belongs to the live block at p. */
  ghost predicate InBlock(bs: seq<Blk>, p: nat, i: int) {
    exists k :: 0 <= k < |bs| && !bs[k].free && bs[k].Payload() == p && p <= i < bs[k].End()
  }

  /** The bytes that some live block of bs other than p's holds. */
  ghost predicate InOther(bs: seq<Blk>, p: nat, i: int) {
    exists k :: 0 <= k < |bs| && !bs[k].free && bs[k].Payload() != p && bs[k].Payload() <= i < bs[k].End()
  }

  /** The bytes in question, by the live blocks. */
  lemma BytesAre(bs: seq<Blk>, p: nat, i: int)
    ensures InPayload(bs, i) <==> exists b :: b in bs && !b.free && b.addr + 24 <= i < b.addr + 24 + b.size
    ensures InBlock(bs, p, i) <==> exists b :: b in bs && !b.free && b.addr + 24 == p && p <= i < p + b.size
    ensures InOther(bs, p, i) <==> exists b :: b in bs && !b.free && b.addr + 24 != p && b.addr + 24 <= i < b.addr + 24 + b.size
  {
  }

  /** Live payload bytes: which block holds them after an allocation. */
  lemma AllocPayloads(bs: seq<Blk>, requested: nat)
    requires Tiles(bs, 0, ARENA) && Alloc(bs, requested).0.Some? && Fits(requested)
    ensures var (p, bs') := Alloc(bs, requested);
      && p.value >= HEADER && p.value + requested <= ARENA
      && Tiles(bs', 0, ARENA)
      && (forall i :: InPayload(bs, i) ==> InPayload(bs', i) && InOther(bs', p.value, i))
      && (forall i :: p.value <= i < p.value + requested ==> InBlock(bs', p.value, i) && !InPayload(bs, i))
      && (forall q, i :: InOther(bs, q, i) ==> InOther(bs', q, i))
      && Live(bs', p.value) && (forall q :: Live(bs, q) ==> Live(bs', q) && q != p.value)
  {
    hide Needed, Fits;
    var (p, bs') := Alloc(bs, requested);
    AllocResult(bs, requested);
    NeededFacts(requested);
    var needed := Needed(requested);
    var k := FirstFit(bs, needed);
    CarveTiles(bs, k, needed);
    HeadersOutside(bs, k);
    hide Tiles, Alloc, Taken, FirstFit;
    var b := Taken(bs, requested);
    AllocInside(bs, bs', b, p.value, requested);
  }

  lemma AllocInside(bs: seq<Blk>, bs': seq<Blk>, b: Blk, p: nat, requested: nat)
    requires Tiles(bs', 0, ARENA) && LiveBlocks(bs') == LiveBlocks(bs) + {b} && b !in LiveBlocks(bs)
    requires b.Payload() == p && !b.free && b.size >= requested
    ensures p >= HEADER && p + requested <= ARENA
    ensures forall i :: InPayload(bs, i) ==> InPayload(bs', i) && InOther(bs', p, i)
    ensures forall i :: p <= i < p + requested ==> InBlock(bs', p, i) && !InPayload(bs, i)
    ensures forall q, i :: InOther(bs, q, i) ==> InOther(bs', q, i)
    ensures Live(bs', p) && forall q :: Live(bs, q) ==> Live(bs', q) && q != p
  {
    hide Tiles;
    TilesOrder(bs', 0, ARENA);
    assert b in LiveBlocks(bs');
    var m :| 0 <= m < |bs'| && bs'[m] == b;
    forall c | c in LiveBlocks(bs) ensures c.Payload() != p && (c.End() <= b.addr || b.End() <= c.addr) && Live(bs', c.Payload()) {
      assert c in LiveBlocks(bs');
      var j :| 0 <= j < |bs'| && bs'[j] == c;
      assert j != m;
    }
    forall i | InPayload(bs, i) ensures InPayload(bs', i) && InOther(bs', p, i) && !(p <= i < p + requested) {
      var k :| 0 <= k < |bs| && !bs[k].free && bs[k].Payload() <= i < bs[k].End();
      assert bs[k] in LiveBlocks(bs) && bs[k] in LiveBlocks(bs');
      var j :| 0 <= j < |bs'| && bs'[j] == bs[k];
    }
    forall q, i | InOther(bs, q, i) ensures InOther(bs', q, i) {
      var k :| 0 <= k < |bs| && !bs[k].free && bs[k].Payload() != q && bs[k].Payload() <= i < bs[k].End();
      assert bs[k] in LiveBlocks(bs) && bs[k] in LiveBlocks(bs');
      var j :| 0 <= j < |bs'| && bs'[j] == bs[k];
    }
    forall q | Live(bs, q) ensures Live(bs', q) && q != p {
      var k :| 0 <= k < |bs| && !bs[k].free && bs[k].Payload() == q;
      assert bs[k] in LiveBlocks(bs);
    }
  }

  /** Freeing p keeps in use exactly the bytes of the other live blocks. */
  lemma FreePayloads(bs: seq<Blk>, p: nat)
    requires Tiles(bs, 0, ARENA) && Live(bs, p)
    ensures forall i :: InOther(bs, p, i) ==> InPayload(Free(bs, p), i)
    ensures forall q :: Live(bs, q) && q != p ==> Live(Free(bs, p), q)
  {
    hide Tiles, Free, Coalesce, Mark;
    FreeResult(bs, p);
    var after, b := Free(bs, p), BlockOf(bs, p);
    forall c | c in LiveBlocks(bs) && c.Payload() != p ensures c in LiveBlocks(after) {}
    forall i | InOther(bs, p, i) ensures InPayload(after, i) {
      var k :| 0 <= k < |bs| && !bs[k].free && bs[k].Payload() != p && bs[k].Payload() <= i < bs[k].End();
      assert bs[k] in LiveBlocks(after);
      var j :| 0 <= j < |after| && after[j] == bs[k];
    }
    forall q | Live(bs, q) && q != p ensures Live(after, q) {
      var k :| 0 <= k < |bs| && !bs[k].free && bs[k].Payload() == q;
      assert bs[k] in LiveBlocks(after);
      var j :| 0 <= j < |after| && after[j] == bs[k];
    }
  }

  method Malloc(a: Arena, size: nat) returns (p: Option<nat>)
    requires a.Valid() && size < WORD
    modifies a, a.mem
    ensures a.Valid() && (p, a.blocks) == Alloc(old(a.blocks), size)
    ensures forall i :: 0 <= i < ARENA && InPayload(old(a.blocks), i) ==> a.mem[i] == old(a.mem[i])
  {
    p := a.Alloc(size);
  }

  /** A client's store into a payload: no header changes. */
  method Store(a: Arena, i: nat, x: Byte)
    requires a.Valid() && i < ARENA && InPayload(a.blocks, i)
    modifies a.mem
    ensures a.Valid() && a.mem[i] == x && forall j :: 0 <= j < ARENA && j != i ==> a.mem[j] == old(a.mem[j])
  {
    hide InPayload, Tiles, InHeader, Linked;
    ghost var before := a.mem[..];
    PayloadMissesHeaders(a.blocks);
    a.mem[i] := x;
    if a.initialized { LinkedSame(before, a.mem[..], a.base, a.blocks); }
  }

  /** The byte count that calloc computes, in 64-bit arithmetic. */
  function Total(count: nat, size: nat): nat { (count * size) % WORD }

  /**
   A zeroed block of count * size bytes, modulo 2^64, and no other live byte
   touched. When the rounded product wraps, the zeroing runs past the arena's end:
   the model stops there and says so.
   */
  method Calloc(a: Arena, count: nat, size: nat) returns (p: Option<nat>, outside: bool)
    requires a.Valid() && count < WORD && size < WORD
    modifies a, a.mem
    ensures outside <==> p.Some? && !Fits(Total(count, size))
    ensures p == Alloc(old(a.blocks), Total(count, size)).0
    ensures !outside ==> a.Valid() && a.blocks == Alloc(old(a.blocks), Total(count, size)).1
    ensures p.Some? && !outside ==> p.value + Total(count, size) <= ARENA
    ensures p.Some? && !outside ==> forall i :: p.value <= i < p.value + Total(count, size) ==> a.mem[i] == 0
    ensures !outside ==> forall i :: 0 <= i < ARENA && InPayload(old(a.blocks), i) ==> a.mem[i] == old(a.mem[i])
  {
    hide Alloc, Tiles, InPayload, Linked;
    var total := count * size % WORD;
    ghost var bs := a.blocks;
    p := a.Alloc(total);
    outside := p.Some? && p.value + total > ARENA;
    if p.Some? && Fits(total) { AllocPayloads(bs, total); }
    if p.Some? && !outside {
      Owners(a.blocks, p.value);
      for i := 0 to total
        invariant a.Valid() && (p, a.blocks) == Alloc(bs, total)
        invariant forall j :: p.value <= j < p.value + i ==> a.mem[j] == 0
        invariant forall j :: 0 <= j < ARENA && InPayload(bs, j) ==> a.mem[j] == old(a.mem[j])
        modifies a.mem
      {
        Store(a, p.value + i, 0);
      }
    }
  }

  /** The 64-bit product: below 2^64, and off by a multiple of it. */
  lemma TotalIs(count: nat, size: nat)
    ensures Total(count, size) < 18446744073709551616 && (count * size - Total(count, size)) % 18446744073709551616 == 0
  {
  }

  /** Calloc's block holds count * size bytes exactly when the product does not wrap. */
  lemma {:induction false} CallocEnoughIffNoWrap(bs: seq<Blk>, count: nat, size: nat)
    requires HeapOk(bs) && Fits(Total(count, size)) && Alloc(bs, Total(count, size)).0.Some?
    ensures Taken(bs, Total(count, size)).size >= count * size <==> count * size < WORD
  {
    hide Needed, Total, Alloc, Taken;
    var total := Total(count, size);
    TotalFacts(count, size);
    AllocResult(bs, total);
    AllocKeepsHeapOk(bs, total);
    NeededFacts(total);
    var bs' := Alloc(bs, total).1;
    TilesOrder(bs', 0, ARENA);
    assert Taken(bs, total) in LiveBlocks(bs');
  }

  lemma TotalFacts(count: nat, size: nat)
    ensures count * size < WORD ==> Total(count, size) == count * size
  {
  }

  /**
   A new block holding what the old one held, up to the smaller size; the old
   block is released whether or not the allocation succeeds. The copy reads
   newSize bytes from the old pointer, past its block if need be, and past the
   arena as `beyond`. When the rounded size wraps, it also writes past the arena's
   end: the model stops there and says so.
   */
  method Realloc(a: Arena, ptr: Option<nat>, newSize: nat, beyond: nat -> Byte) returns (p: Option<nat>, outside: bool)
    requires a.Valid() && newSize < WORD && (ptr.Some? ==> Live(a.blocks, ptr.value))
    modifies a, a.mem
    ensures outside <==> ptr.Some? && p.Some? && !Fits(newSize)
    ensures !outside ==> a.Valid()
    ensures ptr.None? ==> (p, a.blocks) == Alloc(old(a.blocks), newSize)
    ensures ptr.Some? && newSize == 0 ==> p == None && a.blocks == Free(old(a.blocks), ptr.value)
    ensures ptr.Some? && newSize > 0 ==>
      var r := Alloc(old(a.blocks), newSize); p == r.0 && (!outside ==> a.blocks == Free(r.1, ptr.value))
    ensures ptr.Some? && p.Some? && !outside ==> p.value + newSize <= ARENA && p.value != ptr.value
    ensures ptr.Some? && p.Some? && !outside ==>
      forall i :: ptr.value <= i < ptr.value + newSize && InBlock(old(a.blocks), ptr.value, i) ==>
        i < ARENA && a.mem[p.value + (i - ptr.value)] == old(a.mem[i])
    ensures ptr.Some? && !outside ==> forall i :: 0 <= i < ARENA && InOther(old(a.blocks), ptr.value, i) ==> a.mem[i] == old(a.mem[i])
    ensures ptr.None? ==> forall i :: 0 <= i < ARENA && InPayload(old(a.blocks), i) ==> a.mem[i] == old(a.mem[i])
  {
    hide Alloc, Tiles, InPayload, InBlock, InOther, Linked, Free, Coalesce;
    outside := false;
    if ptr.None? {
      p := a.Alloc(newSize);
      return;
    }
    ghost var bs := a.blocks;
    Owners(bs, ptr.value);
    if newSize == 0 {
      FreePayloads(bs, ptr.value);
      a.Free(ptr);
      return None, false;
    }
    p := a.Alloc(newSize);
    ghost var bs' := a.blocks;
    if p.Some? {
      if Fits(newSize) { AllocPayloads(bs, newSize); }
      if p.value + newSize > ARENA { return p, true; }
      Owners(bs', p.value);
      CopyBytes(a, ptr.value, p.value, newSize, beyond);
    } else {
      AllocNone(bs, newSize);
    }
    FreePayloads(bs', ptr.value);
    a.Free(ptr);
  }

  lemma AllocNone(bs: seq<Blk>, requested: nat)
    requires Alloc(bs, requested).0.None?
    ensures Alloc(bs, requested).1 == bs
  {
  }

  /** A block's bytes are live, inside the arena, and other blocks' bytes are not its own. */
  lemma Owners(bs: seq<Blk>, p: nat)
    requires Tiles(bs, 0, ARENA)
    ensures forall i :: InBlock(bs, p, i) ==> InPayload(bs, i) && 0 <= i < ARENA
    ensures forall i :: InOther(bs, p, i) ==> InPayload(bs, i)
    ensures forall q, i :: InBlock(bs, p, i) && q != p ==> InOther(bs, q, i)
  {
    TilesOrder(bs, 0, ARENA);
  }

  /** The byte-copy loop. */
  method CopyBytes(a: Arena, src: nat, dst: nat, n: nat, beyond: nat -> Byte)
    requires a.Valid() && dst + n <= ARENA && forall i :: dst <= i < dst + n ==> InPayload(a.blocks, i)
    modifies a.mem
    ensures a.Valid()
    ensures forall i :: 0 <= i < ARENA && !(dst <= i < dst + n) ==> a.mem[i] == old(a.mem[i])
    ensures forall i :: src <= i < src + n && i < ARENA && !(dst <= i < dst + n) ==>
      a.mem[dst + (i - src)] == old(a.mem[i])
  {
    hide InPayload, Tiles, Linked;
    for i := 0 to n
      invariant a.Valid()
      invariant forall j :: 0 <= j < ARENA && !(dst <= j < dst + i) ==> a.mem[j] == old(a.mem[j])
      invariant forall j :: src <= j < src + i && j < ARENA && !(dst <= j < dst + n) ==>
        a.mem[dst + (j - src)] == old(a.mem[j])
    {
      Store(a, dst + i, if src + i < ARENA then a.mem[src + i] else beyond(src + i));
    }
  }
}
