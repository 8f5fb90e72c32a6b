/**
 The allocator in place: headers inside a byte arena, linked by address, walked
 and rewritten by the two entry points.
 */
module HeapArena {
  import opened Wrappers
  import opened Blocklist

  type Byte = x: int | 0 <= x < 256 witness 0

  datatype Link = Null | To(addr: nat)

  datatype Header = Header(size: nat, next: Link, free: bool)

  // ---- Headers as bytes: two 64-bit words, low byte first, a flag, and padding.

  /** The number in n bytes. */
  function Value(s: seq<Byte>, at: nat, n: nat): (v: nat)
    requires at + n <= |s|
    decreases n
  {
    if n == 0 then 0
    else
      var b: nat := s[at];
      b + 256 * Value(s, at + 1, n - 1)
  }

  /** Byte k of a number. */
  function Digit(v: nat, k: nat): Byte {
    if k == 0 then v % 256 else Digit(v / 256, k - 1)
  }

  function Range(n: nat): nat { if n == 0 then 1 else 256 * Range(n - 1) }

  lemma {:induction false} ValueOfDigits(s: seq<Byte>, at: nat, n: nat, v: nat)
    requires at + n <= |s| && v < Range(n)
    requires forall i :: at <= i < at + n ==> s[i] == Digit(v, i - at)
    ensures Value(s, at, n) == v
    decreases n
  {
    if n > 0 {
      ValueOfDigits(s, at + 1, n - 1, v / 256);
    }
  }

  lemma WordRange()
    ensures Range(8) == WORD
  {
    assert Range(4) == 0x1_0000_0000;
  }

  lemma {:induction false} ValueSame(s: seq<Byte>, t: seq<Byte>, at: nat, n: nat)
    requires at + n <= |s| == |t| && forall i :: at <= i < at + n ==> s[i] == t[i]
    ensures Value(s, at, n) == Value(t, at, n)
    decreases n
  {
    if n > 0 { ValueSame(s, t, at + 1, n - 1); }
  }

  /** The machine address of a link in an arena at base; null is zero. */
  function Encode(base: nat, l: Link): nat { if l.Null? then 0 else base + l.addr }

  function DecodeLink(base: nat, v: nat): Link { if v == 0 then Null else To((v + WORD - base) % WORD) }

  /** The header that 24 bytes stand for. */
  function Decode(s: seq<Byte>, base: nat, at: nat): Header
    requires at + HEADER <= |s| && base <= WORD
  {
    Header(Value(s, at, 8), DecodeLink(base, Value(s, at + 8, 8)), s[at + 16] != 0)
  }

  lemma DecodeSame(s: seq<Byte>, t: seq<Byte>, base: nat, at: nat)
    requires at + HEADER <= |s| == |t| && base <= WORD && forall i :: at <= i < at + HEADER ==> s[i] == t[i]
    ensures Decode(s, base, at) == Decode(t, base, at)
  {
    ValueSame(s, t, at, 8);
    ValueSame(s, t, at + 8, 8);
  }

  /** A header in memory: the size, low byte first, the machine address of the next header, or zero, and a flag. */
  lemma DecodeIs(s: seq<Byte>, base: nat, at: nat, b: seq<int>)
    requires at + 24 <= |s| && 0 < base && base + ARENA <= WORD && |b| == 24 && forall i :: 0 <= i < 24 ==> b[i] == s[at + i]
    ensures var h := Decode(s, base, at);
      && h.size == b[0] + 0x100 * b[1] + 0x1_0000 * b[2] + 0x100_0000 * b[3] + 0x1_0000_0000 * b[4]
         + 0x100_0000_0000 * b[5] + 0x1_0000_0000_0000 * b[6] + 0x100_0000_0000_0000 * b[7]
      && (h.free <==> b[16] != 0)
    ensures var h, next := Decode(s, base, at),
        b[8] + 0x100 * b[9] + 0x1_0000 * b[10] + 0x100_0000 * b[11] + 0x1_0000_0000 * b[12]
        + 0x100_0000_0000 * b[13] + 0x1_0000_0000_0000 * b[14] + 0x100_0000_0000_0000 * b[15];
      && (h.next == Null <==> next == 0)
      && (base <= next ==> h.next == To(next - base))
  {
    EightBytes(s, at, b[..8]);
    EightBytes(s, at + 8, b[8..16]);
  }

  lemma EightBytes(s: seq<Byte>, at: nat, b: seq<int>)
    requires at + 8 <= |s| && |b| == 8 && forall i :: 0 <= i < 8 ==> b[i] == s[at + i]
    ensures Value(s, at, 8) == b[0] + 0x100 * b[1] + 0x1_0000 * b[2] + 0x100_0000 * b[3] + 0x1_0000_0000 * b[4]
        + 0x100_0000_0000 * b[5] + 0x1_0000_0000_0000 * b[6] + 0x100_0000_0000_0000 * b[7]
    ensures Value(s, at, 8) < 0x1_0000_0000_0000_0000
  {
    assert Value(s, at + 8, 0) == 0;
    assert Value(s, at + 7, 1) == b[7];
    assert Value(s, at + 6, 2) == b[6] + 0x100 * b[7];
    assert Value(s, at + 5, 3) == b[5] + 0x100 * b[6] + 0x1_0000 * b[7];
    assert Value(s, at + 4, 4) == b[4] + 0x100 * b[5] + 0x1_0000 * b[6] + 0x100_0000 * b[7];
  }

  /** Byte i belongs to a block in use. */
  ghost predicate InPayload(bs: seq<Blk>, i: int) {
    exists k :: 0 <= k < |bs| && !bs[k].free && bs[k].Payload() <= i < bs[k].End()
  }

  /** Byte i belongs to a header. */
  ghost predicate InHeader(bs: seq<Blk>, i: int) {
    exists k :: 0 <= k < |bs| && bs[k].addr <= i < bs[k].Payload()
  }

  function NextOf(bs: seq<Blk>, i: nat): Link
    requires i < |bs|
  {
    if i + 1 < |bs| then To(bs[i + 1].addr) else Null
  }

  /** The bytes at block i spell out its header. */
  ghost predicate HeaderOk(s: seq<Byte>, base: nat, bs: seq<Blk>, i: nat)
    requires i < |bs| && base <= WORD
  {
    bs[i].addr + HEADER <= |s| && Decode(s, base, bs[i].addr) == Header(bs[i].size, NextOf(bs, i), bs[i].free)
  }

  /** The headers in memory spell out the block list. */
  ghost predicate Linked(s: seq<Byte>, base: nat, bs: seq<Blk>)
    requires base <= WORD
  {
    forall i :: 0 <= i < |bs| ==> HeaderOk(s, base, bs, i)
  }

  /** Only headers matter: memory that agrees on them spells out the same list. */
  lemma LinkedSame(s: seq<Byte>, t: seq<Byte>, base: nat, bs: seq<Blk>)
    requires base <= WORD && |s| == |t| && Linked(s, base, bs)
    requires forall i :: 0 <= i < |s| && InHeader(bs, i) ==> s[i] == t[i]
    ensures Linked(t, base, bs)
  {
    forall i | 0 <= i < |bs| ensures HeaderOk(t, base, bs, i) {
      assert HeaderOk(s, base, bs, i);
      forall j | bs[i].addr <= j < bs[i].addr + HEADER ensures s[j] == t[j] {
        assert InHeader(bs, j);
      }
      DecodeSame(s, t, base, bs[i].addr);
    }
  }

  /** No byte of a payload is a byte of a header. */
  lemma PayloadMissesHeaders(bs: seq<Blk>)
    requires Tiles(bs, 0, ARENA)
    ensures forall i :: InPayload(bs, i) ==> !InHeader(bs, i)
  {
    TilesOrder(bs, 0, ARENA);
  }

  class Arena {
    const base: nat
    const mem: array<Byte>
    var freeList: Link
    var initialized: bool
    ghost var blocks: seq<Blk>

    /** The zeroed arena at a machine address, before its first use. */
    constructor (base: nat)
      requires 0 < base && base + ARENA <= WORD
      ensures Valid() && fresh(mem) && blocks == INITIAL && this.base == base
    {
      this.base := base;
      mem := new Byte[ARENA](_ => 0);
      freeList, initialized, blocks := Null, false, INITIAL;
      new;
      assert INITIAL[1..] == [];
    }

    ghost predicate Valid()
      reads this, mem
    {
      && 0 < base && base + ARENA <= WORD && mem.Length == ARENA && Tiles(blocks, 0, ARENA)
      && (if initialized then freeList == To(0) && Linked(mem[..], base, blocks) else blocks == INITIAL)
    }

    /** The header at an address, read from its bytes. */
    function HeaderAt(at: nat): Header
      requires at + HEADER <= mem.Length && base <= WORD
      reads this, mem
    {
      Decode(mem[..], base, at)
    }

    /** Stores an 8-byte little-endian word. */
    method PutWord(at: nat, v: nat)
      requires at + 8 <= mem.Length && v < WORD
      modifies mem
      ensures Value(mem[..], at, 8) == v
      ensures forall i :: 0 <= i < mem.Length && !(at <= i < at + 8) ==> mem[i] == old(mem[i])
    {
      var rest := v;
      for k := 0 to 8
        invariant forall i :: 0 <= i < mem.Length && !(at <= i < at + 8) ==> mem[i] == old(mem[i])
        invariant forall i :: at <= i < at + k ==> mem[i] == Digit(v, i - at)
        invariant forall j: nat {:trigger Digit(rest, j)} :: Digit(rest, j) == Digit(v, j + k)
      {
        assert Digit(rest, 0) == Digit(v, 0 + k);
        forall j: nat ensures Digit(rest / 256, j) == Digit(v, j + (k + 1)) {
          assert Digit(rest, j + 1) == Digit(v, (j + 1) + k);
        }
        mem[at + k] := rest % 256;
        rest := rest / 256;
      }
      WordRange();
      ValueOfDigits(mem[..], at, 8, v);
    }

    /** Writes the three fields of a header; the padding keeps its bytes. */
    method PutHeader(at: nat, h: Header)
      requires at + HEADER <= mem.Length == ARENA && 0 < base && base + ARENA <= WORD
      requires h.size < ARENA && (h.next.To? ==> h.next.addr < ARENA)
      modifies mem
      ensures Decode(mem[..], base, at) == h
      ensures forall i :: 0 <= i < mem.Length && !(at <= i < at + HEADER) ==> mem[i] == old(mem[i])
    {
      hide Value;
      PutWord(at, h.size);
      ghost var one := mem[..];
      PutWord(at + 8, Encode(base, h.next));
      ghost var two := mem[..];
      ValueSame(one, two, at, 8);
      mem[at + 16] := if h.free then 1 else 0;
      ValueSame(two, mem[..], at, 8);
      ValueSame(two, mem[..], at + 8, 8);
    }

    method Init()
      requires Valid() && !initialized
      modifies this, mem
      ensures Valid() && initialized && blocks == old(blocks)
      ensures forall i :: 0 <= i < mem.Length && InPayload(blocks, i) ==> mem[i] == old(mem[i])
    {
      freeList := To(0);
      PutHeader(0, Header(ARENA - HEADER, Null, true));
      initialized := true;
      assert HeaderOk(mem[..], base, blocks, 0);
    }

    /** First fit, splitting the block found when the rest can be a block of its own. */
    method Alloc(requested: nat) returns (p: Option<nat>)
      requires Valid() && requested < WORD
      modifies this, mem
      ensures Valid() && (p, blocks) == Blocklist.Alloc(old(blocks), requested)
      ensures forall i :: 0 <= i < mem.Length && InPayload(old(blocks), i) ==> mem[i] == old(mem[i])
    {
      hide Tiles, FirstFit, Carve, Linked, InPayload, Decode;
      ghost var bs := blocks;
      NonEmpty(bs);
      if !initialized {
        Init();
      }
      var needed := AlignUp(if requested == 0 then MIN_ALLOC else requested);
      var curr := freeList;
      ghost var k := 0;
      while curr != Null
        invariant Valid() && initialized && blocks == bs && k <= |bs|
        invariant curr == if k < |bs| then To(bs[k].addr) else Null
        invariant forall j :: 0 <= j < k ==> !(bs[j].free && bs[j].size >= needed)
        invariant forall i :: 0 <= i < mem.Length && InPayload(bs, i) ==> mem[i] == old(mem[i])
        decreases |bs| - k
      {
        LinkedAt(mem[..], base, bs, k);
        var h := HeaderAt(curr.addr);
        if h.free && h.size >= needed {
          FirstFitIs(bs, needed, k);
          Take(curr.addr, needed, k);
          return Some(curr.addr + HEADER);
        }
        curr := h.next;
        k := k + 1;
      }
      FirstFitNone(bs, needed);
      p := None;
    }

    /** Takes block k, at this address, for a request of this size. */
    method Take(at: nat, needed: nat, ghost k: nat)
      requires Valid() && initialized && k < |blocks| && blocks[k].addr == at && blocks[k].free && needed <= blocks[k].size
      modifies this, mem
      ensures Valid() && initialized
      ensures blocks == old(blocks)[..k] + Carve(old(blocks)[k], needed) + old(blocks)[k + 1..]
      ensures forall i :: 0 <= i < mem.Length && InPayload(old(blocks), i) ==> mem[i] == old(mem[i])
    {
      hide Tiles, Carve, Linked, InPayload, Decode, NewHeaders;
      ghost var bs := blocks;
      ghost var mid := Carve(bs[k], needed);
      CarveTiles(bs, k, needed);
      TilesOrder(bs, 0, ARENA);
      HeadersOutside(bs, k);
      LinkedAt(mem[..], base, bs, k);
      var h := HeaderAt(at);
      var remainder := h.size - needed;
      ghost var before := mem[..];
      if remainder > HEADER + MIN_ALLOC {
        var split := at + HEADER + needed;
        PutHeader(split, Header(remainder - HEADER, h.next, true));
        ghost var between := mem[..];
        PutHeader(at, Header(needed, To(split), false));
        DecodeSame(between, mem[..], base, split);
        SplitHeaders(mem[..], base, bs, k, needed);
      } else {
        PutHeader(at, Header(h.size, h.next, false));
        TakenHeader(mem[..], base, bs, k, needed);
      }
      blocks := bs[..k] + mid + bs[k + 1..];
      SpliceLinked(before, mem[..], base, bs, k, k + 1, mid);
    }

    /** Releases a block and coalesces in one forward pass. */
    method Free(ptr: Option<nat>)
      requires Valid() && (ptr.Some? ==> exists i :: 0 <= i < |blocks| && !blocks[i].free && blocks[i].Payload() == ptr.value)
      modifies this, mem
      ensures Valid() && blocks == if ptr.None? then old(blocks) else Blocklist.Free(old(blocks), ptr.value)
      ensures forall i :: 0 <= i < mem.Length && InPayload(blocks, i) ==> mem[i] == old(mem[i])
    {
      if ptr.None? {
        return;
      }
      hide Tiles, Linked, InPayload, Mark, Coalesce;
      InitialAllFree();
      ghost var n: nat :| n < |blocks| && !blocks[n].free && blocks[n].Payload() == ptr.value;
      SetFree(ptr.value - HEADER, n);
      CoalescePass();
    }

    /** Marks block n free. */
    method SetFree(at: nat, ghost n: nat)
      requires Valid() && initialized && n < |blocks| && blocks[n].addr == at
      modifies this, mem
      ensures Valid() && initialized && blocks == Mark(old(blocks), at)
      ensures forall i :: 0 <= i < mem.Length && InPayload(blocks, i) ==> mem[i] == old(mem[i])
    {
      hide Tiles, Linked, InPayload, Mark, Decode, NewHeaders;
      ghost var bs := blocks;
      TilesOrder(bs, 0, ARENA);
      LinkedAt(mem[..], base, bs, n);
      ghost var before := mem[..];
      PutHeader(at, HeaderAt(at).(free := true));
      blocks := Mark(bs, at);
      MarkIsSplice(bs, n);
      MarkedHeader(mem[..], base, bs, n);
      SpliceLinked(before, mem[..], base, bs, n, n + 1, [bs[n].(free := true)]);
      MarkTiles(bs, at, 0, ARENA);
      MarkPayload(bs, n);
    }

    /** Absorbs every free successor of a free block, front to back. */
    method CoalescePass()
      requires Valid() && initialized
      modifies this, mem
      ensures Valid() && initialized && blocks == Coalesce(old(blocks))
      ensures forall i :: 0 <= i < mem.Length && InPayload(blocks, i) ==> InPayload(old(blocks), i) && mem[i] == old(mem[i])
    {
      hide Tiles, Linked, InPayload, Coalesce, Decode, NextOf, HeaderOk;
      NonEmpty(blocks);
      ghost var done, rest: seq<Blk> := [], blocks;
      var curr := freeList;
      while curr != Null
        invariant Valid() && initialized && blocks == done + rest
        invariant done + Coalesce(rest) == Coalesce(old(blocks))
        invariant curr == if rest == [] then Null else To(rest[0].addr)
        invariant forall i :: 0 <= i < mem.Length && InPayload(blocks, i) ==> InPayload(old(blocks), i) && mem[i] == old(mem[i])
        decreases |rest|
      {
        RestLinked(mem[..], base, done, rest);
        CoalesceUnfold(done, rest);
        var h := HeaderAt(curr.addr);
        if h.free && h.next != Null && HeaderAt(h.next.addr).free {
          rest := AbsorbNext(curr.addr, done, rest);
          continue;
        }
        NextRest(done, rest);
        done, rest := done + [rest[0]], rest[1..];
        curr := h.next;
      }
      CoalesceNil();
      NoRest(done);
    }

    /** Merges the first block of the rest with its successor. */
    method AbsorbNext(at: nat, ghost done: seq<Blk>, ghost rest: seq<Blk>) returns (ghost more: seq<Blk>)
      requires Valid() && initialized && blocks == done + rest
      requires |rest| > 1 && rest[0].addr == at && rest[0].free && rest[1].free
      modifies this, mem
      ensures Valid() && initialized && blocks == done + more && Coalesce(more) == Coalesce(rest)
      ensures |more| == |rest| - 1 && more[0].addr == at
      ensures forall i :: 0 <= i < mem.Length && InPayload(blocks, i) ==> InPayload(old(blocks), i) && mem[i] == old(mem[i])
    {
      hide Tiles, Linked, InPayload, Coalesce, Decode;
      ghost var merged := Blk(at, rest[0].size + HEADER + rest[1].size, true);
      SpliceRest(done, rest, merged);
      CoalesceUnfold(done, rest);
      Absorb(at, |done|);
      more := [merged] + rest[2..];
    }

    /** Merges free block k with its free successor. */
    method Absorb(at: nat, ghost k: nat)
      requires Valid() && initialized && k + 1 < |blocks| && blocks[k].addr == at && blocks[k].free && blocks[k + 1].free
      modifies this, mem
      ensures Valid() && initialized
      ensures blocks == old(blocks)[..k] + [Blk(at, old(blocks)[k].size + HEADER + old(blocks)[k + 1].size, true)] + old(blocks)[k + 2..]
      ensures forall i :: 0 <= i < mem.Length && InPayload(blocks, i) ==> InPayload(old(blocks), i) && mem[i] == old(mem[i])
    {
      hide Tiles, Linked, InPayload, Decode, NewHeaders;
      ghost var bs := blocks;
      LinkedAt(mem[..], base, bs, k);
      LinkedAt(mem[..], base, bs, k + 1);
      ghost var merged := Blk(at, bs[k].size + HEADER + bs[k + 1].size, true);
      TilesOrder(bs, 0, ARENA);
      TilesNext(bs, 0, ARENA, k);
      var h := HeaderAt(at);
      var next := HeaderAt(h.next.addr);
      ghost var before := mem[..];
      PutHeader(at, Header(h.size + HEADER + next.size, next.next, true));
      blocks := bs[..k] + [merged] + bs[k + 2..];
      AbsorbTiles(bs, k, merged);
      AbsorbedHeader(mem[..], base, bs, k, merged);
      SpliceLinked(before, mem[..], base, bs, k, k + 2, [merged]);
      assert blocks[k] == merged;
      HeadersOutside(blocks, k);
      AbsorbPayload(bs, k, merged);
    }
  }

  // ---- Steps of the two walks, on the block list.

  lemma {:induction false} FirstFitIs(bs: seq<Blk>, needed: nat, k: nat)
    requires k < |bs| && bs[k].free && bs[k].size >= needed
    requires forall j :: 0 <= j < k ==> !(bs[j].free && bs[j].size >= needed)
    ensures FirstFit(bs, needed) == k
  {
    var i := FirstFit(bs, needed);
    assert i <= k;
  }

  lemma FirstFitNone(bs: seq<Blk>, needed: nat)
    requires forall j :: 0 <= j < |bs| ==> !(bs[j].free && bs[j].size >= needed)
    ensures FirstFit(bs, needed) == |bs|
  {
  }

  lemma NonEmpty(bs: seq<Blk>)
    requires Tiles(bs, 0, ARENA)
    ensures bs != [] && bs[0].addr == 0
  {
  }

  lemma InitialAllFree()
    ensures forall i :: 0 <= i < |INITIAL| ==> INITIAL[i].free
  {
  }

  lemma CarveTiles(bs: seq<Blk>, k: nat, needed: nat)
    requires Tiles(bs, 0, ARENA) && k < |bs| && needed <= bs[k].size
    ensures Tiles(bs[..k] + Carve(bs[k], needed) + bs[k + 1..], 0, ARENA)
  {
    var mid := Carve(bs[k], needed);
    assert mid[1..] == [] || mid[1..][1..] == [];
    ReplaceTiles(bs, k, mid);
  }

  /** The bytes of a free block, and every header, lie outside all live payloads. */
  lemma HeadersOutside(bs: seq<Blk>, k: nat)
    requires Tiles(bs, 0, ARENA) && k < |bs| && bs[k].free
    ensures forall i :: bs[k].addr <= i < bs[k].End() ==> !InPayload(bs, i)
  {
    TilesOrder(bs, 0, ARENA);
  }

  lemma LinkedAt(s: seq<Byte>, base: nat, bs: seq<Blk>, k: nat)
    requires base <= WORD && Tiles(bs, 0, ARENA) && Linked(s, base, bs) && k < |bs|
    ensures bs[k].addr + HEADER <= |s| && Decode(s, base, bs[k].addr) == Header(bs[k].size, NextOf(bs, k), bs[k].free)
    ensures bs[k].addr + HEADER + bs[k].size <= ARENA && (NextOf(bs, k).To? ==> NextOf(bs, k).addr < ARENA)
  {
    assert HeaderOk(s, base, bs, k);
    TilesOrder(bs, 0, ARENA);
  }

  /** What the walk finds at the blocks still ahead of it. */
  lemma RestLinked(s: seq<Byte>, base: nat, done: seq<Blk>, rest: seq<Blk>)
    requires base <= WORD && Tiles(done + rest, 0, ARENA) && Linked(s, base, done + rest) && rest != []
    ensures (done + rest)[|done|] == rest[0] && rest[0].addr + HEADER <= |s|
    ensures Decode(s, base, rest[0].addr) ==
      Header(rest[0].size, if |rest| > 1 then To(rest[1].addr) else Null, rest[0].free)
    ensures |rest| > 1 ==> (done + rest)[|done| + 1] == rest[1] && rest[1].addr + HEADER <= |s|
    ensures |rest| > 1 ==> Decode(s, base, rest[1].addr).free == rest[1].free
  {
    hide Tiles, Linked, Decode;
    var bs := done + rest;
    LinkedAt(s, base, bs, |done|);
    if |rest| > 1 { LinkedAt(s, base, bs, |done| + 1); }
  }

  /** The headers of the blocks that replace blocks k to m. */
  ghost predicate NewHeaders(s: seq<Byte>, base: nat, bs: seq<Blk>, m: nat, mid: seq<Blk>)
    requires base <= WORD && 0 < m <= |bs|
  {
    forall i :: 0 <= i < |mid| ==> NewHeader(s, base, bs, m, mid, i)
  }

  ghost predicate NewHeader(s: seq<Byte>, base: nat, bs: seq<Blk>, m: nat, mid: seq<Blk>, i: nat)
    requires base <= WORD && 0 < m <= |bs| && i < |mid|
  {
    && mid[i].addr + HEADER <= |s|
    && Decode(s, base, mid[i].addr) ==
       Header(mid[i].size, if i + 1 < |mid| then To(mid[i + 1].addr) else NextOf(bs, m - 1), mid[i].free)
  }

  /**
   Replacing blocks k to m by others, by writes inside them: the headers spell out
   the new list if the new ones do.
   */
  lemma SpliceLinked(before: seq<Byte>, after: seq<Byte>, base: nat, bs: seq<Blk>, k: nat, m: nat, mid: seq<Blk>)
    requires base <= WORD && |before| == |after| == ARENA && Tiles(bs, 0, ARENA)
    requires k < m <= |bs| && mid != [] && mid[0].addr == bs[k].addr && Linked(before, base, bs)
    requires forall i :: 0 <= i < ARENA && !(bs[k].addr <= i < bs[m - 1].End()) ==> after[i] == before[i]
    requires NewHeaders(after, base, bs, m, mid)
    ensures Linked(after, base, bs[..k] + mid + bs[m..])
  {
    hide Tiles, Decode, Linked;
    TilesOrder(bs, 0, ARENA);
    var cs, shift := bs[..k] + mid + bs[m..], m - k - |mid|;
    forall i: nat | i < |cs| ensures HeaderOk(after, base, cs, i) {
      if i < k {
        HeaderKept(before, after, base, bs, k, m, i);
        assert cs[i] == bs[i];
        assert cs[i + 1].addr == bs[i + 1].addr by {
          if i + 1 == k { assert cs[k] == mid[0]; }
        }
      } else if i < k + |mid| {
        assert NewHeader(after, base, bs, m, mid, i - k);
        assert cs[i] == mid[i - k];
        assert i + 1 < k + |mid| ==> cs[i + 1] == mid[i + 1 - k];
        assert i + 1 == k + |mid| && m < |bs| ==> cs[i + 1] == bs[m];
      } else {
        HeaderKept(before, after, base, bs, k, m, i + shift);
        assert cs[i] == bs[i + shift] && (i + 1 < |cs| ==> cs[i + 1] == bs[i + 1 + shift]);
      }
    }
    LinkedAll(after, base, cs);
  }

  lemma LinkedAll(s: seq<Byte>, base: nat, cs: seq<Blk>)
    requires base <= WORD && forall i: nat :: i < |cs| ==> HeaderOk(s, base, cs, i)
    ensures Linked(s, base, cs)
  {
  }

  /** Writes inside blocks k to m leave every other block's header. */
  lemma HeaderKept(before: seq<Byte>, after: seq<Byte>, base: nat, bs: seq<Blk>, k: nat, m: nat, i: nat)
    requires base <= WORD && |before| == |after| == ARENA && Tiles(bs, 0, ARENA) && Linked(before, base, bs)
    requires k < m <= |bs| && i < |bs| && !(k <= i < m)
    requires forall j :: 0 <= j < ARENA && !(bs[k].addr <= j < bs[m - 1].End()) ==> after[j] == before[j]
    ensures HeaderOk(after, base, bs, i)
  {
    hide Tiles, Decode;
    TilesOrder(bs, 0, ARENA);
    assert HeaderOk(before, base, bs, i);
    DecodeSame(before, after, base, bs[i].addr);
  }

  lemma SplitHeaders(s: seq<Byte>, base: nat, bs: seq<Blk>, k: nat, needed: nat)
    requires base <= WORD && k < |bs| && bs[k].size - needed > HEADER + MIN_ALLOC && |s| == ARENA && bs[k].End() <= ARENA
    requires var split := bs[k].addr + HEADER + needed;
      && Decode(s, base, split) == Header(bs[k].size - needed - HEADER, NextOf(bs, k), true)
      && Decode(s, base, bs[k].addr) == Header(needed, To(split), false)
    ensures NewHeaders(s, base, bs, k + 1, Carve(bs[k], needed))
    ensures Carve(bs[k], needed) != [] && Carve(bs[k], needed)[0].addr == bs[k].addr
  {
    hide Decode;
  }

  lemma TakenHeader(s: seq<Byte>, base: nat, bs: seq<Blk>, k: nat, needed: nat)
    requires base <= WORD && k < |bs| && needed <= bs[k].size <= needed + HEADER + MIN_ALLOC && |s| == ARENA && bs[k].End() <= ARENA
    requires Decode(s, base, bs[k].addr) == Header(bs[k].size, NextOf(bs, k), false)
    ensures NewHeaders(s, base, bs, k + 1, Carve(bs[k], needed))
    ensures Carve(bs[k], needed) != [] && Carve(bs[k], needed)[0].addr == bs[k].addr
  {
    hide Decode;
  }

  lemma MarkedHeader(s: seq<Byte>, base: nat, bs: seq<Blk>, n: nat)
    requires base <= WORD && n < |bs| && bs[n].addr + HEADER <= |s|
    requires Decode(s, base, bs[n].addr) == Header(bs[n].size, NextOf(bs, n), true)
    ensures NewHeaders(s, base, bs, n + 1, [bs[n].(free := true)])
  {
    hide Decode;
  }

  lemma AbsorbedHeader(s: seq<Byte>, base: nat, bs: seq<Blk>, k: nat, merged: Blk)
    requires base <= WORD && k + 1 < |bs| && bs[k].addr + HEADER <= |s|
    requires merged == Blk(bs[k].addr, bs[k].size + HEADER + bs[k + 1].size, true)
    requires Decode(s, base, bs[k].addr) == Header(merged.size, NextOf(bs, k + 1), true)
    ensures NewHeaders(s, base, bs, k + 2, [merged])
  {
    hide Decode;
  }

  lemma MarkIsSplice(bs: seq<Blk>, n: nat)
    requires Tiles(bs, 0, ARENA) && n < |bs|
    ensures Mark(bs, bs[n].addr) == bs[..n] + [bs[n].(free := true)] + bs[n + 1..]
  {
    hide Tiles;
    TilesOrder(bs, 0, ARENA);
    var cs := bs[..n] + [bs[n].(free := true)] + bs[n + 1..];
    forall i: nat | i < |bs| ensures Mark(bs, bs[n].addr)[i] == cs[i] {
      assert i != n ==> bs[i].addr != bs[n].addr;
    }
  }

  /** Bytes still in use after a block is marked free were in use before, and not in that block. */
  lemma MarkPayload(bs: seq<Blk>, n: nat)
    requires Tiles(bs, 0, ARENA) && n < |bs|
    ensures forall i :: InPayload(Mark(bs, bs[n].addr), i) ==> InPayload(bs, i) && !(bs[n].addr <= i < bs[n].End())
  {
    hide Tiles;
    TilesOrder(bs, 0, ARENA);
    var cs := Mark(bs, bs[n].addr);
    forall i | InPayload(cs, i) ensures InPayload(bs, i) && !(bs[n].addr <= i < bs[n].End()) {
      var j :| 0 <= j < |cs| && !cs[j].free && cs[j].Payload() <= i < cs[j].End();
      assert bs[j] == cs[j] && j != n;
    }
  }

  lemma CoalesceUnfold(done: seq<Blk>, rest: seq<Blk>)
    requires rest != []
    ensures if |rest| > 1 && rest[0].free && rest[1].free
            then Coalesce(rest) == Coalesce([Blk(rest[0].addr, rest[0].size + HEADER + rest[1].size, true)] + rest[2..])
            else done + Coalesce(rest) == (done + [rest[0]]) + Coalesce(rest[1..])
  {
    hide Coalesce;
    if |rest| > 1 && rest[0].free && rest[1].free {
      CoalesceMerges(rest);
    } else {
      CoalesceSkip(rest);
      assert done + ([rest[0]] + Coalesce(rest[1..])) == (done + [rest[0]]) + Coalesce(rest[1..]);
    }
  }

  lemma CoalesceMerges(rest: seq<Blk>)
    requires |rest| > 1 && rest[0].free && rest[1].free
    ensures Coalesce(rest) == Coalesce([Blk(rest[0].addr, rest[0].size + HEADER + rest[1].size, true)] + rest[2..])
  {
  }

  lemma CoalesceSkip(rest: seq<Blk>)
    requires rest != [] && !(|rest| > 1 && rest[0].free && rest[1].free)
    ensures Coalesce(rest) == [rest[0]] + Coalesce(rest[1..])
  {
    if |rest| == 1 {
      assert rest[1..] == [] && Coalesce(rest) == rest;
    }
  }

  /** Replacing the first two blocks ahead by one. */
  lemma SpliceRest(done: seq<Blk>, rest: seq<Blk>, merged: Blk)
    requires |rest| >= 2
    ensures var bs := done + rest; bs[..|done|] + [merged] + bs[|done| + 2..] == done + ([merged] + rest[2..])
  {
  }

  lemma NextRest(done: seq<Blk>, rest: seq<Blk>)
    requires rest != []
    ensures done + rest == (done + [rest[0]]) + rest[1..]
  {
  }

  lemma NoRest(done: seq<Blk>)
    ensures done + [] == done
  {
  }

  lemma CoalesceNil()
    ensures Coalesce([]) == []
  {
  }

  lemma AbsorbPayload(bs: seq<Blk>, k: nat, merged: Blk)
    requires k + 1 < |bs| && merged.free
    ensures forall i :: InPayload(bs[..k] + [merged] + bs[k + 2..], i) ==> InPayload(bs, i)
  {
    var cs := bs[..k] + [merged] + bs[k + 2..];
    forall i | InPayload(cs, i) ensures InPayload(bs, i) {
      var j :| 0 <= j < |cs| && !cs[j].free && cs[j].Payload() <= i < cs[j].End();
      assert cs[j] == if j < k then bs[j] else bs[j + 1];
    }
  }

  lemma AbsorbTiles(bs: seq<Blk>, k: nat, merged: Blk)
    requires Tiles(bs, 0, ARENA) && k + 1 < |bs|
    requires merged == Blk(bs[k].addr, bs[k].size + HEADER + bs[k + 1].size, true)
    ensures Tiles(bs[..k] + [merged] + bs[k + 2..], 0, ARENA)
  {
    hide Tiles;
    TilesNext(bs, 0, ARENA, k);
    TilesNext(bs, 0, ARENA, k + 1);
    TilesSplit(bs, 0, ARENA, k);
    TilesSplit(bs, 0, ARENA, k + 2);
    TilesOrder(bs, 0, ARENA);
    OneTile(merged);
    TilesJoin([merged], bs[k + 2..], bs[k].addr, merged.End(), ARENA);
    TilesJoin(bs[..k], [merged] + bs[k + 2..], 0, bs[k].addr, ARENA);
    assert bs[..k] + ([merged] + bs[k + 2..]) == bs[..k] + [merged] + bs[k + 2..];
  }

  lemma OneTile(b: Blk)
    ensures Tiles([b], b.addr, b.End())
  {
    assert [b][1..] == [];
  }
}
