/**
 Over every run of allocations and frees: disjoint page-aligned ranges, handles
 that mean one object, and a bounded number of grants.
 */
module BufferLaws {
  import opened Wrappers
  import opened BufferPool

  // ---- Sizes.

  /** The rounding keeps the request unless it is within a page of 2^32; then it rounds to zero. */
  lemma AlignedIs(size: nat)
    requires size < U32_MOD
    ensures Aligned(size) % PAGE == 0
    ensures size <= U32_MOD - PAGE ==> size <= Aligned(size) < size + PAGE
    ensures size > U32_MOD - PAGE ==> Aligned(size) == 0
    ensures Aligned(size) >= size <==> size <= U32_MOD - PAGE
  {
  }

  // ---- The calls, field by field.

  /** 256 empty slots, handles from one, and 256 MiB in pages of 4096 bytes that end where 32-bit addresses do. */
  lemma Sizes()
    ensures PAGE == 4096 && MAX_BOS == 256 && POOL_SIZE == 268435456 && U32_MOD == POOL_BASE + POOL_SIZE == 4294967296
    ensures Initial() == Pool(seq(256, _ => Object(0, 0, 0, false)), 1, 4026531840)
  {
  }

  /** A grant fills the first free slot i, and moves handle and pool on; without room nothing changes. */
  lemma AllocDoes(p: Pool, size: nat, i: nat)
    requires i <= |p.table| && (forall j :: 0 <= j < i ==> p.table[j].inUse) && (i < |p.table| ==> !p.table[i].inUse)
    ensures Granted(p, size) == (if i < |p.table| && p.next + Aligned(size) <= 4294967296 then Some(i) else None)
    ensures i < |p.table| && p.next + Aligned(size) <= 4294967296 ==>
      var o := Object(p.nextHandle, Aligned(size), p.next, true);
      && Step(p, Alloc(size)) == Pool(p.table[i := o], (p.nextHandle + 1) % 4294967296, p.next + Aligned(size))
      && Handed(p, Alloc(size)) == [o]
    ensures !(i < |p.table| && p.next + Aligned(size) <= 4294967296) ==> Step(p, Alloc(size)) == p && Handed(p, Alloc(size)) == []
  {
    if FreeSlot(p.table, 0).Some? {
      var k := FreeSlot(p.table, 0).value;
      assert i < |p.table| && !(k < i) && !(i < k);
    }
  }

  /** A free clears the first slot i in use with that handle; without one nothing changes, and nothing is handed out. */
  lemma FreeDoes(p: Pool, handle: nat, i: nat)
    requires i <= |p.table| && forall j :: 0 <= j < i ==> !(p.table[j].inUse && p.table[j].handle == handle)
    requires i < |p.table| ==> p.table[i].inUse && p.table[i].handle == handle
    ensures SlotOf(p.table, handle, 0) == (if i < |p.table| then Some(i) else None)
    ensures Step(p, Free(handle)) == if i < |p.table| then p.(table := p.table[i := p.table[i].(inUse := false)]) else p
    ensures Handed(p, Free(handle)) == []
  {
    if SlotOf(p.table, handle, 0).Some? {
      var k := SlotOf(p.table, handle, 0).value;
      assert i < |p.table| && !(k < i) && !(i < k);
    }
  }

  /** Runs, histories and the live handles, one call longer; and which calls are proper. */
  lemma {:induction false} OneMoreCall(es: seq<Event>, e: Event)
    ensures Run(Initial(), es + [e]) == Step(Run(Initial(), es), e) && Run(Initial(), []) == Initial()
    ensures History(es + [e]) == History(es) + Handed(Run(Initial(), es), e) && History([]) == []
    ensures LiveHandles([]) == {}
    ensures e.Free? ==> LiveHandles(es + [e]) == LiveHandles(es) - {e.handle}
    ensures e.Alloc? && Granted(Run(Initial(), es), e.size).None? ==> LiveHandles(es + [e]) == LiveHandles(es)
    ensures e.Alloc? && Granted(Run(Initial(), es), e.size).Some? ==>
      LiveHandles(es + [e]) == LiveHandles(es) + {Run(Initial(), es).nextHandle}
    ensures IsProper(e) <==> e.Free? || 0 < e.size <= 4294963200
  {
    hide Step, Granted;
    assert (es + [e])[..|es|] == es;
  }

  /** Sums and counts, one object longer. */
  lemma {:induction false} OneMoreObject(objects: seq<Object>, o: Object)
    ensures TotalSize([]) == 0 && TotalSize(objects + [o]) == TotalSize(objects) + o.size
    ensures NonEmpty([]) == 0 && NonEmpty(objects + [o]) == if o.size == 0 then NonEmpty(objects) else NonEmpty(objects) + 1
  {
    assert (objects + [o])[..|objects|] == objects;
  }

  function TotalSize(objects: seq<Object>): nat {
    if objects == [] then 0 else TotalSize(objects[..|objects| - 1]) + objects[|objects| - 1].size
  }

  /** The objects lie end to end from the pool's base, each on a page. */
  ghost predicate Tiles(objects: seq<Object>) {
    forall k :: 0 <= k < |objects| ==>
      && objects[k].addr == POOL_BASE + TotalSize(objects[..k]) && objects[k].size % PAGE == 0
      && objects[k].addr % PAGE == 0
  }

  lemma TotalGrows(objects: seq<Object>, o: Object)
    ensures TotalSize(objects + [o]) == TotalSize(objects) + o.size
  {
    assert (objects + [o])[..|objects|] == objects;
  }

  lemma TilesGrow(objects: seq<Object>, o: Object)
    requires Tiles(objects) && o.addr == POOL_BASE + TotalSize(objects) && o.size % PAGE == 0 && o.addr % PAGE == 0
    ensures Tiles(objects + [o])
  {
    var more := objects + [o];
    forall k | 0 <= k < |more|
      ensures more[k].addr == POOL_BASE + TotalSize(more[..k]) && more[k].size % PAGE == 0 && more[k].addr % PAGE == 0
    {
      assert more[..k] == objects[..k];
      assert objects[..|objects|] == objects;
    }
  }

  /** All objects ever handed out tile the pool up to the bump pointer, which stays in the pool. */
  lemma {:induction false} HistoryTiles(es: seq<Event>)
    ensures var p, h := Run(Initial(), es), History(es);
      Tiles(h) && p.next == POOL_BASE + TotalSize(h) && p.next <= POOL_BASE + POOL_SIZE && p.next % PAGE == 0
    decreases |es|
  {
    hide FreeSlot, SlotOf, Tiles, TotalSize, History, Run, Aligned;
    if es == [] {
      NothingTiles();
      NoHistory();
    } else {
      var before, e := es[..|es| - 1], es[|es| - 1];
      HistoryTiles(before);
      HistoryUnfolds(es);
      var p, h := Run(Initial(), before), History(before);
      if e.Alloc? && Granted(p, e.size).Some? {
        var o := NewObject(p, e.size);
        AlignedPages(e.size);
        TilesGrow(h, o);
        TotalGrows(h, o);
      } else {
        assert h + [] == h;
      }
    }
  }

  lemma AlignedPages(size: nat)
    ensures Aligned(size) % PAGE == 0
  {
  }

  lemma NothingTiles()
    ensures Tiles([]) && TotalSize([]) == 0
  {
  }

  lemma {:induction false} TotalOrdered(objects: seq<Object>, i: nat, j: nat)
    requires i < j <= |objects|
    ensures TotalSize(objects[..i]) + objects[i].size <= TotalSize(objects[..j])
    decreases j
  {
    assert objects[..j][..j - 1] == objects[..j - 1];
    if i + 1 < j { TotalOrdered(objects, i, j - 1); }
  }

  /** No two objects ever handed out overlap, freed or not. */
  lemma {:induction false} RangesDisjoint(es: seq<Event>, i: nat, j: nat)
    requires i < j < |History(es)|
    ensures History(es)[i].addr + History(es)[i].size <= History(es)[j].addr
    ensures History(es)[j].addr + History(es)[j].size <= POOL_BASE + POOL_SIZE
  {
    hide TotalSize, History, Run;
    var h := History(es);
    HistoryTiles(es);
    TotalOrdered(h, i, j);
    TotalOrdered(h, j, |h|);
    assert h[..|h|] == h;
  }

  // ---- Handles.

  /** Requests that round to a whole number of pages, at least one. */
  ghost predicate Proper(es: seq<Event>) {
    forall k :: 0 <= k < |es| ==> IsProper(es[k])
  }

  predicate IsProper(e: Event) { e.Alloc? ==> 0 < e.size <= U32_MOD - PAGE }

  /** How many of the objects have any bytes. */
  function NonEmpty(objects: seq<Object>): (n: nat)
    ensures n <= |objects|
  {
    if objects == [] then 0 else NonEmpty(objects[..|objects| - 1]) + if objects[|objects| - 1].size > 0 then 1 else 0
  }

  lemma {:induction false} TotalAtLeast(objects: seq<Object>)
    requires forall k :: 0 <= k < |objects| ==> objects[k].size % PAGE == 0
    ensures TotalSize(objects) >= PAGE * NonEmpty(objects)
    decreases |objects|
  {
    if objects != [] { TotalAtLeast(objects[..|objects| - 1]); }
  }

  /** Over every run, whatever the requests: the pool gives out at most 65536 objects that have bytes. */
  lemma NonEmptyBounded(es: seq<Event>)
    ensures NonEmpty(History(es)) <= POOL_SIZE / PAGE == 65536
  {
    hide History, TotalSize, Run, NonEmpty;
    HistoryTiles(es);
    TotalAtLeast(History(es));
  }

  lemma {:induction false} AllNonEmpty(objects: seq<Object>)
    requires forall k :: 0 <= k < |objects| ==> objects[k].size >= PAGE
    ensures NonEmpty(objects) == |objects|
    decreases |objects|
  {
    if objects != [] { AllNonEmpty(objects[..|objects| - 1]); }
  }

  lemma {:induction false} SizesProper(es: seq<Event>)
    requires Proper(es)
    ensures forall k :: 0 <= k < |History(es)| ==> History(es)[k].size >= PAGE
    decreases |es|
  {
    hide Granted, Run;
    if es != [] {
      var e := es[|es| - 1];
      assert IsProper(e);
      SizesProper(es[..|es| - 1]);
      if e.Alloc? { AlignedIs(e.size); }
    }
  }

  /** If no request rounds to nothing, at most 65536 allocations ever succeed. */
  lemma {:induction false} GrantsBounded(es: seq<Event>)
    requires Proper(es)
    ensures |History(es)| <= POOL_SIZE / PAGE == 65536
  {
    hide History, Run, NonEmpty;
    SizesProper(es);
    AllNonEmpty(History(es));
    NonEmptyBounded(es);
  }

  /** Handles count up from one, and go round at 2^32, over every run. */
  lemma {:induction false} HandleOf(es: seq<Event>, k: nat)
    requires k < |History(es)|
    ensures History(es)[k].handle == (k + 1) % U32_MOD
    ensures Run(Initial(), es).nextHandle == (|History(es)| + 1) % U32_MOD
    decreases |es|
  {
    hide Run, History, Granted, Aligned;
    HandleNext(es);
    if es == [] {
      NoHistory();
    } else {
      HistoryUnfolds(es);
      var before := es[..|es| - 1];
      HandleNext(before);
      if k < |History(before)| { HandleOf(before, k); }
    }
  }

  lemma {:induction false} HandleNext(es: seq<Event>)
    ensures Run(Initial(), es).nextHandle == (|History(es)| + 1) % U32_MOD
    decreases |es|
  {
    hide Run, History, FreeSlot, SlotOf, Aligned;
    if es == [] {
      NoHistory();
    } else {
      HistoryUnfolds(es);
      HandleNext(es[..|es| - 1]);
    }
  }

  lemma NoHistory()
    ensures History([]) == [] && Run(Initial(), []) == Initial()
  {
  }

  /** All handles given out are different exactly when there were at most 2^32 grants. */
  lemma {:induction false} HandlesDifferIff(es: seq<Event>)
    ensures (forall i, j :: 0 <= i < j < |History(es)| ==> History(es)[i].handle != History(es)[j].handle)
      <==> |History(es)| <= U32_MOD
  {
    hide History, Run;
    var h := History(es);
    forall k: nat | k < |h| ensures h[k].handle == (k + 1) % U32_MOD {
      HandleOf(es, k);
    }
    if |h| > U32_MOD {
      assert h[0].handle == h[U32_MOD].handle;
    }
  }

  /** Handle k + 1 is the k-th grant, in every slot that is in use; and no two slots in use share one. */
  ghost predicate Linked(p: Pool, h: seq<Object>) {
    && |p.table| == MAX_BOS
    && p.nextHandle == (|h| + 1) % U32_MOD
    && (forall k :: 0 <= k < |h| ==> h[k].handle == k + 1)
    && (forall i :: 0 <= i < |p.table| && p.table[i].inUse ==> Holds(p.table[i], h))
    && (forall i, j :: 0 <= i < j < |p.table| && p.table[i].inUse && p.table[j].inUse ==> p.table[i].handle != p.table[j].handle)
  }

  /** The object is the one that its handle stands for. */
  ghost predicate Holds(o: Object, h: seq<Object>) {
    1 <= o.handle <= |h| && h[o.handle - 1] == o
  }

  lemma AllocLinks(p: Pool, h: seq<Object>, size: nat)
    requires Linked(p, h) && Granted(p, size).Some? && |h| + 1 < U32_MOD
    ensures Linked(Step(p, Alloc(size)), h + [NewObject(p, size)])
  {
    hide FreeSlot, Aligned;
    var o, h' := NewObject(p, size), h + [NewObject(p, size)];
    var q := Step(p, Alloc(size));
    forall i | 0 <= i < |q.table| && q.table[i].inUse ensures Holds(q.table[i], h') {
      if i != Granted(p, size).value { assert Holds(p.table[i], h); }
    }
    forall i | 0 <= i < |p.table| && p.table[i].inUse ensures p.table[i].handle != o.handle {
      assert Holds(p.table[i], h);
    }
  }

  lemma FreeLinks(p: Pool, h: seq<Object>, handle: nat)
    requires Linked(p, h)
    ensures Linked(Step(p, Free(handle)), h)
  {
    hide SlotOf, Holds;
  }

  lemma HistoryUnfolds(es: seq<Event>)
    requires es != []
    ensures var before := es[..|es| - 1];
      History(es) == History(before) + Handed(Run(Initial(), before), es[|es| - 1])
      && Run(Initial(), es) == Step(Run(Initial(), before), es[|es| - 1])
  {
    hide Step, Handed;
  }

  /** Fewer grants than there are handles. */
  predicate Few(es: seq<Event>) { |History(es)| < U32_MOD }

  lemma FewBefore(es: seq<Event>)
    requires es != [] && Few(es)
    ensures Few(es[..|es| - 1])
  {
    hide History;
    HistoryUnfolds(es);
  }

  lemma {:induction false} RunLinks(es: seq<Event>)
    requires Few(es)
    ensures Linked(Run(Initial(), es), History(es))
    decreases |es|
  {
    hide Run, History, Linked, Step, Granted;
    if es == [] {
      InitialLinked();
    } else {
      var before, e := es[..|es| - 1], es[|es| - 1];
      FewBefore(es);
      RunLinks(before);
      HistoryUnfolds(es);
      var p, h := Run(Initial(), before), History(before);
      if e.Free? {
        FreeLinks(p, h, e.handle);
        assert h + [] == h;
      } else if Granted(p, e.size).Some? {
        AllocLinks(p, h, e.size);
      } else {
        NotGranted(p, e.size);
        assert h + [] == h;
      }
    }
  }

  lemma NotGranted(p: Pool, size: nat)
    requires Granted(p, size).None?
    ensures Step(p, Alloc(size)) == p
  {
  }

  lemma InitialLinked()
    ensures Linked(Run(Initial(), []), History([]))
  {
  }

  /** Every handle ever given out is different, and finds exactly the object it was given for, or nothing. */
  lemma {:induction false} HandlesUnique(es: seq<Event>, handle: nat)
    requires Few(es)
    ensures var p, h, i := Run(Initial(), es), History(es), SlotOf(Run(Initial(), es).table, handle, 0);
      && (forall k :: 0 <= k < |h| ==> h[k].handle == k + 1)
      && (i.Some? ==> 1 <= handle <= |h| && p.table[i.value] == h[handle - 1])
      && (i.Some? ==> forall j :: 0 <= j < |p.table| && j != i.value ==> !(p.table[j].inUse && p.table[j].handle == handle))
  {
    hide Run, History, SlotOf;
    RunLinks(es);
    var p, h, i := Run(Initial(), es), History(es), SlotOf(Run(Initial(), es).table, handle, 0);
    if i.Some? { assert Holds(p.table[i.value], h); }
  }

  ghost function InUse(p: Pool): (hs: set<nat>) {
    set i | 0 <= i < |p.table| && p.table[i].inUse :: p.table[i].handle
  }

  lemma AllocInUse(p: Pool, h: seq<Object>, size: nat)
    requires Linked(p, h) && Granted(p, size).Some? && |h| + 1 < U32_MOD
    ensures InUse(Step(p, Alloc(size))) == InUse(p) + {p.nextHandle}
  {
    hide FreeSlot, Holds, Aligned;
    var q, k := Step(p, Alloc(size)), Granted(p, size).value;
    forall x | x in InUse(p) ensures x in InUse(q) {
      var i :| 0 <= i < |p.table| && p.table[i].inUse && p.table[i].handle == x;
      assert q.table[i] == p.table[i];
    }
    assert q.table[k].inUse && q.table[k].handle == p.nextHandle;
  }

  lemma FreeInUse(p: Pool, h: seq<Object>, handle: nat)
    requires Linked(p, h)
    ensures InUse(Step(p, Free(handle))) == InUse(p) - {handle}
  {
    hide Holds;
    var q := Step(p, Free(handle));
    forall x | x in InUse(p) && x != handle ensures x in InUse(q) {
      var i :| 0 <= i < |p.table| && p.table[i].inUse && p.table[i].handle == x;
      assert q.table[i] == p.table[i];
    }
  }

  /** A handle finds an object exactly when it was given out and not freed since. */
  lemma {:induction false} LookupIff(es: seq<Event>, handle: nat)
    requires Few(es)
    ensures SlotOf(Run(Initial(), es).table, handle, 0).Some? <==> handle in LiveHandles(es)
  {
    hide Run, LiveHandles, SlotOf;
    LiveAreInUse(es);
  }

  lemma {:induction false} LiveAreInUse(es: seq<Event>)
    requires Few(es)
    ensures InUse(Run(Initial(), es)) == LiveHandles(es)
    decreases |es|
  {
    hide Run, History, Linked, Step, InUse, Granted;
    if es == [] {
      NoneInUse();
    } else {
      var before, e := es[..|es| - 1], es[|es| - 1];
      FewBefore(es);
      LiveAreInUse(before);
      RunLinks(before);
      HistoryUnfolds(es);
      var p := Run(Initial(), before);
      if e.Free? {
        FreeInUse(p, History(before), e.handle);
      } else if Granted(p, e.size).Some? {
        AllocInUse(p, History(before), e.size);
      } else {
        NotGranted(p, e.size);
      }
    }
  }

  lemma NoneInUse()
    ensures InUse(Run(Initial(), [])) == {}
  {
  }

  // ---- When a request is granted.

  function UsedBelow(table: seq<Object>, k: nat): (n: nat)
    requires k <= |table|
    ensures n <= k
  {
    if k == 0 then 0 else UsedBelow(table, k - 1) + if table[k - 1].inUse then 1 else 0
  }

  lemma {:induction false} UsedAll(table: seq<Object>, k: nat)
    requires k <= |table|
    ensures UsedBelow(table, k) == k <==> forall i :: 0 <= i < k ==> table[i].inUse
    decreases k
  {
    if k > 0 { UsedAll(table, k - 1); }
  }

  /** Slots in use and handles in use are equally many. */
  lemma {:induction false} UsedCount(p: Pool, h: seq<Object>, k: nat)
    requires Linked(p, h) && k <= |p.table|
    ensures |InUse(p.(table := p.table[..k]))| == UsedBelow(p.table, k)
    decreases k
  {
    hide Holds;
    var a := InUse(p.(table := p.table[..k]));
    if k == 0 {
      assert a == {};
    } else {
      UsedCount(p, h, k - 1);
      var b, o := InUse(p.(table := p.table[..k - 1])), p.table[k - 1];
      assert o.inUse ==> a == b + {o.handle} && o.handle !in b by { OneMore(p, k); }
      assert !o.inUse ==> a == b by { OneMore(p, k); }
    }
  }

  lemma OneMore(p: Pool, k: nat)
    requires 0 < k <= |p.table|
    ensures var a, b, o := InUse(p.(table := p.table[..k])), InUse(p.(table := p.table[..k - 1])), p.table[k - 1];
      a == b + if o.inUse then {o.handle} else {}
  {
    var a, b := p.table[..k], p.table[..k - 1];
    forall x | x in InUse(p.(table := a)) ensures x in InUse(p.(table := b)) || (a[k - 1].inUse && x == a[k - 1].handle) {
      var i :| 0 <= i < k && a[i].inUse && a[i].handle == x;
      if i < k - 1 { assert b[i] == a[i]; }
    }
    forall x | x in InUse(p.(table := b)) ensures x in InUse(p.(table := a)) {
      var i :| 0 <= i < k - 1 && b[i].inUse && b[i].handle == x;
      assert a[i] == b[i];
    }
    assert a[k - 1] == p.table[k - 1];
  }

  /** A request is granted exactly when the rest of the pool holds it and fewer than 256 handles are live. */
  lemma {:induction false} GrantedIff(es: seq<Event>, size: nat)
    requires Few(es)
    ensures Granted(Run(Initial(), es), size).Some? <==>
      TotalSize(History(es)) + Aligned(size) <= POOL_SIZE && |LiveHandles(es)| < MAX_BOS
  {
    hide Run, History, InUse, LiveHandles, TotalSize, Aligned, Tiles;
    var p := Run(Initial(), es);
    HistoryTiles(es);
    RunLinks(es);
    LiveAreInUse(es);
    UsedCount(p, History(es), |p.table|);
    UsedAll(p.table, |p.table|);
    assert p.table[..|p.table|] == p.table;
    assert p.(table := p.table) == p;
  }

  // ---- Offsets.

  /** The 32-bit offset of an object equals its address exactly when the pool was not yet full. */
  lemma {:induction false} OffsetLosslessIff(es: seq<Event>, k: nat)
    requires k < |History(es)|
    ensures var o := History(es)[k];
      o.addr % U32_MOD == o.addr <==> TotalSize(History(es)[..k]) < POOL_SIZE
  {
    hide Run, History, TotalSize;
    var h := History(es);
    HistoryTiles(es);
    TotalOrdered(h, k, |h|);
    assert h[..|h|] == h;
  }

  /** The same of the next object, before it is granted. */
  lemma {:induction false} NextOffsetLosslessIff(es: seq<Event>, size: nat)
    requires Granted(Run(Initial(), es), size).Some?
    ensures var o := NewObject(Run(Initial(), es), size);
      o.addr % U32_MOD == o.addr <==> TotalSize(History(es)) < POOL_SIZE
  {
    hide Run, History, TotalSize, Tiles;
    HistoryTiles(es);
  }

  /** In particular every object of a page or more keeps its offset. */
  lemma {:induction false} OffsetLossless(es: seq<Event>, k: nat)
    requires k < |History(es)| && History(es)[k].size > 0
    ensures var o := History(es)[k]; POOL_BASE <= o.addr && o.addr + o.size <= U32_MOD && o.addr % U32_MOD == o.addr
  {
    hide Run, History, TotalSize;
    var h := History(es);
    HistoryTiles(es);
    TotalOrdered(h, k, |h|);
    assert h[..|h|] == h;
  }

  /** A request of zero bytes on a full pool is granted at 2^32, which the offset shows as zero. */
  lemma EmptyObjectLosesOffset()
    ensures var es := [Alloc(POOL_SIZE), Alloc(0)];
      && |History(es)| == 2 && History(es)[1].addr == U32_MOD && History(es)[1].addr % U32_MOD == 0
  {
    var a, b := [Alloc(POOL_SIZE)], [Alloc(POOL_SIZE), Alloc(0)];
    assert a[..0] == [] && b[..1] == a;
    var p := Run(Initial(), []);
    assert p == Initial() && FreeSlot(p.table, 0) == Some(0);
    assert History([]) == [];
    HistoryUnfolds(a);
    HistoryUnfolds(b);
    var q := Run(Initial(), a);
    assert Aligned(POOL_SIZE) == POOL_SIZE && Aligned(0) == 0;
    assert q.next == U32_MOD && q.table[1] == Object(0, 0, 0, false);
    assert Granted(q, 0).Some?;
  }
}
