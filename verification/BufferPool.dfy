/**
 The GPU buffer-object table as a value: 256 slots over a pool that only grows.
 */
module BufferPool {
  import opened Wrappers

  const U32_MOD: nat := 0x1_0000_0000
  const PAGE: nat := 0x1000
  const POOL_BASE: nat := 0xF000_0000
  const POOL_SIZE: nat := 256 * 1024 * 1024
  const MAX_BOS: nat := 256

  /** The physical address is also the address that the GPU sees. */
  datatype Object = Object(handle: nat, size: nat, addr: nat, inUse: bool)

  datatype Pool = Pool(table: seq<Object>, nextHandle: nat, next: nat)

  datatype Event = Alloc(size: nat) | Free(handle: nat)

  /** A size rounded up to a page, in 32 bits. */
  function Aligned(size: nat): nat { (size + 0xFFF) % U32_MOD / PAGE * PAGE }

  function Initial(): Pool {
    Pool(seq(MAX_BOS, _ => Object(0, 0, 0, false)), 1, POOL_BASE)
  }

  function FreeSlot(table: seq<Object>, i: nat): (r: Option<nat>)
    requires i <= |table|
    ensures r.Some? ==> i <= r.value < |table| && !table[r.value].inUse && forall j :: i <= j < r.value ==> table[j].inUse
    ensures r.None? ==> forall j :: i <= j < |table| ==> table[j].inUse
    decreases |table| - i
  {
    if i == |table| then None else if !table[i].inUse then Some(i) else FreeSlot(table, i + 1)
  }

  function SlotOf(table: seq<Object>, handle: nat, i: nat): (r: Option<nat>)
    requires i <= |table|
    ensures r.Some? ==> i <= r.value < |table| && table[r.value].inUse && table[r.value].handle == handle
    ensures r.Some? ==> forall j :: i <= j < r.value ==> !(table[j].inUse && table[j].handle == handle)
    ensures r.None? ==> forall j :: i <= j < |table| ==> !(table[j].inUse && table[j].handle == handle)
    decreases |table| - i
  {
    if i == |table| then None else if table[i].inUse && table[i].handle == handle then Some(i) else SlotOf(table, handle, i + 1)
  }

  /** The object that an allocation hands out, and its slot. */
  function Granted(p: Pool, size: nat): Option<nat> {
    if p.next + Aligned(size) > POOL_BASE + POOL_SIZE then None else FreeSlot(p.table, 0)
  }

  function NewObject(p: Pool, size: nat): Object { Object(p.nextHandle, Aligned(size), p.next, true) }

  function Step(p: Pool, e: Event): Pool {
    match e
    case Alloc(size) =>
      var i := Granted(p, size);
      if i.None? then p
      else Pool(p.table[i.value := NewObject(p, size)], (p.nextHandle + 1) % U32_MOD, p.next + Aligned(size))
    case Free(handle) =>
      var i := SlotOf(p.table, handle, 0);
      if i.None? then p else p.(table := p.table[i.value := p.table[i.value].(inUse := false)])
  }

  function Run(p: Pool, es: seq<Event>): Pool {
    if es == [] then p else Step(Run(p, es[..|es| - 1]), es[|es| - 1])
  }

  /** What the last call hands out. */
  function Handed(p: Pool, e: Event): seq<Object> {
    if e.Alloc? && Granted(p, e.size).Some? then [NewObject(p, e.size)] else []
  }

  /** Every object handed out in a run, freed ones included. */
  function History(es: seq<Event>): seq<Object> {
    if es == [] then []
    else History(es[..|es| - 1]) + Handed(Run(Initial(), es[..|es| - 1]), es[|es| - 1])
  }

  /** Handles given out and not freed since. */
  function LiveHandles(es: seq<Event>): set<nat> {
    if es == [] then {}
    else
      var before, e := es[..|es| - 1], es[|es| - 1];
      if e.Free? then LiveHandles(before) - {e.handle}
      else LiveHandles(before) + set o | o in Handed(Run(Initial(), before), e) :: o.handle
  }
}
