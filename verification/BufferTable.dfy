/**
 The buffer-object allocator in place: a fixed table of slots, the next handle,
 and the pool's bump pointer, with the requests that the driver answers from them.
 */
module BufferTable {
  import opened Wrappers
  import opened BufferPool

  class Driver {
    const table: array<Object>
    var nextHandle: nat
    var next: nat

    ghost predicate Valid()
      reads this
    {
      table.Length == MAX_BOS
    }

    function View(): Pool
      reads this, table
    {
      Pool(table[..], nextHandle, next)
    }

    constructor ()
      ensures Valid() && fresh(table) && View() == Initial()
    {
      table := new Object[MAX_BOS](_ => Object(0, 0, 0, false));
      nextHandle, next := 1, POOL_BASE;
    }

    /** The slot of a new object, if the pool and the table have room. */
    method BoAlloc(request: nat) returns (slot: Option<nat>)
      requires Valid()
      modifies this`nextHandle, this`next, table
      ensures View() == Step(old(View()), Alloc(request))
      ensures slot == Granted(old(View()), request)
      ensures slot.Some? ==> slot.value < table.Length && table[slot.value] == NewObject(old(View()), request)
    {
      var size := (request + 0xFFF) % U32_MOD / PAGE * PAGE;
      if next + size > POOL_BASE + POOL_SIZE { return None; }
      for i := 0 to table.Length
        invariant View() == old(View())
        invariant FreeSlot(table[..], 0) == FreeSlot(table[..], i)
      {
        if !table[i].inUse {
          table[i] := Object(nextHandle, size, next, true);
          nextHandle := (nextHandle + 1) % U32_MOD;
          next := next + size;
          return Some(i);
        }
      }
      slot := None;
    }

    method BoFind(handle: nat) returns (slot: Option<nat>)
      ensures slot == SlotOf(table[..], handle, 0)
    {
      for i := 0 to table.Length
        invariant SlotOf(table[..], handle, 0) == SlotOf(table[..], handle, i)
      {
        if table[i].inUse && table[i].handle == handle { return Some(i); }
      }
      slot := None;
    }

    method BoFree(handle: nat) returns (ok: bool)
      modifies table
      ensures View() == Step(old(View()), Free(handle))
      ensures ok == SlotOf(old(table[..]), handle, 0).Some?
    {
      var slot := BoFind(handle);
      if slot.None? { return false; }
      table[slot.value] := table[slot.value].(inUse := false);
      ok := true;
    }

    /** Handle and 32-bit offset of a new buffer; nothing when out of memory. */
    method CreateBo(size: nat) returns (r: Option<(nat, nat)>)
      requires Valid()
      modifies this`nextHandle, this`next, table
      ensures View() == Step(old(View()), Alloc(size))
      ensures r == if Granted(old(View()), size).None? then None else Some((old(nextHandle), old(next) % U32_MOD))
    {
      var slot := BoAlloc(size);
      if slot.None? { return None; }
      r := Some((table[slot.value].handle, table[slot.value].addr % U32_MOD));
    }

    /** The 64-bit mapping offset of a buffer. */
    method MmapBo(handle: nat) returns (r: Option<nat>)
      ensures var i := SlotOf(table[..], handle, 0); r == if i.None? then None else Some(table[i.value].addr)
    {
      var slot := BoFind(handle);
      r := if slot.None? then None else Some(table[slot.value].addr);
    }

    /** The 32-bit GPU offset of a buffer. */
    method GetBoOffset(handle: nat) returns (r: Option<nat>)
      ensures var i := SlotOf(table[..], handle, 0); r == if i.None? then None else Some(table[i.value].addr % U32_MOD)
    {
      var slot := BoFind(handle);
      r := if slot.None? then None else Some(table[slot.value].addr % U32_MOD);
    }
  }
}
