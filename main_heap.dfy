/**
  The boot binary's own copy of the bump heap allocator. It differs from the
  library's only in `align_up`, which rounds with a remainder instead of a
  bit mask and so accepts any non-zero alignment.
*/
module MainHeap {
  import opened Prelude
  import LibHeap

  /** The boot sequence's heap: 100 KiB from the same base as the library's. */
  const BOOT_HEAP_START: Usize := 0x4444_4444_0000
  const BOOT_HEAP_SIZE: Usize := 100 * 1024

  /**
    `AlignUp` neither divides by zero nor wraps: an aligned `addr` is
    returned as it is, any other is rounded to a multiple that must fit.
  */
  predicate AlignUpDefined(addr: Usize, align: Usize)
  {
    align > 0 && (addr % align == 0 || addr - addr % align + align < USIZE_LIMIT)
  }

  /**
    Rounds `addr` up to a multiple of `align`: an aligned address is kept,
    any other moves to the next multiple, strictly between `addr` and
    `addr + align`.
  */
  function AlignUp(addr: Usize, align: Usize): (r: Usize)
    requires AlignUpDefined(addr, align)
    ensures addr % align == 0 ==> r == addr
    ensures addr % align != 0 ==> addr < r < addr + align
    ensures r % align == 0
  {
    var remainder := addr % align;
    if remainder == 0 then
      addr
    else
      assert addr - remainder == align * (addr / align);
      MultipleMod(align, addr / align + 1);
      assert addr - remainder + align == align * (addr / align + 1);
      addr - remainder + align
  }

  /** No multiple of `align` lies in `[addr, AlignUp(addr, align))`: the result is the least one at or above `addr`. */
  lemma AlignUpIsLeast(addr: Usize, align: Usize, m: nat)
    requires AlignUpDefined(addr, align)
    requires m % align == 0 && addr <= m
    ensures AlignUp(addr, align) <= m
  {
    var r := AlignUp(addr, align);
    if m < r {
      MultiplesApart(align, m, r);
    }
  }

  /** On power-of-two alignments the remainder rounding and the library's bit-mask rounding agree. */
  lemma AlignUpAgrees(addr: Usize, align: Usize)
    requires IsPowerOfTwo(align) && addr + align < USIZE_LIMIT
    ensures AlignUpDefined(addr, align)
    ensures AlignUp(addr, align) == LibHeap.AlignUp(addr, align)
  {
    var masked := LibHeap.AlignUp(addr, align);
    assert AlignUpDefined(addr, align);
    var r := AlignUp(addr, align);
    if r <= masked {
      MultiplesApart(align, r, masked);
    } else {
      MultiplesApart(align, masked, r);
    }
  }

  /**
    Where `alloc` places a block of `layout` in `[heapStart, heapEnd)`: the
    rounded-up start, provided `checked_add` does not wrap and the block ends
    by `heapEnd`; None otherwise.
  */
  function AllocStart(heapStart: Usize, heapEnd: Usize, layout: LibHeap.Layout): (r: Option<Usize>)
    requires AlignUpDefined(heapStart, layout.align)
    ensures r.Some? ==> r.value % layout.align == 0 && heapStart <= r.value < heapStart + layout.align
    ensures r.Some? ==> r.value + layout.size <= heapEnd
    ensures r.None? <==> AlignUp(heapStart, layout.align) + layout.size > heapEnd
  {
    var allocStart := AlignUp(heapStart, layout.align);
    match CheckedAdd(allocStart, layout.size)
    case None => None
    case Some(allocEnd) => if allocEnd <= heapEnd then Some(allocStart) else None
  }

  /** For power-of-two alignments both allocators place every block at the same address or both refuse it. */
  lemma AllocStartAgrees(heapStart: Usize, heapEnd: Usize, layout: LibHeap.Layout)
    requires IsPowerOfTwo(layout.align) && heapStart + layout.align < USIZE_LIMIT
    ensures AlignUpDefined(heapStart, layout.align)
    ensures AllocStart(heapStart, heapEnd, layout) == LibHeap.AllocStart(heapStart, heapEnd, layout)
  {
    AlignUpAgrees(heapStart, layout.align);
  }

  class HeapAllocator {
    var heapStart: Usize
    var heapEnd: Usize

    /** The allocator before `init`: an empty window at address 0. */
    constructor ()
      ensures heapStart == 0 && heapEnd == 0
    {
      heapStart, heapEnd := 0, 0;
    }

    /** Takes `[start, start + size)` as the heap. */
    method Init(start: Usize, size: Usize)
      requires start + size < USIZE_LIMIT
      modifies this
      ensures heapStart == start && heapEnd == start + size
    {
      heapStart := start;
      heapEnd := start + size;
    }

    /**
      Cuts an aligned block for `layout` from the bottom of the window and
      moves the bottom past it; returns NULL and changes nothing when the
      end would wrap or pass `heapEnd`.
    */
    method Alloc(layout: LibHeap.Layout) returns (ptr: Usize)
      requires AlignUpDefined(heapStart, layout.align)
      modifies this
      ensures heapEnd == old(heapEnd) && heapStart >= old(heapStart)
      ensures var block := AllocStart(old(heapStart), old(heapEnd), layout);
        && (block.Some? ==> ptr == block.value && heapStart == block.value + layout.size)
        && (block.None? ==> ptr == LibHeap.NULL && heapStart == old(heapStart))
    {
      var allocStart := AlignUp(heapStart, layout.align);
      var allocEnd;
      match CheckedAdd(allocStart, layout.size) {
        case None => return LibHeap.NULL;
        case Some(end) => allocEnd := end;
      }
      if allocEnd <= heapEnd {
        heapStart := allocEnd;
        ptr := allocStart;
      } else {
        ptr := LibHeap.NULL;
      }
    }

    /** Freeing is not implemented: nothing changes. */
    method Dealloc(ptr: Usize, layout: LibHeap.Layout)
      ensures heapStart == old(heapStart) && heapEnd == old(heapEnd)
    {
    }
  }

  /**
    The boot sequence's heap set-up followed by two allocations: 8 bytes
    at alignment 8 from the base, then 16 bytes at alignment 16, which skips
    the 8 bytes up to the next multiple of 16.
  */
  method BootHeapScenario()
  {
    var allocator := new HeapAllocator();
    allocator.Init(BOOT_HEAP_START, BOOT_HEAP_SIZE);
    var first := allocator.Alloc(LibHeap.Layout(8, 8));
    assert first == BOOT_HEAP_START;
    var second := allocator.Alloc(LibHeap.Layout(16, 16));
    assert second == BOOT_HEAP_START + 16;
    assert allocator.heapStart == BOOT_HEAP_START + 32;
  }
}
