/**
  The kernel library's bump heap allocator: a window `[heapStart, heapEnd)`
  from whose low end each allocation is cut, after rounding the start up to
  the requested alignment with a bit mask. Freeing does nothing.
*/
module LibHeap {
  import opened Prelude

  /** Where the library's heap begins. */
  const HEAP_START: Usize := 0x4444_4444_0000
  /** The library's heap size: 100 KiB. */
  const HEAP_SIZE: Usize := 100 * 1024

  /** The null pointer returned on failure. */
  const NULL: Usize := 0

  /** Largest `usize`: every bit set. */
  const USIZE_MAX: Usize := USIZE_LIMIT - 1

  /** A request for `size` bytes aligned to `align`, a power of two. */
  datatype Layout = Layout(size: Usize, align: Usize)

  /** Bitwise AND of two unsigned integers, bit by bit from the least significant. */
  function BitAnd(a: nat, b: nat): nat
    decreases a
  {
    if a == 0 || b == 0 then 0 else 2 * BitAnd(a / 2, b / 2) + (a % 2) * (b % 2)
  }

  /** Bitwise NOT of a `usize`. */
  function BitNot(a: Usize): Usize
  {
    USIZE_MAX - a
  }

  /** Powers of two multiply by adding exponents. */
  lemma {:induction false} Pow2Add(a: nat, b: nat)
    ensures Pow2(a + b) == Pow2(a) * Pow2(b)
    decreases b
  {
    if b > 0 {
      Pow2Add(a, b - 1);
      assert Pow2(a + b) == 2 * Pow2(a + b - 1);
    }
  }

  /** A `usize` has 64 bits. */
  lemma Usize64()
    ensures Pow2(64) == USIZE_LIMIT
  {
    assert Pow2(2) == 4;
    Pow2Add(2, 2);
    Pow2Add(4, 4);
    Pow2Add(8, 8);
    Pow2Add(16, 16);
    Pow2Add(32, 32);
  }

  /** Masking a `w`-bit number with `w` one bits keeps it whole. */
  lemma {:induction false} AndAllOnes(x: nat, w: nat)
    requires x < Pow2(w)
    ensures BitAnd(x, Pow2(w) - 1) == x
    decreases w
  {
    if x != 0 {
      var y := Pow2(w) - 1;
      assert w > 0;
      assert y / 2 == Pow2(w - 1) - 1 && y % 2 == 1;
      AndAllOnes(x / 2, w - 1);
    }
  }

  lemma ModDouble(x: nat, m: nat)
    requires m > 0
    ensures x % (2 * m) == x % 2 + 2 * ((x / 2) % m)
  {
    var q, r := (x / 2) / m, (x / 2) % m;
    assert x / 2 == m * q + r;
    assert x == (2 * m) * q + (x % 2 + 2 * r);
    DivModUnique(x, 2 * m, q, x % 2 + 2 * r);
  }

  /** Halving a mask of bits `k` to `w - 1`, with `k > 0`, gives the mask of bits `k - 1` to `w - 2`. */
  lemma HalveMask(w: nat, k: nat)
    requires 0 < k && Pow2(k) < Pow2(w)
    ensures w > 0 && Pow2(k) == 2 * Pow2(k - 1)
    ensures (Pow2(w) - Pow2(k)) % 2 == 0 && (Pow2(w) - Pow2(k)) / 2 == Pow2(w - 1) - Pow2(k - 1)
  {
  }

  /** An even mask keeps no low bit: the AND is twice the AND of the halves. */
  lemma AndEven(x: nat, m: nat)
    requires x > 0 && m > 0 && m % 2 == 0
    ensures BitAnd(x, m) == 2 * BitAnd(x / 2, m / 2)
  {
  }

  /**
    Masking a `w`-bit number with ones in bits `k` to `w - 1` clears its low
    `k` bits, that is, rounds it down to a multiple of `2^k`.
  */
  lemma {:induction false} AndHighMask(x: nat, w: nat, k: nat)
    requires Pow2(k) <= Pow2(w) && x < Pow2(w)
    ensures BitAnd(x, Pow2(w) - Pow2(k)) == x - x % Pow2(k)
    decreases k
  {
    var mask := Pow2(w) - Pow2(k);
    if k == 0 {
      AndAllOnes(x, w);
      assert x % Pow2(k) == 0;
    } else if mask == 0 {
      DivModUnique(x, Pow2(k), 0, x);
    } else if x != 0 {
      HalveMask(w, k);
      var p, h := Pow2(k - 1), x / 2;
      assert p <= Pow2(w - 1) && h < Pow2(w - 1);
      AndHighMask(h, w - 1, k - 1);
      AndEven(x, mask);
      ModDouble(x, p);
      assert BitAnd(x, mask) == 2 * (h - h % p);
      assert x % Pow2(k) == x % 2 + 2 * (h % p);
      assert x == 2 * h + x % 2;
    } else {
      assert BitAnd(x, mask) == 0;
      DivModUnique(x, Pow2(k), 0, 0);
    }
  }

  /** Clearing the low bits of a `usize` with `!(align - 1)` rounds it down to a multiple of `align`. */
  lemma MaskRoundsDown(b: Usize, align: Usize)
    requires IsPowerOfTwo(align)
    ensures BitAnd(b, BitNot(align - 1)) == b - b % align
  {
    Usize64();
    AndHighMask(b, 64, Log2(align));
  }

  /** `b - b % align` is the multiple of `align` in `(b - align, b]`. */
  lemma RoundDown(b: nat, align: nat)
    requires align > 0
    ensures (b - b % align) % align == 0 && b - align < b - b % align <= b
  {
    assert b - b % align == align * (b / align);
    MultipleMod(align, b / align);
  }

  /**
    Rounds `addr` up to a multiple of `align` by adding `align - 1` and
    clearing the low bits: the result is the least multiple of `align` that
    is at least `addr`. The addition must not wrap.
  */
  function AlignUp(addr: Usize, align: Usize): (r: Usize)
    requires IsPowerOfTwo(align) && addr + align < USIZE_LIMIT
    ensures r % align == 0 && addr <= r < addr + align
  {
    MaskRoundsDown(addr + align - 1, align);
    RoundDown(addr + align - 1, align);
    BitAnd(addr + align - 1, BitNot(align - 1))
  }

  /** No multiple of `align` lies in `[addr, AlignUp(addr, align))`. */
  lemma AlignUpIsLeast(addr: Usize, align: Usize, m: nat)
    requires IsPowerOfTwo(align) && addr + align < USIZE_LIMIT
    requires m % align == 0 && addr <= m
    ensures AlignUp(addr, align) <= m
  {
    var r := AlignUp(addr, align);
    if m < r {
      MultiplesApart(align, m, r);
    }
  }

  /**
    Where `alloc` places a block of `layout` in `[heapStart, heapEnd)`: the
    least aligned address from `heapStart` on, provided the block ends by
    `heapEnd`. A `checked_add` that would wrap and a block past the end both
    give None; since `heapEnd` is a `usize`, these are one condition.
  */
  function AllocStart(heapStart: Usize, heapEnd: Usize, layout: Layout): (r: Option<Usize>)
    requires IsPowerOfTwo(layout.align) && heapStart + layout.align < USIZE_LIMIT
    ensures r.Some? ==> r.value % layout.align == 0 && heapStart <= r.value < heapStart + layout.align
    ensures r.Some? ==> r.value + layout.size <= heapEnd
    ensures r.None? <==> AlignUp(heapStart, layout.align) + layout.size > heapEnd
  {
    var allocStart := AlignUp(heapStart, layout.align);
    match CheckedAdd(allocStart, layout.size)
    case None => None
    case Some(allocEnd) => if allocEnd <= heapEnd then Some(allocStart) else None
  }

  /** Every layout has a power-of-two alignment and cannot make `align_up` wrap below `heapEnd`. */
  predicate Allocatable(heapEnd: Usize, layouts: seq<Layout>)
  {
    forall i :: 0 <= i < |layouts| ==>
      IsPowerOfTwo(layouts[i].align) && heapEnd + layouts[i].align < USIZE_LIMIT
  }

  /** The outcomes of serving `layouts` one after another from `[heapStart, heapEnd)`. */
  function AllocSeries(heapStart: Usize, heapEnd: Usize, layouts: seq<Layout>): (blocks: seq<Option<Usize>>)
    requires heapStart <= heapEnd && Allocatable(heapEnd, layouts)
    ensures |blocks| == |layouts|
    decreases |layouts|
  {
    if layouts == [] then []
    else
      var first := AllocStart(heapStart, heapEnd, layouts[0]);
      var next := if first.Some? then first.value + layouts[0].size else heapStart;
      [first] + AllocSeries(next, heapEnd, layouts[1..])
  }

  /** Every block of a series lies within `[heapStart, heapEnd)`. */
  lemma {:induction false} SeriesWithin(heapStart: Usize, heapEnd: Usize, layouts: seq<Layout>, i: nat)
    requires heapStart <= heapEnd && Allocatable(heapEnd, layouts) && i < |layouts|
    ensures var block := AllocSeries(heapStart, heapEnd, layouts)[i];
      block.Some? ==> heapStart <= block.value && block.value + layouts[i].size <= heapEnd
    decreases i
  {
    var first := AllocStart(heapStart, heapEnd, layouts[0]);
    var next := if first.Some? then first.value + layouts[0].size else heapStart;
    if i > 0 {
      SeriesWithin(next, heapEnd, layouts[1..], i - 1);
    }
  }

  /** Successive successful allocations do not overlap: each begins at or after the end of every earlier one. */
  lemma {:induction false} SeriesDisjoint(heapStart: Usize, heapEnd: Usize, layouts: seq<Layout>, i: nat, j: nat)
    requires heapStart <= heapEnd && Allocatable(heapEnd, layouts) && i < j < |layouts|
    ensures var blocks := AllocSeries(heapStart, heapEnd, layouts);
      blocks[i].Some? && blocks[j].Some? ==> blocks[i].value + layouts[i].size <= blocks[j].value
    decreases i
  {
    var first := AllocStart(heapStart, heapEnd, layouts[0]);
    var next := if first.Some? then first.value + layouts[0].size else heapStart;
    if i == 0 {
      SeriesWithin(next, heapEnd, layouts[1..], j - 1);
    } else {
      SeriesDisjoint(next, heapEnd, layouts[1..], i - 1, j - 1);
    }
  }

  class HeapAllocator {
    var heapStart: Usize
    var heapEnd: Usize

    /** The allocator before `init`: an empty window at address 0. */
    constructor ()
      ensures heapStart == 0 && heapEnd == 0
    {
      heapStart, heapEnd := 0, 0;
    }

    /** Takes `[start, start + size)` as the heap. */
    method Init(start: Usize, size: Usize)
      requires start + size < USIZE_LIMIT
      modifies this
      ensures heapStart == start && heapEnd == start + size
    {
      heapStart := start;
      heapEnd := start + size;
    }

    /**
      Cuts a block for `layout` from the bottom of the window and moves the
      bottom past it; returns NULL and changes nothing when it does not fit.
    */
    method Alloc(layout: Layout) returns (ptr: Usize)
      requires IsPowerOfTwo(layout.align) && heapStart + layout.align < USIZE_LIMIT
      modifies this
      ensures heapEnd == old(heapEnd) && heapStart >= old(heapStart)
      ensures var block := AllocStart(old(heapStart), old(heapEnd), layout);
        && (block.Some? ==> ptr == block.value && heapStart == block.value + layout.size)
        && (block.None? ==> ptr == NULL && heapStart == old(heapStart))
    {
      var allocStart := AlignUp(heapStart, layout.align);
      var allocEnd;
      match CheckedAdd(allocStart, layout.size) {
        case None => return NULL;
        case Some(end) => allocEnd := end;
      }
      if allocEnd <= heapEnd {
        heapStart := allocEnd;
        ptr := allocStart;
      } else {
        ptr := NULL;
      }
    }

    /** Freeing is not implemented: nothing changes. */
    method Dealloc(ptr: Usize, layout: Layout)
      ensures heapStart == old(heapStart) && heapEnd == old(heapEnd)
    {
    }
  }

  /** Sets the allocator to the library's fixed 100 KiB heap. */
  method InitHeap(allocator: HeapAllocator)
    modifies allocator
    ensures allocator.heapStart == HEAP_START && allocator.heapEnd == HEAP_START + HEAP_SIZE
  {
    allocator.Init(HEAP_START, HEAP_SIZE);
  }

  /**
    Two `alloc` calls in a row on the same allocator return what the first
    two steps of `AllocSeries` predict, so the series lemmas speak about
    the allocator's own results.
  */
  method TwoAllocsFollowSeries(allocator: HeapAllocator, first: Layout, second: Layout)
      returns (p1: Usize, p2: Usize)
    requires allocator.heapStart <= allocator.heapEnd
    requires Allocatable(allocator.heapEnd, [first, second])
    modifies allocator
    ensures var blocks := AllocSeries(old(allocator.heapStart), old(allocator.heapEnd), [first, second]);
      && p1 == (if blocks[0].Some? then blocks[0].value else NULL)
      && p2 == (if blocks[1].Some? then blocks[1].value else NULL)
  {
    assert IsPowerOfTwo([first, second][0].align) && IsPowerOfTwo([first, second][1].align);
    var start, end := allocator.heapStart, allocator.heapEnd;
    p1 := allocator.Alloc(first);
    var block := AllocStart(start, end, first);
    var next := if block.Some? then block.value + first.size else start;
    assert allocator.heapStart == next && next <= end;
    p2 := allocator.Alloc(second);
    assert [first, second][1..] == [second];
    assert AllocSeries(start, end, [first, second]) == [block] + AllocSeries(next, end, [second]);
  }
}
