/**
  Sv39 page-table entries as 64-bit words, and the page allocator that hands
  out 4 KiB pages upward from the end of the kernel heap without ever taking
  one back.
*/
module Memory {
  import opened Prelude

  /** Base of the kernel heap in physical memory. */
  const HEAP_START: Usize := 0x8040_0000
  /** Size of the kernel heap: 1 MiB. */
  const HEAP_SIZE: Usize := 1024 * 1024
  /** Size of a page under Sv39. */
  const PAGE_SIZE: Usize := 4096

  /** The low 54 bits: what survives of a physical page number shifted past the 10 flag bits. */
  const PPN_MASK: bv64 := 0x3F_FFFF_FFFF_FFFF
  /** The 10 flag bits of an entry, the valid bit being bit 0. */
  const FLAGS_MASK: bv64 := 0x3FF

  /** An entry is valid when its bit 0 is set. */
  predicate EntryValid(word: bv64)
  {
    word & 1 == 1
  }

  /**
    The word `set_entry` stores: the page number above the 10 flag bits, the
    flags, and the valid bit forced on. The entry is valid whatever the
    inputs; with flags that fit their 10 bits, the page number (cut to 54
    bits) and the flags can be read back.
  */
  function EntryWord(ppn: bv64, flags: bv64): (word: bv64)
    ensures EntryValid(word)
    ensures flags <= FLAGS_MASK ==> word >> 10 == ppn & PPN_MASK && word & FLAGS_MASK == flags | 1
  {
    (ppn << 10) | flags | 1
  }

  /** An entry of a page table: a copyable 64-bit word. */
  class PageTableEntry {
    var word: bv64

    /** The empty entry: all bits clear, so not valid. */
    constructor NewEmpty()
      ensures word == 0 && !IsValid()
    {
      word := 0;
    }

    /** Bit 0 is the valid bit: an entry is valid exactly when its word is odd. */
    predicate IsValid()
      reads this
      ensures IsValid() <==> word % 2 == 1
    {
      EntryValid(word)
    }

    /** Points the entry at page `ppn` with `flags`, making it valid. */
    method SetEntry(ppn: bv64, flags: bv64)
      modifies this
      ensures word == EntryWord(ppn, flags) && IsValid()
    {
      word := (ppn << 10) | flags | 1;
    }
  }

  /** The first page handed out: just above the heap. */
  const FIRST_PAGE: Usize := HEAP_START + HEAP_SIZE

  /** Address of the `n`-th page handed out, counting from 0. */
  function PageAddress(n: nat): (address: nat)
    ensures address >= FIRST_PAGE
  {
    FIRST_PAGE + n * PAGE_SIZE
  }

  /** Every page handed out is page-aligned: the first page is, and each is one page above the last. */
  lemma PageAddressAligned(n: nat)
    ensures PageAddress(n) % PAGE_SIZE == 0
  {
    assert PageAddress(n) == PAGE_SIZE * (0x80500 + n);
    MultipleMod(PAGE_SIZE, 0x80500 + n);
  }

  /** Pages come out in increasing order, a whole page apart, so no two overlap. */
  lemma PagesDisjoint(i: nat, j: nat)
    requires i < j
    ensures PageAddress(i) + PAGE_SIZE <= PageAddress(j)
  {
    MulAtLeast(PAGE_SIZE, j - i);
    assert j * PAGE_SIZE == i * PAGE_SIZE + (j - i) * PAGE_SIZE;
  }

  class MemoryManager {
    var nextFreePage: Usize
    /** How many pages have been handed out so far. */
    ghost var pagesHandedOut: nat

    ghost predicate Valid()
      reads this
    {
      nextFreePage == PageAddress(pagesHandedOut)
    }

    /** Nothing handed out yet: the next page is the one just above the heap. */
    constructor ()
      ensures Valid() && pagesHandedOut == 0 && nextFreePage == HEAP_START + HEAP_SIZE
    {
      nextFreePage := HEAP_START + HEAP_SIZE;
      pagesHandedOut := 0;
    }

    /**
      Hands out the next page and moves past it. It never fails; only the
      `usize` addition could, and that must not wrap.
    */
    method AllocPage() returns (page: Option<Usize>)
      requires Valid() && nextFreePage + PAGE_SIZE < USIZE_LIMIT
      modifies this
      ensures Valid() && pagesHandedOut == old(pagesHandedOut) + 1
      ensures page == Some(old(nextFreePage)) && nextFreePage == old(nextFreePage) + PAGE_SIZE
      ensures page.value == PageAddress(old(pagesHandedOut))
    {
      page := Some(nextFreePage);
      nextFreePage := nextFreePage + PAGE_SIZE;
      pagesHandedOut := pagesHandedOut + 1;
    }
  }

  /** Two pages in a row: aligned, one page apart, the first just above the heap. */
  method TwoPagesScenario()
  {
    var manager := new MemoryManager();
    var first := manager.AllocPage();
    var second := manager.AllocPage();
    PageAddressAligned(1);
    assert first == Some(0x8050_0000) && second == Some(0x8050_1000);
    assert second.value % PAGE_SIZE == 0;
  }
}
