/**
 * The physical memory manager (src/pmm.c): a packed bitmap with a cached free
 * count, built from the Multiboot memory map.
 */
module PhysicalMemory {
  import opened Machine32
  import opened Options
  import opened PageSet
  import opened Bitmap

  type Word32 = x: nat | x < WORD witness 0

  /** uint32 arithmetic. */
  function Low32(x: nat): Word32 { x % WORD }

  /** What a 32-bit load at an address yields. */
  type Memory = Word32 -> Word32

  const MULTIBOOT_MEMORY_AVAILABLE: nat := 1

  /** The fields of multiboot_info_t that pmm_init reads, flags 0 and 6 as booleans. */
  datatype BootInfo = BootInfo(hasMem: bool, memUpper: Word32, hasMap: bool, mapAddr: Word32, mapLength: Word32)

  /** A packed multiboot_mmap_entry. */
  datatype Entry = Entry(size: Word32, addrLow: Word32, addrHigh: Word32, lenLow: Word32, lenHigh: Word32, kind: Word32)
  {
    predicate Available() { kind == MULTIBOOT_MEMORY_AVAILABLE && addrHigh == 0 }

    /** The page bounds as the code computes them, in uint32. */
    function First(): Word32 { Low32(addrLow + PAGE_SIZE - 1) / PAGE_SIZE }
    function Last(): Word32 { Low32(addrLow + lenLow) / PAGE_SIZE }

    predicate Picks(page: nat) { Available() && First() <= page < Last() }

    /** The region the entry describes, with its 64-bit length. */
    function End(): nat { addrLow + lenLow + lenHigh * WORD }

    predicate Contains(page: nat) {
      kind == 1 && addrHigh == 0 && addrLow <= page * PAGE_SIZE && (page + 1) * PAGE_SIZE <= End()
    }
  }

  function EntryAt(mem: Memory, a: Word32): Entry {
    Entry(mem(a), mem(Low32(a + 4)), mem(Low32(a + 8)), mem(Low32(a + 12)), mem(Low32(a + 16)), mem(Low32(a + 20)))
  }

  /** The stride excludes the size field itself. */
  function Next(mem: Memory, a: Word32): Word32 { Low32(a + mem(a) + 4) }

  /** The walk from `a` passes `end` after at most `n` entries. */
  predicate WalkEnds(mem: Memory, a: Word32, end: Word32, n: nat)
    decreases n
  {
    a >= end || (n > 0 && WalkEnds(mem, Next(mem, a), end, n - 1))
  }

  function Entries(mem: Memory, a: Word32, end: Word32, n: nat): seq<Entry>
    requires WalkEnds(mem, a, end, n)
    decreases n
  {
    if a >= end then [] else [EntryAt(mem, a)] + Entries(mem, Next(mem, a), end, n - 1)
  }

  lemma EntriesUnfold(mem: Memory, a: Word32, end: Word32, n: nat, done: seq<Entry>)
    requires a < end && WalkEnds(mem, a, end, n)
    ensures n > 0 && WalkEnds(mem, Next(mem, a), end, n - 1)
    ensures done + Entries(mem, a, end, n) == done + [EntryAt(mem, a)] + Entries(mem, Next(mem, a), end, n - 1)
  {
  }

  function MapEnd(mb: BootInfo): Word32 { Low32(mb.mapAddr + mb.mapLength) }

  function MapEntries(mb: BootInfo, mem: Memory, n: nat): seq<Entry>
    requires mb.hasMap ==> WalkEnds(mem, mb.mapAddr, MapEnd(mb), n)
  {
    if mb.hasMap then Entries(mem, mb.mapAddr, MapEnd(mb), n) else []
  }

  function TotalPages(mb: BootInfo): nat {
    if mb.hasMem
    then var pages := Low32(1024 + mb.memUpper) / 4; if pages > MAX_PAGES then MAX_PAGES else pages
    else MAX_PAGES
  }

  function KernelPages(kernelEnd: Word32): nat { Low32(kernelEnd + PAGE_SIZE - 1) / PAGE_SIZE }

  predicate Picked(entries: seq<Entry>, page: nat) {
    exists e :: e in entries && e.Picks(page)
  }

  /** The set pmm_init leaves free, as the code's own arithmetic defines it. */
  function InitialFree(total: nat, entries: seq<Entry>, kernelPages: nat): set<nat> {
    set page: nat | page < total && kernelPages <= page && Picked(entries, page)
  }

  lemma PickedGrows(total: nat, done: seq<Entry>, e: Entry)
    ensures forall q: nat :: q in InitialFree(total, done + [e], 0) <==>
              q in InitialFree(total, done, 0) || (q < total && e.Picks(q))
  {
    forall q: nat ensures Picked(done + [e], q) <==> Picked(done, q) || e.Picks(q) {
      assert e in done + [e];
      if Picked(done, q) {
        var x :| x in done && x.Picks(q);
        assert x in done + [e];
      }
    }
  }

  // ---- What the set means ------------------------------------------------

  /** The pages of an available region below the total: what pmm_init is for. */
  predicate Covered(entries: seq<Entry>, page: nat) {
    exists e :: e in entries && e.Contains(page)
  }

  /**
   * The arithmetic of one entry is harmless: neither the rounding of the base
   * nor the end wraps 32 bits, or the wrapped bounds happen to select, below
   * the page total, what the region holds there.
   */
  predicate Harmless(e: Entry, total: nat) {
    e.Available() ==>
      if e.addrLow + PAGE_SIZE - 1 < WORD
      then e.End() < WORD || e.First() >= total || e.Last() >= total
      else e.Last() == 0 || total == 0
  }

  /** An entry frees exactly the pages wholly inside its region precisely when its arithmetic is harmless. */
  lemma EntryIsExactWhenHarmless(e: Entry, total: nat)
    requires total <= MAX_PAGES
    ensures (forall p: nat :: p < total ==> (e.Picks(p) <==> e.Contains(p))) <==> Harmless(e, total)
  {
    if e.Available() && !Harmless(e, total) {
      var p := if e.addrLow + PAGE_SIZE - 1 >= WORD then 0 else if e.Last() > e.First() then e.Last() else e.First();
      assert p < total && e.Picks(p) != e.Contains(p);
    }
  }

  /**
   * pmm_init on harmless maps: a page is free iff it is below the page total,
   * at or above the kernel's page count, and wholly inside an available entry.
   * Entry order and overlap do not matter.
   */
  lemma InitComputesAvailablePages(total: nat, entries: seq<Entry>, kernelPages: nat)
    requires total <= MAX_PAGES
    requires forall e :: e in entries ==> Harmless(e, total)
    ensures forall p: nat :: p in InitialFree(total, entries, kernelPages) <==>
              p < total && kernelPages <= p && Covered(entries, p)
  {
    forall e | e in entries ensures forall p: nat :: p < total ==> (e.Picks(p) <==> e.Contains(p)) {
      EntryIsExactWhenHarmless(e, total);
    }
    forall p: nat | p < total ensures Picked(entries, p) <==> Covered(entries, p) {
      if Picked(entries, p) {
        var e :| e in entries && e.Picks(p);
        assert e.Contains(p);
      }
      if Covered(entries, p) {
        var e :| e in entries && e.Contains(p);
        assert e.Picks(p);
      }
    }
  }

  /** A map whose last bytes reach 4 GiB: the end wraps to 0 and nothing is freed. */
  lemma WrappedEndLosesPages()
    ensures var e := Entry(20, 0x100000, 0, 0xFFF00000, 0, 1);
            !e.Picks(0x100) && e.Contains(0x100)
  {
  }

  // ---- What pmm_init leaves --------------------------------------------------

  /** The allocator pmm_init leaves. */
  function Initial(mb: BootInfo, mem: Memory, kernelEnd: Word32, n: nat): Pages
    requires mb.hasMap ==> WalkEnds(mem, mb.mapAddr, MapEnd(mb), n)
  {
    Pages(TotalPages(mb), InitialFree(TotalPages(mb), MapEntries(mb, mem, n), KernelPages(kernelEnd)))
  }

  /**
   * In bytes: a page counts exactly when its end lies within 1 MiB plus mem_upper KiB, that sum taken
   * in 32 bits of KiB, and within 256 MiB.
   */
  lemma TotalIsMemorySize(mb: BootInfo, mem: Memory, kernelEnd: Word32, n: nat, page: nat)
    requires mb.hasMap ==> WalkEnds(mem, mb.mapAddr, MapEnd(mb), n)
    ensures page < Initial(mb, mem, kernelEnd, n).total <==>
              && (page + 1) * 4096 <= 0x10000000
              && (mb.hasMem ==>
                    (page + 1) * 4096 <= 0x100000 + mb.memUpper * 1024
                                         - if mb.memUpper < 0xFFFFFC00 then 0 else 0x40000000000)
  {
  }

  /** The rounding up to whole pages, in bytes; when it wraps, no page counts as the kernel's. */
  lemma KernelPagesCover(kernelEnd: Word32, page: nat)
    ensures KernelPages(kernelEnd) <= page <==> kernelEnd <= page * 4096 || kernelEnd > 0xFFFFF000
  {
  }

  /**
   * On harmless maps a page is free exactly when it counts, lies wholly inside an available entry and
   * starts at or above the kernel's end, in whichever order the entries come and however they overlap.
   * If rounding up the kernel's end wraps 32 bits, the last condition is not asked.
   */
  lemma InitLeaves(mb: BootInfo, mem: Memory, kernelEnd: Word32, n: nat)
    requires mb.hasMap ==> WalkEnds(mem, mb.mapAddr, MapEnd(mb), n)
    requires forall e <- MapEntries(mb, mem, n) :: Harmless(e, Initial(mb, mem, kernelEnd, n).total)
    ensures var m := Initial(mb, mem, kernelEnd, n);
            forall page: nat :: page in m.free <==>
              && page < m.total && Covered(MapEntries(mb, mem, n), page)
              && (kernelEnd <= page * 4096 || kernelEnd > 0xFFFFF000)
  {
    hide KernelPages, TotalPages, MapEntries, Harmless, Covered;
    var m := Initial(mb, mem, kernelEnd, n);
    TotalIsBounded(mb);
    InitComputesAvailablePages(m.total, MapEntries(mb, mem, n), KernelPages(kernelEnd));
    forall page: nat
      ensures page in m.free <==>
                && page < m.total && Covered(MapEntries(mb, mem, n), page)
                && (kernelEnd <= page * 4096 || kernelEnd > 0xFFFFF000)
    {
      KernelPagesCover(kernelEnd, page);
    }
  }

  lemma TotalIsBounded(mb: BootInfo)
    ensures TotalPages(mb) <= MAX_PAGES
  {
  }

  /** So no byte below the kernel's end is allocatable, unless rounding it up wraps and some page is free at all. */
  lemma KernelIsProtectedExactlyWhen(mb: BootInfo, mem: Memory, kernelEnd: Word32, n: nat)
    requires mb.hasMap ==> WalkEnds(mem, mb.mapAddr, MapEnd(mb), n)
    requires forall e <- MapEntries(mb, mem, n) :: Harmless(e, Initial(mb, mem, kernelEnd, n).total)
    ensures var m := Initial(mb, mem, kernelEnd, n);
            (forall page: nat :: page in m.free ==> kernelEnd <= page * 4096) <==>
              kernelEnd <= 0xFFFFF000 || forall page: nat :: page < m.total ==> !Covered(MapEntries(mb, mem, n), page)
  {
    hide KernelPages, TotalPages, MapEntries, Harmless, Covered;
    InitLeaves(mb, mem, kernelEnd, n);
    TotalIsBounded(mb);
    var m := Initial(mb, mem, kernelEnd, n);
    if kernelEnd > 0xFFFFF000 {
      forall page: nat | page < m.total && Covered(MapEntries(mb, mem, n), page)
        ensures page in m.free && page * 4096 < kernelEnd
      {
      }
    }
  }

  /** With the kernel at 1 MiB (linker.ld) page 0 is never free: the result is Sound. */
  lemma InitIsSound(mb: BootInfo, mem: Memory, kernelEnd: Word32, n: nat)
    requires mb.hasMap ==> WalkEnds(mem, mb.mapAddr, MapEnd(mb), n)
    requires 0x100000 <= kernelEnd <= 0xFFFFF000
    ensures Sound(Initial(mb, mem, kernelEnd, n))
  {
    hide MapEntries;
    KernelPagesCover(kernelEnd, 0);
  }

  // ---- The map as a boot loader writes it ----------------------------------------

  /**
   * `entries` stand one after another from address `a` on, each six words with the size first, which
   * does not count itself (section 3.3 of the Multiboot Specification 0.6.96).
   */
  predicate HoldsMap(mem: Memory, a: nat, entries: seq<Entry>)
    decreases |entries|
  {
    entries != [] ==>
      var e := entries[0];
      && a + 20 < WORD && a + 4 + e.size < WORD
      && mem(a) == e.size && mem(a + 4) == e.addrLow && mem(a + 8) == e.addrHigh
      && mem(a + 12) == e.lenLow && mem(a + 16) == e.lenHigh && mem(a + 20) == e.kind
      && HoldsMap(mem, a + 4 + e.size, entries[1..])
  }

  /** The length of such a map in bytes. */
  function MapBytes(entries: seq<Entry>): nat {
    if entries == [] then 0 else 4 + entries[0].size + MapBytes(entries[1..])
  }

  lemma FirstEntryIsRead(mem: Memory, a: nat, entries: seq<Entry>)
    requires entries != [] && HoldsMap(mem, a, entries)
    ensures Next(mem, a) == a + 4 + entries[0].size && EntryAt(mem, a) == entries[0]
  {
    WordFits(a);
    WordFits(a + 20);
    WordFits(a + 4 + entries[0].size);
  }

  lemma WordFits(x: nat)
    requires x < WORD
    ensures Low32(x) == x
  {
  }

  lemma {:induction false} WalkReadsEntries(mem: Memory, a: nat, entries: seq<Entry>, n: nat)
    requires HoldsMap(mem, a, entries) && a + MapBytes(entries) < WORD
    ensures WalkEnds(mem, a, a + MapBytes(entries), |entries|)
    ensures WalkEnds(mem, a, a + MapBytes(entries), n) ==> Entries(mem, a, a + MapBytes(entries), n) == entries
    decreases |entries|
  {
    hide EntryAt, Next, Low32;
    if entries != [] {
      var b := a + 4 + entries[0].size;
      FirstEntryIsRead(mem, a, entries);
      WalkReadsEntries(mem, b, entries[1..], if n > 0 then n - 1 else 0);
      assert entries == [entries[0]] + entries[1..];
    }
  }

  /** The walk ends and reads back exactly the entries written, whatever their sizes. */
  lemma MapIsReadBack(mb: BootInfo, mem: Memory, entries: seq<Entry>, n: nat)
    requires mb.hasMap && HoldsMap(mem, mb.mapAddr, entries)
    requires mb.mapLength == MapBytes(entries) && mb.mapAddr + mb.mapLength < WORD
    ensures WalkEnds(mem, mb.mapAddr, MapEnd(mb), |entries|)
    ensures WalkEnds(mem, mb.mapAddr, MapEnd(mb), n) ==> MapEntries(mb, mem, n) == entries
  {
    hide Entries, WalkEnds, HoldsMap;
    WalkReadsEntries(mem, mb.mapAddr, entries, n);
  }

  // ---- Termination of the walk -------------------------------------------

  /** The address the walk from `a` has after `n` strides. */
  function Visit(mem: Memory, a: Word32, n: nat): Word32 {
    if n == 0 then a else Next(mem, Visit(mem, a, n - 1))
  }

  lemma {:induction false} VisitFromNext(mem: Memory, a: Word32, n: nat)
    ensures Visit(mem, Next(mem, a), n) == Visit(mem, a, n + 1)
  {
    if n > 0 { VisitFromNext(mem, a, n - 1); }
  }

  lemma {:induction false} OneMoreStride(mem: Memory, a: Word32, end: Word32, n: nat)
    ensures WalkEnds(mem, a, end, n + 1) <==> WalkEnds(mem, a, end, n) || Visit(mem, a, n + 1) >= end
    decreases n
  {
    VisitFromNext(mem, a, n);
    if n > 0 {
      OneMoreStride(mem, Next(mem, a), end, n - 1);
    } else {
      assert Visit(mem, a, 0) == a && Visit(mem, a, 1) == Next(mem, a);
    }
  }

  /** The walk has not ended after `n` strides: every address so far is below `end`. */
  lemma {:induction false} WalksOnBelowEnd(mem: Memory, a: Word32, end: Word32, n: nat)
    ensures !WalkEnds(mem, a, end, n) <==> forall k: nat :: k <= n ==> Visit(mem, a, k) < end
    decreases n
  {
    if n > 0 {
      OneMoreStride(mem, a, end, n - 1);
      WalksOnBelowEnd(mem, a, end, n - 1);
    } else {
      assert Visit(mem, a, 0) == a;
    }
  }

  /** The walk ends. */
  ghost predicate Ends(mem: Memory, a: Word32, end: Word32) {
    exists n: nat :: WalkEnds(mem, a, end, n)
  }

  lemma EndsAfter(mem: Memory, a: Word32, end: Word32, n: nat)
    requires WalkEnds(mem, a, end, n)
    ensures Ends(mem, a, end)
  {
  }

  /** The walk meets some address twice without having reached `end`. */
  ghost predicate Revisits(mem: Memory, a: Word32, end: Word32) {
    exists i: nat, j: nat ::
      i < j && Visit(mem, a, i) == Visit(mem, a, j) && !WalkEnds(mem, a, end, j)
  }

  /** Then it goes round for ever. */
  lemma {:induction false} RevisitingNeverEnds(mem: Memory, a: Word32, end: Word32, i: nat, j: nat, n: nat)
    requires i < j && Visit(mem, a, i) == Visit(mem, a, j) && !WalkEnds(mem, a, end, j)
    ensures !WalkEnds(mem, a, end, n)
    decreases n
  {
    WalksOnBelowEnd(mem, a, end, j);
    forall k: nat | k <= n ensures Visit(mem, a, k) < end {
      if k > j {
        SamePath(mem, a, i, j, k - j);
        RevisitingNeverEnds(mem, a, end, i, j, i + (k - j));
        WalksOnBelowEnd(mem, a, end, i + (k - j));
      }
    }
    WalksOnBelowEnd(mem, a, end, n);
  }

  lemma {:induction false} SamePath(mem: Memory, a: Word32, i: nat, j: nat, n: nat)
    requires Visit(mem, a, i) == Visit(mem, a, j)
    ensures Visit(mem, a, i + n) == Visit(mem, a, j + n)
  {
    if n > 0 { SamePath(mem, a, i, j, n - 1); }
  }

  /** Pairwise different numbers below `n` are at most `n` many. */
  lemma {:induction false} DistinctBelow(q: seq<nat>, n: nat)
    requires forall k :: 0 <= k < |q| ==> q[k] < n
    requires forall j, k :: 0 <= j < k < |q| ==> q[j] != q[k]
    ensures |q| <= n
    decreases n
  {
    assert forall k :: 0 <= k < |q| ==> q[k] in q;
    if q == [] {
    } else if n - 1 in q {
      assert q[0] < n;
      var i :| 0 <= i < |q| && q[i] == n - 1;
      DistinctBelow(q[..i] + q[i + 1..], n - 1);
    } else {
      assert q[0] < n;
      DistinctBelow(q, n - 1);
    }
  }

  /** More than `end` addresses below `end` cannot all be different. */
  lemma LongWalkRevisits(mem: Memory, a: Word32, end: Word32)
    requires !WalkEnds(mem, a, end, end)
    ensures Revisits(mem, a, end)
  {
    WalksOnBelowEnd(mem, a, end, end);
    var path: seq<nat> := seq(end + 1, k requires 0 <= k <= end => Visit(mem, a, k));
    forall k | 0 <= k < |path| ensures path[k] < end {
      assert Visit(mem, a, k) < end;
    }
    if forall j, k :: 0 <= j < k < |path| ==> path[j] != path[k] {
      DistinctBelow(path, end);
    }
    var i, j :| 0 <= i < j < |path| && path[i] == path[j];
    WalksOnBelowEnd(mem, a, end, j);
    assert Visit(mem, a, i) == Visit(mem, a, j);
  }

  /**
   * The walk ends exactly when no address is met twice on the way; and it can be
   * seen to by following it for as many entries as there are addresses below `end`.
   */
  lemma WalkEndsExactlyWhen(mem: Memory, a: Word32, end: Word32)
    ensures Ends(mem, a, end) <==> !Revisits(mem, a, end)
    ensures Ends(mem, a, end) <==> WalkEnds(mem, a, end, end)
  {
    if Revisits(mem, a, end) {
      var i: nat, j: nat :| i < j && Visit(mem, a, i) == Visit(mem, a, j) && !WalkEnds(mem, a, end, j);
      forall n: nat ensures !WalkEnds(mem, a, end, n) {
        RevisitingNeverEnds(mem, a, end, i, j, n);
      }
    } else if WalkEnds(mem, a, end, end) {
      EndsAfter(mem, a, end, end);
    } else {
      LongWalkRevisits(mem, a, end);
    }
  }

  /** No entry met on the way carries the walk past 32 bits. */
  predicate StridesStay(mem: Memory, a: Word32, end: Word32)
    decreases end - a
  {
    a < end ==> a + mem(a) + 4 < WORD && StridesStay(mem, Next(mem, a), end)
  }

  /** On such a map, every map that fits below 4 GiB, the walk ends. */
  lemma {:induction false} WalkEndsWithoutWrap(mem: Memory, a: Word32, end: Word32)
    requires StridesStay(mem, a, end)
    ensures WalkEnds(mem, a, end, end)
  {
    var n := EntriesLeft(mem, a, end);
    EndsAfter(mem, a, end, n);
    WalkEndsExactlyWhen(mem, a, end);
  }

  lemma {:induction false} EntriesLeft(mem: Memory, a: Word32, end: Word32) returns (n: nat)
    requires StridesStay(mem, a, end)
    ensures WalkEnds(mem, a, end, n)
    decreases end - a
  {
    n := 0;
    if a < end {
      n := EntriesLeft(mem, Next(mem, a), end);
      n := n + 1;
    }
  }

  /** `size + 4` not wrapping is not enough: addresses can, and then the walk revisits itself for ever. */
  lemma WalkMayNotEnd(n: nat)
    ensures var mem: Memory := _ => 0x7FFFFFFC;
            Revisits(mem, 0x80000000, 0x90000000) && !WalkEnds(mem, 0x80000000, 0x90000000, n)
  {
    var mem: Memory := _ => 0x7FFFFFFC;
    assert Visit(mem, 0x80000000, 1) == 0 && Visit(mem, 0x80000000, 2) == 0x80000000;
    assert !WalkEnds(mem, 0x80000000, 0x90000000, 2);
    RevisitingNeverEnds(mem, 0x80000000, 0x90000000, 0, 2, n);
  }

  class PageAllocator {
    const bitmap: array<bv32>
    var totalPages: nat
    var freePages: nat

    /** The cached count is the number of clear bits; bits at or above the total are set. */
    ghost predicate Valid()
      reads this, bitmap
    {
      && bitmap.Length == WORDS
      && totalPages <= MAX_PAGES
      && freePages == |FreeSet(bitmap[..])|
      && forall p :: p in FreeSet(bitmap[..]) ==> p < totalPages
    }

    ghost function View(): Pages
      reads this, bitmap
      requires bitmap.Length == WORDS
    {
      Pages(totalPages, FreeSet(bitmap[..]))
    }

    constructor ()
      ensures bitmap.Length == WORDS && fresh(bitmap)
    {
      bitmap := new bv32[WORDS];
      totalPages := 0;
      freePages := 0;
    }

    method BitmapSet(page: nat)
      requires bitmap.Length == WORDS && page < MAX_PAGES
      modifies bitmap
      ensures FreeSet(bitmap[..]) == old(FreeSet(bitmap[..])) - {page}
    {
      MarkRemoves(bitmap[..], page);
      ghost var marked := Mark(bitmap[..], page);
      bitmap[page / 32] := WithBit(bitmap[page / 32], Shift(page));
      assert bitmap[..] == marked;
    }

    method BitmapClear(page: nat)
      requires bitmap.Length == WORDS && page < MAX_PAGES
      modifies bitmap
      ensures FreeSet(bitmap[..]) == old(FreeSet(bitmap[..])) + {page}
    {
      UnmarkAdds(bitmap[..], page);
      ghost var unmarked := Unmark(bitmap[..], page);
      bitmap[page / 32] := WithoutBit(bitmap[page / 32], Shift(page));
      assert bitmap[..] == unmarked;
    }

    method BitmapTest(page: nat) returns (used: bool)
      requires bitmap.Length == WORDS && page < MAX_PAGES
      ensures used <==> page !in FreeSet(bitmap[..])
    {
      used := BitOf(bitmap[page / 32], Shift(page));
    }

    /** pmm_memset of the bitmap: every page used. */
    method FillBitmap()
      requires bitmap.Length == WORDS
      modifies bitmap
      ensures FreeSet(bitmap[..]) == {}
    {
      for i := 0 to WORDS
        invariant forall j :: 0 <= j < i ==> bitmap[j] == FULL
      {
        bitmap[i] := FULL;
      }
      forall page: nat ensures page !in FreeSet(bitmap[..]) {
        FullWordBits(Shift(page));
      }
    }

    /** The region loop of pmm_init for one entry. */
    method FreeRegion(e: Entry)
      requires Valid()
      modifies this`freePages, bitmap
      ensures Valid()
      ensures forall q: nat :: q in FreeSet(bitmap[..]) <==>
                q in old(FreeSet(bitmap[..])) || (q < totalPages && e.Picks(q))
    {
      hide FreeSet, Entry.First, Entry.Last;
      if e.Available() {
        var first, last := e.First(), e.Last();
        var p := first;
        ghost var before := FreeSet(bitmap[..]);
        while p < last && p < totalPages
          invariant first <= p && Valid()
          invariant p <= last || p == first
          invariant forall q: nat :: q in FreeSet(bitmap[..]) <==> q in before || (first <= q < p && q < totalPages)
        {
          var used := BitmapTest(p);
          if used {
            BitmapClear(p);
            freePages := freePages + 1;
          }
          p := p + 1;
        }
      }
    }

    /** The last loop of pmm_init; its guard on the count is never the deciding one. */
    method ProtectKernel(kernelPages: nat)
      requires Valid()
      modifies this`freePages, bitmap
      ensures Valid()
      ensures forall q: nat :: q in FreeSet(bitmap[..]) <==> q in old(FreeSet(bitmap[..])) && kernelPages <= q
    {
      hide FreeSet;
      var p := 0;
      ghost var before := FreeSet(bitmap[..]);
      while p < kernelPages && p < totalPages
        invariant p <= kernelPages && Valid()
        invariant forall q: nat :: q in FreeSet(bitmap[..]) <==> q in before && p <= q
      {
        var used := BitmapTest(p);
        if !used {
          assert freePages > 0;
          BitmapSet(p);
          if freePages > 0 {
            freePages := freePages - 1;
          }
        }
        p := p + 1;
      }
    }

    /** The walk over the memory map in pmm_init. */
    method WalkMap(start: Word32, end: Word32, mem: Memory, ghost n: nat)
      requires Valid() && FreeSet(bitmap[..]) == {}
      requires WalkEnds(mem, start, end, n)
      modifies this`freePages, bitmap
      ensures Valid()
      ensures FreeSet(bitmap[..]) == InitialFree(totalPages, Entries(mem, start, end, n), 0)
    {
      var entry: Word32 := start;
      ghost var left, done: seq<Entry> := n, [];
      while entry < end
        invariant Valid() && WalkEnds(mem, entry, end, left)
        invariant Entries(mem, start, end, n) == done + Entries(mem, entry, end, left)
        invariant FreeSet(bitmap[..]) == InitialFree(totalPages, done, 0)
        decreases left
      {
        var e := EntryAt(mem, entry);
        EntriesUnfold(mem, entry, end, left, done);
        FreeRegion(e);
        PickedGrows(totalPages, done, e);
        done := done + [e];
        entry := Next(mem, entry);
        left := left - 1;
      }
      assert done == Entries(mem, start, end, n);
    }

    /** pmm_init, for a map whose walk ends (after at most `n` entries). */
    method Init(mb: BootInfo, mem: Memory, kernelEnd: Word32, ghost n: nat)
      requires bitmap.Length == WORDS
      requires mb.hasMap ==> WalkEnds(mem, mb.mapAddr, MapEnd(mb), n)
      modifies this`totalPages, this`freePages, bitmap
      ensures Valid()
      ensures View() == Initial(mb, mem, kernelEnd, n)
      ensures (forall e <- MapEntries(mb, mem, n) :: Harmless(e, totalPages)) ==>
                forall page: nat :: page in View().free <==>
                  && page < totalPages && Covered(MapEntries(mb, mem, n), page)
                  && (kernelEnd <= page * 4096 || kernelEnd > 0xFFFFF000)
    {
      hide Harmless, Covered, WalkEnds;
      FillBitmap();
      freePages := 0;
      if mb.hasMem {
        totalPages := Low32(1024 + mb.memUpper) / 4;
        if totalPages > MAX_PAGES {
          totalPages := MAX_PAGES;
        }
      } else {
        totalPages := MAX_PAGES;
      }
      if mb.hasMap {
        WalkMap(mb.mapAddr, MapEnd(mb), mem, n);
      }
      ProtectKernel(KernelPages(kernelEnd));
      if forall e <- MapEntries(mb, mem, n) :: Harmless(e, totalPages) {
        InitLeaves(mb, mem, kernelEnd, n);
      }
    }

    /** The inner loop of pmm_alloc_page: a word other than 0xFFFFFFFF always yields a page. */
    method FirstClear(i: nat) returns (page: nat)
      requires bitmap.Length == WORDS && i < WORDS && bitmap[i] != FULL
      ensures page in FreeSet(bitmap[..]) && page / 32 == i
      ensures forall q: nat :: q in FreeSet(bitmap[..]) && q / 32 == i ==> page <= q
    {
      hide FreeSet;
      ghost var free := FreeSet(bitmap[..]);
      FullWordMeansUsed(bitmap[..], i);
      ghost var clear: nat :| clear in free && clear / 32 == i;
      for bit := 0 to 32
        invariant i * 32 + bit <= clear
        invariant forall q: nat :: i * 32 <= q < i * 32 + bit ==> q !in free
      {
        page := i * 32 + bit;
        var used := BitmapTest(page);
        if !used {
          return;
        }
      }
      assert false;
    }

    /** pmm_alloc_page: the lowest free page of the whole words below the total. */
    method AllocPage() returns (address: nat)
      requires Valid()
      modifies this`freePages, bitmap
      ensures Valid()
      ensures (View(), address) == PageSet.AllocPage(old(View()))
    {
      hide FreeSet;
      for i := 0 to totalPages / 32
        invariant Valid() && View() == old(View())
        invariant forall q: nat :: q < i * 32 ==> q !in FreeSet(bitmap[..])
      {
        FullWordMeansUsed(bitmap[..], i);
        if bitmap[i] != FULL {
          var page := FirstClear(i);
          AllocTakes(View(), page);
          BitmapSet(page);
          freePages := freePages - 1;
          return page * PAGE_SIZE;
        }
      }
      return 0;
    }

    /** pmm_free_page. */
    method FreePage(address: nat)
      requires Valid()
      modifies this`freePages, bitmap
      ensures Valid()
      ensures View() == PageSet.FreePage(old(View()), address)
    {
      if address % PAGE_SIZE != 0 {
        return;
      }
      var page := address / PAGE_SIZE;
      if page >= totalPages {
        return;
      }
      var used := BitmapTest(page);
      if used {
        BitmapClear(page);
        freePages := freePages + 1;
      } else {
        assert FreeSet(bitmap[..]) + {page} == FreeSet(bitmap[..]);
      }
    }

    method FreePageCount() returns (n: nat)
      requires Valid()
      ensures n == |View().free|
    {
      n := freePages;
    }
  }
}
