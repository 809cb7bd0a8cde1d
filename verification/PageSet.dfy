/**
 * The physical memory manager seen as a set of free page numbers (src/pmm.c).
 * Class PageAllocator refines these functions on the packed bitmap; the
 * scheduler's state machine uses them for stack pages.
 */
module PageSet {
  import opened Options

  const PAGE_SIZE: nat := 4096
  const MAX_PAGES: nat := 65536

  /** `free` is the set of page numbers whose bitmap bit is 0. */
  datatype Pages = Pages(total: nat, free: set<nat>)

  /** The search of pmm_alloc_page: the first free page in `[from, limit)`. */
  function LowestFrom(free: set<nat>, from: nat, limit: nat): (r: Option<nat>)
    ensures r.None? ==> forall q: nat :: from <= q < limit ==> q !in free
    ensures r.Some? ==> from <= r.value < limit && r.value in free
    ensures r.Some? ==> forall q: nat :: from <= q < r.value ==> q !in free
    decreases limit - from
  {
    if from >= limit then None
    else if from in free then Some(from)
    else LowestFrom(free, from + 1, limit)
  }

  /** pmm_alloc_page only visits whole bitmap words below the page total. */
  function Reachable(total: nat): nat { total / 32 * 32 }

  /** The new page set and the returned address; address 0 is the C NULL. */
  function AllocPage(m: Pages): (Pages, nat) {
    match LowestFrom(m.free, 0, Reachable(m.total))
    case None => (m, 0)
    case Some(page) => (m.(free := m.free - {page}), page * PAGE_SIZE)
  }

  lemma AllocTakes(m: Pages, page: nat)
    requires page in m.free && page < Reachable(m.total)
    requires forall q: nat :: q < page ==> q !in m.free
    ensures AllocPage(m) == (m.(free := m.free - {page}), page * PAGE_SIZE)
  {
    assert LowestFrom(m.free, 0, Reachable(m.total)) == Some(page);
  }

  /** pmm_free_page: misaligned and out-of-range addresses are ignored. */
  function FreePage(m: Pages, address: nat): Pages {
    if address % PAGE_SIZE == 0 && address / PAGE_SIZE < m.total
    then m.(free := m.free + {address / PAGE_SIZE})
    else m
  }

  /** Free pages lie below the page total and page 0 is never one of them. */
  predicate Sound(m: Pages) {
    && m.total <= MAX_PAGES
    && forall p :: p in m.free ==> 0 < p < m.total
  }

  /** A success is never address 0, the page was free and is handed out once. */
  lemma AllocIsFresh(m: Pages)
    requires Sound(m)
    ensures var (m', address) := AllocPage(m);
            && Sound(m') && m'.total == m.total
            && (address == 0 <==> forall q: nat :: q < Reachable(m.total) ==> q !in m.free)
            && (address == 0 ==> m' == m)
            && (address != 0 ==>
                  && address % PAGE_SIZE == 0
                  && address / PAGE_SIZE in m.free
                  && m'.free == m.free - {address / PAGE_SIZE}
                  && |m'.free| + 1 == |m.free|)
  {
    var r := LowestFrom(m.free, 0, Reachable(m.total));
    if r.Some? {
      assert |m.free - {r.value}| + 1 == |m.free|;
    }
  }

  /**
   * What is handed out is the lowest free page, provided its whole 32-page word lies below the total;
   * free pages in a last partial word are never handed out.
   */
  lemma AllocIsLowest(m: Pages)
    requires Sound(m)
    ensures (var (m', address) := AllocPage(m);
      && (address == 0 <==> forall q: nat :: q in m.free ==> q / 32 * 32 + 32 > m.total)
      && (address != 0 ==>
            && address % 4096 == 0 && address / 4096 in m.free
            && address / 4096 / 32 * 32 + 32 <= m.total
            && forall q: nat :: q in m.free ==> address / 4096 <= q))
  {
    forall q: nat ensures q < Reachable(m.total) <==> q / 32 * 32 + 32 <= m.total {
    }
    AllocIsFresh(m);
  }

  /** Freeing changes the set exactly when the address is that of a used page below the total, and adds that page. */
  lemma FreeChangesExactlyWhen(m: Pages, address: nat)
    ensures FreePage(m, address) != m <==> exists page: nat :: page < m.total && page !in m.free && address == page * 4096
    ensures forall page: nat :: address == page * 4096 && page < m.total ==> FreePage(m, address).free == m.free + {page}
  {
    if address % PAGE_SIZE == 0 {
      var page := address / PAGE_SIZE;
      assert address == page * 4096;
      if page in m.free {
        assert m.free + {page} == m.free;
      } else {
        assert page in m.free + {page};
      }
    }
  }

  /** Freeing a page that was handed out undoes the allocation exactly. */
  lemma FreeUndoesAlloc(m: Pages)
    requires Sound(m) && AllocPage(m).1 != 0
    ensures FreePage(AllocPage(m).0, AllocPage(m).1) == m
  {
    AllocIsFresh(m);
    var page := AllocPage(m).1 / PAGE_SIZE;
    assert m.free - {page} + {page} == m.free;
  }

  /** Returning a used page in range adds exactly one page. */
  lemma FreeAddsOne(m: Pages, address: nat)
    requires Sound(m) && address % PAGE_SIZE == 0
    requires 0 < address / PAGE_SIZE < m.total && address / PAGE_SIZE !in m.free
    ensures Sound(FreePage(m, address)) && |FreePage(m, address).free| == |m.free| + 1
  {
  }

  /** pmm_free_page keeps page 0 out of the free set exactly when it is not handed NULL. */
  lemma FreeIsSafeExactlyWhen(m: Pages, address: nat)
    requires Sound(m)
    ensures Sound(FreePage(m, address)) <==> address != 0 || m.total == 0
  {
    if address == 0 && m.total != 0 {
      assert 0 in FreePage(m, address).free;
    }
  }

  // ---- Runs ------------------------------------------------------------------

  datatype PageOp = Take | Give(address: nat)

  function After(m: Pages, op: PageOp): Pages {
    match op
    case Take => AllocPage(m).0
    case Give(address) => FreePage(m, address)
  }

  /** The addresses a run of calls hands out. */
  function HandedOut(m: Pages, ops: seq<PageOp>): seq<nat>
    decreases |ops|
  {
    if ops == [] then []
    else (if ops[0].Take? then [AllocPage(m).1] else []) + HandedOut(After(m, ops[0]), ops[1..])
  }

  lemma {:induction false} UsedPageIsNotHandedOut(m: Pages, ops: seq<PageOp>, address: nat)
    requires address != 0 && address % PAGE_SIZE == 0 && address / PAGE_SIZE !in m.free
    requires Give(address) !in ops
    ensures address !in HandedOut(m, ops)
    decreases |ops|
  {
    if ops != [] {
      assert ops[0].Give? ==> ops[0].address != address;
      assert address == address / PAGE_SIZE * PAGE_SIZE;
      UsedPageIsNotHandedOut(After(m, ops[0]), ops[1..], address);
    }
  }

  /** A page handed out is not handed out again, in any run in which it is not freed. */
  lemma PageIsHandedOutOnce(m: Pages, ops: seq<PageOp>)
    requires AllocPage(m).1 != 0
    requires Give(AllocPage(m).1) !in ops
    ensures AllocPage(m).1 !in HandedOut(AllocPage(m).0, ops)
  {
    UsedPageIsNotHandedOut(AllocPage(m).0, ops, AllocPage(m).1);
  }
}
