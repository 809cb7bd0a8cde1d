/** The packed bitmap of src/pmm.c: bit `page % 32` of word `page / 32`. */
module Bitmap {
  import opened PageSet

  const FULL: bv32 := 0xFFFF_FFFF
  const WORDS: nat := 2048

  /** A bit position in a 32-bit word. */
  type Position = bv5

  predicate BitOf(w: bv32, k: Position) { (w >> k) & 1 == 1 }

  function WithBit(w: bv32, k: Position): bv32 { w | (1 << k) }

  function WithoutBit(w: bv32, k: Position): bv32 { w & !(1 << k) }

  lemma SettingABit(w: bv32, k: Position, j: Position)
    ensures BitOf(WithBit(w, k), j) <==> j == k || BitOf(w, j)
  {
  }

  lemma ClearingABit(w: bv32, k: Position, j: Position)
    ensures BitOf(WithoutBit(w, k), j) <==> j != k && BitOf(w, j)
  {
  }

  lemma FullWordBits(k: Position)
    ensures BitOf(FULL, k)
  {
  }

  /** A word other than 0xFFFFFFFF has a clear bit. */
  lemma OnlyFullHasAllBits(w: bv32)
    requires forall k: Position :: BitOf(w, k)
    ensures w == FULL
  {
    assert BitOf(w, 0) && BitOf(w, 1) && BitOf(w, 2) && BitOf(w, 3);
    assert BitOf(w, 4) && BitOf(w, 5) && BitOf(w, 6) && BitOf(w, 7);
    assert BitOf(w, 8) && BitOf(w, 9) && BitOf(w, 10) && BitOf(w, 11);
    assert BitOf(w, 12) && BitOf(w, 13) && BitOf(w, 14) && BitOf(w, 15);
    assert BitOf(w, 16) && BitOf(w, 17) && BitOf(w, 18) && BitOf(w, 19);
    assert BitOf(w, 20) && BitOf(w, 21) && BitOf(w, 22) && BitOf(w, 23);
    assert BitOf(w, 24) && BitOf(w, 25) && BitOf(w, 26) && BitOf(w, 27);
    assert BitOf(w, 28) && BitOf(w, 29) && BitOf(w, 30) && BitOf(w, 31);
  }

  /** A page's position in its word, as a shift count. */
  function Shift(page: nat): (k: Position)
    ensures k as nat == page % 32
  {
    (page % 32) as Position
  }

  predicate Used(words: seq<bv32>, page: nat)
    requires |words| == WORDS && page < MAX_PAGES
  {
    BitOf(words[page / 32], Shift(page))
  }

  function FreeSet(words: seq<bv32>): set<nat>
    requires |words| == WORDS
  {
    set page: nat | page < MAX_PAGES && !Used(words, page)
  }

  function Mark(words: seq<bv32>, page: nat): seq<bv32>
    requires |words| == WORDS && page < MAX_PAGES
  {
    words[page / 32 := WithBit(words[page / 32], Shift(page))]
  }

  function Unmark(words: seq<bv32>, page: nat): seq<bv32>
    requires |words| == WORDS && page < MAX_PAGES
  {
    words[page / 32 := WithoutBit(words[page / 32], Shift(page))]
  }

  lemma MarkOne(words: seq<bv32>, page: nat, q: nat)
    requires |words| == WORDS && page < MAX_PAGES && q < MAX_PAGES
    ensures Used(Mark(words, page), q) <==> q == page || Used(words, q)
  {
    if q / 32 == page / 32 {
      SettingABit(words[page / 32], Shift(page), Shift(q));
    }
  }

  lemma UnmarkOne(words: seq<bv32>, page: nat, q: nat)
    requires |words| == WORDS && page < MAX_PAGES && q < MAX_PAGES
    ensures Used(Unmark(words, page), q) <==> q != page && Used(words, q)
  {
    if q / 32 == page / 32 {
      ClearingABit(words[page / 32], Shift(page), Shift(q));
    }
  }

  /** bitmap_set takes exactly one page out of the free set. */
  lemma MarkRemoves(words: seq<bv32>, page: nat)
    requires |words| == WORDS && page < MAX_PAGES
    ensures FreeSet(Mark(words, page)) == FreeSet(words) - {page}
  {
    forall q: nat | q < MAX_PAGES ensures q in FreeSet(Mark(words, page)) <==> q in FreeSet(words) - {page} {
      MarkOne(words, page, q);
    }
  }

  /** bitmap_clear puts exactly one page into the free set. */
  lemma UnmarkAdds(words: seq<bv32>, page: nat)
    requires |words| == WORDS && page < MAX_PAGES
    ensures FreeSet(Unmark(words, page)) == FreeSet(words) + {page}
  {
    forall q: nat | q < MAX_PAGES ensures q in FreeSet(Unmark(words, page)) <==> q in FreeSet(words) + {page} {
      UnmarkOne(words, page, q);
    }
  }

  /** The page whose bit is bit `k` of word `i`. */
  function PageAt(i: nat, k: Position): (page: nat)
    requires i < WORDS
    ensures page < MAX_PAGES && page / 32 == i && Shift(page) == k
  {
    i * 32 + k as nat
  }

  /** The whole-word test of pmm_alloc_page: 0xFFFFFFFF means all 32 pages are used. */
  lemma FullWordMeansUsed(words: seq<bv32>, i: nat)
    requires |words| == WORDS && i < WORDS
    ensures words[i] == FULL <==> forall page: nat :: page in FreeSet(words) ==> page / 32 != i
  {
    if words[i] == FULL {
      forall page: nat | page < MAX_PAGES && page / 32 == i ensures Used(words, page) {
        FullWordBits(Shift(page));
      }
    } else {
      if forall page: nat :: page in FreeSet(words) ==> page / 32 != i {
        forall k: Position ensures BitOf(words[i], k) {
          assert PageAt(i, k) !in FreeSet(words);
        }
        OnlyFullHasAllBits(words[i]);
        assert false;
      }
    }
  }
}
