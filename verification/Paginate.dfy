/** `Paginate`: pages cut out of a list with 64-bit unsigned arithmetic, wrap-around included. */
module Paginate {

  const WORD: nat := 0x1_0000_0000_0000_0000

  /** What a call does: it answers a page, or slices out of order and panics. */
  datatype Outcome<T> = Page(items: seq<T>) | Panic

  function Wrap(x: int): (r: nat)
    ensures r < WORD
    ensures 0 <= x < WORD ==> r == x
  {
    x % WORD
  }

  function Paginate<T>(items: seq<T>, currentPage: nat, itemsPerPage: nat): Outcome<T> {
    if itemsPerPage == 0 then Page([])
    else
      var page := if currentPage == 0 then 1 else currentPage;
      Cut(items, Wrap(Wrap(page - 1) * itemsPerPage), itemsPerPage)
  }

  /** The part of the function after its start index is known. */
  function Cut<T>(items: seq<T>, start: nat, itemsPerPage: nat): Outcome<T> {
    var end := Wrap(start + itemsPerPage);
    if start >= |items| then Page([])
    else
      var stop := if end > |items| then |items| else end;
      if start > stop then Panic else Page(items[start..stop])
  }

  /** The page as anyone would define it. */
  function Chunk<T>(items: seq<T>, page: nat, size: nat): seq<T>
    requires page > 0
  {
    ChunkFrom(items, (page - 1) * size, size)
  }

  function ChunkFrom<T>(items: seq<T>, start: nat, size: nat): seq<T> {
    if start >= |items| then [] else if start + size > |items| then items[start..] else items[start..start + size]
  }

  /** The number of pages that are not empty. */
  function PageCount(n: nat, size: nat): nat
    requires size > 0
  {
    (n + size - 1) / size
  }

  function Concat<T>(items: seq<T>, pages: nat, size: nat): seq<T> {
    if pages == 0 then [] else Concat(items, pages - 1, size) + Chunk(items, pages, size)
  }

  // ---------------------------------------------------------------- when nothing wraps

  lemma ProductBelow(a: nat, b: nat, c: nat)
    requires a <= c && b <= c
    ensures a * b <= c * c
  {
    assert a * b <= a * c <= c * c;
  }

  /** A call whose end index fits into 64 bits answers the page anyone would expect, page zero
      being the first. */
  lemma UnwrappedAnswersChunk<T>(items: seq<T>, page: nat, size: nat)
    requires (if page == 0 then 1 else page) * size < WORD
    ensures Paginate(items, page, size)
            == Page(if size == 0 then [] else Chunk(items, if page == 0 then 1 else page, size))
  {
    if size > 0 {
      var p := if page == 0 then 1 else page;
      StartFits(p, size);
      CutAtStart(items, p, size, (p - 1) * size);
      CutUnwrapped(items, (p - 1) * size, size);
    }
  }

  lemma StartFits(p: nat, size: nat)
    requires 0 < p && 0 < size && p * size < WORD
    ensures p < WORD && (p - 1) * size + size < WORD
  {
    assert p <= p * size;
    assert (p - 1) * size + size == p * size;
  }

  lemma CutUnwrapped<T>(items: seq<T>, start: nat, size: nat)
    requires start + size < WORD
    ensures Cut(items, Wrap(start), size) == Page(ChunkFrom(items, start, size))
  {
  }

  /** With both arguments below 2^32, what the API's messages can carry, no index wraps. */
  lemma NarrowArgumentsNeverWrap<T>(items: seq<T>, page: nat, size: nat)
    requires page < 0x1_0000_0000 && size < 0x1_0000_0000
    ensures Paginate(items, page, size)
            == Page(if size == 0 then [] else Chunk(items, if page == 0 then 1 else page, size))
  {
    ProductBelow(if page == 0 then 1 else page, size, 0xFFFF_FFFF);
    UnwrappedAnswersChunk(items, page, size);
  }

  // ---------------------------------------------------------------- pages partition the list

  lemma {:induction false} PagesJoin<T>(items: seq<T>, pages: nat, size: nat)
    requires size > 0
    ensures Concat(items, pages, size) == if pages * size >= |items| then items else items[..pages * size]
  {
    if pages > 0 {
      PagesJoin(items, pages - 1, size);
      var start := (pages - 1) * size;
      assert pages * size == start + size;
      if start < |items| && start + size <= |items| {
        assert items[..start] + items[start..start + size] == items[..start + size];
      }
    }
  }

  lemma PageCountCovers(n: nat, size: nat, page: nat)
    requires size > 0
    ensures page > PageCount(n, size) <==> page > 0 && (page - 1) * size >= n
  {
    var c := PageCount(n, size);
    QuotientBounds(n + size - 1, size);
    assert c * size >= n;
    if page > c {
      ProductGrows(c, page - 1, size);
    } else if page > 0 {
      ProductGrows(page - 1, c - 1, size);
      assert (c - 1) * size == c * size - size;
    }
  }

  lemma QuotientBounds(x: nat, size: nat)
    requires size > 0
    ensures (x / size) * size <= x < (x / size) * size + size
  {
  }

  lemma ProductGrows(a: nat, b: nat, size: nat)
    requires a <= b
    ensures a * size <= b * size
  {
  }

  /** The items of pages `1..pages` as answered, one page after the other. */
  function AllPages<T>(items: seq<T>, pages: nat, size: nat): seq<T> {
    if pages == 0 then []
    else
      var answer := Paginate(items, pages, size);
      AllPages(items, pages - 1, size) + if answer.Page? then answer.items else []
  }

  const MAX_LENGTH: nat := 0x8000_0000_0000_0000

  lemma {:induction false} AllPagesConcat<T>(items: seq<T>, pages: nat, size: nat)
    requires |items| < MAX_LENGTH && 0 < size < MAX_LENGTH && pages <= PageCount(|items|, size)
    ensures AllPages(items, pages, size) == Concat(items, pages, size)
  {
    if pages > 0 {
      AllPagesConcat(items, pages - 1, size);
      PageCountCovers(|items|, size, pages);
      assert pages * size == (pages - 1) * size + size;
      UnwrappedAnswersChunk(items, pages, size);
    }
  }

  /** Every list a process can hold, cut into pages of any such size: the pages up to the last one,
      as answered, give back the list in order. */
  lemma PagesPartition<T>(items: seq<T>, size: nat)
    requires |items| < MAX_LENGTH && 0 < size < MAX_LENGTH
    ensures AllPages(items, PageCount(|items|, size), size) == items
  {
    var count := PageCount(|items|, size);
    AllPagesConcat(items, count, size);
    PagesJoin(items, count, size);
    PageCountCovers(|items|, size, count + 1);
    assert count * size >= |items|;
  }

  /** A page is empty exactly when it comes after the last one. */
  lemma EmptyExactlyAfterLast<T>(items: seq<T>, page: nat, size: nat)
    requires 0 < page < 0x1_0000_0000 && 0 < size < 0x1_0000_0000
    ensures Paginate(items, page, size) == Page([]) <==> page > PageCount(|items|, size)
  {
    NarrowArgumentsNeverWrap(items, page, size);
    PageCountCovers(|items|, size, page);
  }

  // ---------------------------------------------------------------- when they do

  /** On the 64-bit arguments the signature allows, a call panics exactly when the start, after
      wrapping, falls inside the list and the end wraps around to before it. */
  lemma PanicsExactlyWhen<T>(items: seq<T>, page: nat, size: nat)
    requires |items| < WORD && page < WORD && size < WORD
    ensures var start := Wrap((if page == 0 then 0 else page - 1) * size);
            Paginate(items, page, size).Panic? <==> start < |items| && start + size >= WORD
  {
    var p := if page == 0 then 0 else page - 1;
    var start := Wrap(p * size);
    if start + size >= WORD {
      assert Wrap(start + size) == start + size - WORD;
    }
  }

  /** On the same arguments a call answers the right page exactly when its start, after wrapping,
      lies beyond the list, or nothing wraps: neither the start, which is in the list, nor the end. */
  lemma RightExactlyWhen<T>(items: seq<T>, page: nat, size: nat)
    requires |items| < WORD && 0 < page < WORD && 0 < size < WORD
    ensures var start := (page - 1) * size;
            Paginate(items, page, size) == Page(Chunk(items, page, size)) <==>
            Wrap(start) >= |items| || (start < |items| && start + size < WORD)
  {
    var start := (page - 1) * size;
    CutAtStart(items, page, size, start);
    CutRightExactlyWhen(items, start, size);
  }

  lemma CutAtStart<T>(items: seq<T>, page: nat, size: nat, start: nat)
    requires 0 < page < WORD && size > 0 && start == (page - 1) * size
    ensures Paginate(items, page, size) == Cut(items, Wrap(start), size)
    ensures Chunk(items, page, size) == ChunkFrom(items, start, size)
  {
    assert Wrap(page - 1) == page - 1;
  }

  lemma CutRightExactlyWhen<T>(items: seq<T>, start: nat, size: nat)
    requires |items| < WORD && 0 < size < WORD
    ensures Cut(items, Wrap(start), size) == Page(ChunkFrom(items, start, size)) <==>
            Wrap(start) >= |items| || (start < |items| && start + size < WORD)
  {
    var s := Wrap(start);
    assert s <= start;
    if s < |items| {
      assert s + size < WORD ==> Wrap(s + size) == s + size;
      assert s + size >= WORD ==> Wrap(s + size) == s + size - WORD;
      if s + size < WORD {
        assert |Cut(items, s, size).items| > 0;
      }
    }
  }

  /** Arguments that panic exist. */
  lemma HugePagePanics<T>(items: seq<T>)
    requires 2 < |items| < WORD
    ensures Paginate(items, WORD - 1, WORD - 1).Panic?
  {
    assert (WORD - 2) * (WORD - 1) == (WORD - 3) * WORD + 2;
  }

  /** And without a panic a wrapped index can answer a page already shown: page 2^63 + 1 of size
      two is the first page again. */
  lemma HugePageRepeats<T>(items: seq<T>)
    requires |items| > 0
    ensures Paginate(items, WORD / 2 + 1, 2) == Paginate(items, 1, 2)
  {
    assert (WORD / 2) * 2 == WORD;
  }
}
