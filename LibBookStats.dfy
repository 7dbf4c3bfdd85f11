/**
 * Library statistics as lib/book-stats.ts computes them: the page total sums the page counts of
 * finished books only. Its `getReadingProgress` is the same code as that of data/book-stats.ts
 * and is modelled once, as `DataBookStats.GetReadingProgress`.
 */
module LibBookStats {
  import opened Wrappers
  import opened Books
  import Seqs
  import DataBookStats

  /** `books.filter(LIDO).reduce((sum, book) => sum + (book.pages || 0), 0)` */
  function TotalPages(books: seq<Book>): int {
    Seqs.Sum(BooksWithStatus(books, Lido), PagesOr0)
  }

  /** Finished books with no negative page count give a non-negative total. */
  lemma TotalPagesNonNegative(books: seq<Book>)
    requires forall b :: b in books && HasStatus(b, Lido) ==> PagesOr0(b) >= 0
    ensures TotalPages(books) >= 0
  {
    Seqs.SumNonNegative(BooksWithStatus(books, Lido), PagesOr0);
  }

  /** `calculateBookStats` of lib/book-stats.ts: the counts are those of data/book-stats.ts. */
  function CalculateBookStats(books: seq<Book>): (r: DataBookStats.BookStats)
    ensures r.total == |books| && r.reading + r.finished <= r.total
    ensures r.(totalPages := 0) == DataBookStats.CalculateBookStats(books).(totalPages := 0)
  {
    var data := DataBookStats.CalculateBookStats(books);
    data.(totalPages := TotalPages(books))
  }

  /** With no finished book the page total is 0. */
  lemma NoFinishedNoPages(books: seq<Book>)
    ensures CalculateBookStats(books).finished == 0 ==> CalculateBookStats(books).totalPages == 0
  {
  }

  /** Adding books none of which is finished leaves the page total unchanged. */
  lemma AddingUnfinishedKeepsPages(books: seq<Book>, extra: seq<Book>)
    requires forall b :: b in extra ==> !HasStatus(b, Lido)
    ensures TotalPages(books + extra) == TotalPages(books)
    ensures TotalPages(extra + books) == TotalPages(books)
  {
    Seqs.FilterAppend(books, extra, StatusIs(Lido));
    Seqs.FilterAppend(extra, books, StatusIs(Lido));
    Seqs.FilterNoneTrue(extra, StatusIs(Lido));
    assert BooksWithStatus(books, Lido) + [] == BooksWithStatus(books, Lido);
    assert [] + BooksWithStatus(books, Lido) == BooksWithStatus(books, Lido);
  }

  /** Removing books none of which is finished leaves the page total unchanged. */
  lemma RemovingUnfinishedKeepsPages(books: seq<Book>, keep: Book -> bool)
    requires forall b :: b in books && HasStatus(b, Lido) ==> keep(b)
    ensures TotalPages(Seqs.Filter(books, keep)) == TotalPages(books)
  {
    var both := (b: Book) => keep(b) && HasStatus(b, Lido);
    Seqs.FilterFilter(books, keep, StatusIs(Lido), both);
    Seqs.FilterFilter(books, StatusIs(Lido), keep, both);
    var lido := BooksWithStatus(books, Lido);
    Seqs.FilterAllTrue(lido, keep);
  }

  /** Current pages never enter the page total: lists that differ only there have the same total. */
  lemma {:induction false} CurrentPageIrrelevant(books: seq<Book>, other: seq<Book>)
    requires |books| == |other|
    requires forall i :: 0 <= i < |books| ==> other[i] == books[i].(currentPage := other[i].currentPage)
    ensures TotalPages(other) == TotalPages(books)
    decreases |books|
  {
    if books != [] {
      CurrentPageIrrelevant(books[1..], other[1..]);
      var b, o := books[0], other[0];
      assert o == b.(currentPage := o.currentPage);
      assert HasStatus(o, Lido) == HasStatus(b, Lido) && PagesOr0(o) == PagesOr0(b);
      var rb, ro := BooksWithStatus(books[1..], Lido), BooksWithStatus(other[1..], Lido);
      if HasStatus(b, Lido) {
        assert BooksWithStatus(books, Lido) == [b] + rb;
        assert BooksWithStatus(other, Lido) == [o] + ro;
        assert ([b] + rb)[1..] == rb && ([o] + ro)[1..] == ro;
      } else {
        assert BooksWithStatus(books, Lido) == rb;
        assert BooksWithStatus(other, Lido) == ro;
      }
    }
  }

  /** Without positive current pages, both page totals count exactly the finished books' pages. */
  lemma {:induction false} PageTotalsAgree(books: seq<Book>)
    requires forall b :: b in books ==> b.currentPage.None? || b.currentPage.value <= 0
    ensures TotalPages(books) == Seqs.Sum(books, DataBookStats.PageContribution)
    decreases |books|
  {
    if books != [] {
      PageTotalsAgree(books[1..]);
      assert books == [books[0]] + books[1..];
      assert books[0] in books;
      Seqs.FilterAppend([books[0]], books[1..], StatusIs(Lido));
      Seqs.SumAppend(BooksWithStatus([books[0]], Lido), BooksWithStatus(books[1..], Lido), PagesOr0);
    }
  }

  /**
   * The two `calculateBookStats` variants agree on the page total whenever no book has a
   * positive current page.
   */
  lemma VariantsAgreeWithoutCurrentPages(books: seq<Book>)
    requires forall b :: b in books ==> b.currentPage.None? || b.currentPage.value <= 0
    ensures CalculateBookStats(books) == DataBookStats.CalculateBookStats(books)
  {
    PageTotalsAgree(books);
  }
}
