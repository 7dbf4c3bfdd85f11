/**
 * Library statistics and reading progress as data/book-stats.ts computes them: the page total
 * counts a book's current page when it is positive, and a finished book's page count otherwise.
 */
module DataBookStats {
  import opened Wrappers
  import opened Books
  import Seqs
  import MathRound

  datatype BookStats = BookStats(total: nat, reading: nat, finished: nat, totalPages: int)

  /** A number field that JavaScript reads as true: present and not zero. */
  predicate Truthy(n: Option<int>) {
    n.Some? && n.value != 0
  }

  /** What one book adds to `totalPages` in the `reduce` of data/book-stats.ts. */
  function PageContribution(b: Book): int {
    if Truthy(b.currentPage) && b.currentPage.value > 0 then b.currentPage.value
    else if HasStatus(b, Lido) then PagesOr0(b)
    else 0
  }

  /** `calculateBookStats` of data/book-stats.ts. */
  function CalculateBookStats(books: seq<Book>): (r: BookStats)
    ensures r.total == |books|
    ensures r.reading == |BooksWithStatus(books, Lendo)| && r.finished == |BooksWithStatus(books, Lido)|
    ensures r.reading + r.finished <= r.total
  {
    Seqs.FilterDisjointLengths(books, StatusIs(Lendo), StatusIs(Lido));
    BookStats(|books|, |BooksWithStatus(books, Lendo)|, |BooksWithStatus(books, Lido)|,
              Seqs.Sum(books, PageContribution))
  }

  /**
   * A book's share of the page total: its current page when positive; otherwise its page count
   * (missing is 0) when it is finished; otherwise nothing. A finished book with a positive
   * current page therefore counts the current page, not the page count.
   */
  lemma PageContributionCases(b: Book)
    ensures b.currentPage.Some? && b.currentPage.value > 0 ==> PageContribution(b) == b.currentPage.value
    ensures (b.currentPage.None? || b.currentPage.value <= 0) && HasStatus(b, Lido) ==> PageContribution(b) == PagesOr0(b)
    ensures (b.currentPage.None? || b.currentPage.value <= 0) && !HasStatus(b, Lido) ==> PageContribution(b) == 0
  {
  }

  /** The page total of two lists together is the sum of their totals. */
  lemma TotalPagesAppend(a: seq<Book>, b: seq<Book>)
    ensures CalculateBookStats(a + b).totalPages == CalculateBookStats(a).totalPages + CalculateBookStats(b).totalPages
  {
    Seqs.SumAppend(a, b, PageContribution);
  }

  /** `getReadingProgress`: 0 unless pages and current page are both set and non-zero. */
  function GetReadingProgress(b: Book): (r: int)
    ensures !Truthy(b.pages) || !Truthy(b.currentPage) ==> r == 0
    ensures Truthy(b.pages) && Truthy(b.currentPage) ==>
              MathRound.IsRoundHalfUp(r, 100 * b.currentPage.value, b.pages.value)
    ensures Truthy(b.pages) && Truthy(b.currentPage) && b.pages.value > 0 ==>
              r == (200 * b.currentPage.value + b.pages.value) / (2 * b.pages.value)
    ensures Truthy(b.pages) && b.currentPage.Some? && 0 <= b.currentPage.value <= b.pages.value ==> 0 <= r <= 100
  {
    if !Truthy(b.pages) || !Truthy(b.currentPage) then 0
    else
      if 0 <= b.currentPage.value <= b.pages.value then
        MathRound.PercentBounds(b.currentPage.value, b.pages.value);
        MathRound.RoundRatio(100 * b.currentPage.value, b.pages.value)
      else
        MathRound.RoundRatio(100 * b.currentPage.value, b.pages.value)
  }
}
