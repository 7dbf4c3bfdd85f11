/**
 * The figures of the home dashboard (app/page.tsx), derived from the store's book list: counts,
 * pages read, the three most recently updated books and the progress of each book being read.
 */
module Dashboard {
  import opened Books
  import Seqs
  import UpdatedOrder
  import DataBookStats
  import LibBookStats
  import MathRound

  const RECENT_COUNT: nat := 3

  datatype View = View(
    totalBooks: nat,
    currentlyReading: seq<Book>,
    finishedBooks: seq<Book>,
    totalPagesRead: int,
    recentBooks: seq<Book>)

  /** `[...books].sort(newest first).slice(0, 3)`: the sort works on a copy. */
  function RecentOf(books: seq<Book>): (r: seq<Book>)
    ensures |r| == Seqs.Min(RECENT_COUNT, |books|)
    ensures UpdatedOrder.SortedDesc(r) && multiset(r) <= multiset(books)
    ensures forall i, j :: 0 <= i < |r| <= j < |books| ==>
              UpdatedOrder.SortByUpdatedDesc(books)[j].updatedAt <= r[i].updatedAt
  {
    UpdatedOrder.Newest(books, RECENT_COUNT);
    Seqs.Take(UpdatedOrder.SortByUpdatedDesc(books), RECENT_COUNT)
  }

  function DashboardView(books: seq<Book>): (r: View)
    ensures r.totalBooks == |books|
    ensures forall b :: b in r.currentlyReading <==> b in books && HasStatus(b, Lendo)
    ensures forall b :: b in r.finishedBooks <==> b in books && HasStatus(b, Lido)
    ensures r.totalPagesRead == LibBookStats.CalculateBookStats(books).totalPages
    ensures r.recentBooks == RecentOf(books)
  {
    var finished := BooksWithStatus(books, Lido);
    View(|books|, BooksWithStatus(books, Lendo), finished, Seqs.Sum(finished, PagesOr0), RecentOf(books))
  }

  /** `book.pages && book.currentPage`: the bar and the "n / m páginas" line are shown. */
  predicate ShowsProgressBar(b: Book) {
    DataBookStats.Truthy(b.pages) && DataBookStats.Truthy(b.currentPage)
  }

  /**
   * The per-book progress is `getReadingProgress`: 0 whenever the bar is hidden, and otherwise the
   * percentage of the current page rounded half up.
   */
  function Progress(b: Book): (r: int)
    ensures !ShowsProgressBar(b) ==> r == 0
    ensures ShowsProgressBar(b) ==> MathRound.IsRoundHalfUp(r, 100 * b.currentPage.value, b.pages.value)
    ensures ShowsProgressBar(b) && 0 <= b.currentPage.value <= b.pages.value ==> 0 <= r <= 100
  {
    DataBookStats.GetReadingProgress(b)
  }

  /** The dashboard's counts and page total are those of `calculateBookStats` in lib/book-stats.ts. */
  lemma DashboardMatchesStats(books: seq<Book>)
    ensures var v := DashboardView(books);
      var stats := LibBookStats.CalculateBookStats(books);
      v.totalBooks == stats.total && |v.currentlyReading| == stats.reading
      && |v.finishedBooks| == stats.finished && v.totalPagesRead == stats.totalPages
  {
  }

  /** Sorting a copy: the dashboard's recent books are also the first three of the recent-books card's five. */
  lemma RecentIsPrefixOfCard(books: seq<Book>)
    ensures RecentOf(books) == Seqs.Take(Seqs.Take(UpdatedOrder.SortByUpdatedDesc(books), 5), RECENT_COUNT)
  {
  }
}
