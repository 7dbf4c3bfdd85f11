/**
 * The library page of app/biblioteca/page.tsx: three filter cells (search text, genre, status)
 * narrow the store's book list.
 */
module Biblioteca {
  import opened Wrappers
  import opened Books
  import Seqs
  import Text

  const ALL: string := "all"

  /** The three tests of the page's `filter` callback. */
  predicate Matches(b: Book, query: string, genre: string, status: string)
    ensures query == "" && genre == ALL && status == ALL ==> Matches(b, query, genre, status)
  {
    && (query == "" || TitleOrAuthorIncludes(b, Text.Lower(query)))
    && (genre == ALL || b.genre == Some(genre))
    && (status == ALL || b.status == Some(status))
  }

  function MatchesAll(query: string, genre: string, status: string): Book -> bool {
    (b: Book) => Matches(b, query, genre, status)
  }

  /**
   * `filteredBooks`: the books passing all three tests, in their original order; with every
   * filter at its default, all books.
   */
  function FilterBooks(books: seq<Book>, query: string, genre: string, status: string): (r: seq<Book>)
    ensures forall b :: b in r <==> b in books && Matches(b, query, genre, status)
    ensures Seqs.IsSubseq(r, books)
    ensures query == "" && genre == ALL && status == ALL ==> r == books
  {
    var p := MatchesAll(query, genre, status);
    Seqs.FilterIsSubseq(books, p);
    forall b ensures b in Seqs.Filter(books, p) <==> b in books && Matches(b, query, genre, status) {
      Seqs.FilterMembership(books, p, b);
    }
    if query == "" && genre == ALL && status == ALL then
      Seqs.FilterAllTrue(books, p);
      Seqs.Filter(books, p)
    else
      Seqs.Filter(books, p)
  }

  /** The genre and status tests are exact: a genre differing only in case does not match. */
  lemma GenreIsCaseSensitive(b: Book)
    requires b.genre == Some("Ficção")
    ensures !Matches(b, "", "FICÇÃO", ALL) && Matches(b, "", "Ficção", ALL)
  {
  }

  /** Narrowing a filter never adds books: with a genre chosen the result is within the unfiltered one. */
  lemma GenreNarrows(books: seq<Book>, query: string, genre: string, status: string)
    ensures forall b :: b in FilterBooks(books, query, genre, status) ==> b in FilterBooks(books, query, ALL, status)
  {
  }

  class Page {
    var searchQuery: string
    var selectedGenre: string
    var selectedStatus: string

    constructor()
      ensures searchQuery == "" && selectedGenre == ALL && selectedStatus == ALL
      ensures !HasActiveFilters()
    {
      searchQuery, selectedGenre, selectedStatus := "", ALL, ALL;
    }

    /** `hasActiveFilters` */
    predicate HasActiveFilters()
      reads this
    {
      searchQuery != "" || selectedGenre != ALL || selectedStatus != ALL
    }

    function FilteredBooks(books: seq<Book>): seq<Book>
      reads this
    {
      FilterBooks(books, searchQuery, selectedGenre, selectedStatus)
    }

    /** With no active filter the page lists every book. */
    lemma InactiveShowsAll(books: seq<Book>)
      ensures !HasActiveFilters() ==> FilteredBooks(books) == books
    {
    }

    /** `handleClearFilters` restores the three defaults, so every book is listed again. */
    method HandleClearFilters()
      modifies this
      ensures searchQuery == "" && selectedGenre == ALL && selectedStatus == ALL
      ensures !HasActiveFilters()
      ensures forall books :: FilteredBooks(books) == books
    {
      searchQuery := "";
      selectedGenre := ALL;
      selectedStatus := ALL;
    }
  }
}
