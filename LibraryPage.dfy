/**
 * The server-rendered library page (app/library/page.tsx): the fetched API records go through up
 * to three filters in turn (query, genre, status), each applied only when its parameter is set.
 * The genre and status parameters arrive already validated by the page's parse helpers.
 */
module LibraryPage {
  import opened Wrappers
  import Seqs
  import Text
  import opened RemoteDb

  /** `query`, and the values `parseGenre` and `parseReadingStatus` returned. */
  datatype Params = Params(query: Option<string>, genre: Option<string>, status: Option<string>)

  predicate IsSet(p: Option<string>) {
    p.Some? && p.value != ""
  }

  function Normalised(s: string): string {
    Text.Lower(Text.Trim(s))
  }

  /** `b.title.toLowerCase().includes(q) || b.author.toLowerCase().includes(q)` */
  predicate QueryHit(b: ApiBook, q: string)
    ensures q == "" ==> QueryHit(b, q)
  {
    Text.ContainsEmpty(Text.Lower(b.title));
    Text.Contains(Text.Lower(b.title), q) || Text.Contains(Text.Lower(b.author), q)
  }

  /**
   * An array as it is, a truthy single value wrapped, a missing or falsy value (the empty
   * string) as no genres.
   */
  function GenreList(genres: ApiGenres): (r: seq<GenreItem>)
    ensures genres.GenreArray? ==> r == genres.items
    ensures genres.GenreScalar? ==> r == (if genres.item == GenreText("") then [] else [genres.item])
    ensures genres.NoGenres? ==> r == []
  {
    match genres
    case GenreArray(items) => items
    case GenreScalar(item) => if item == GenreText("") then [] else [item]
    case NoGenres => []
  }

  /** Some genre, by its `.name` (objects) or itself (strings), trimmed and lowercased, is the wanted one. */
  predicate GenreHit(b: ApiBook, genreName: string)
    ensures b.genres.NoGenres? || b.genres == GenreScalar(GenreText("")) ==> !GenreHit(b, genreName)
  {
    var list := GenreList(b.genres);
    exists i :: 0 <= i < |list| && Normalised(ItemName(list[i])) == genreName
  }

  /** `String(b.status || "")` */
  function StatusText(b: ApiBook): string {
    if b.status.Some? then b.status.value else ""
  }

  predicate StatusHit(b: ApiBook, statusValue: string) {
    Normalised(StatusText(b)) == statusValue
  }

  predicate QueryStage(b: ApiBook, p: Params) {
    IsSet(p.query) ==> QueryHit(b, Normalised(p.query.value))
  }

  predicate GenreStage(b: ApiBook, p: Params) {
    IsSet(p.genre) ==> GenreHit(b, Normalised(p.genre.value))
  }

  predicate StatusStage(b: ApiBook, p: Params) {
    IsSet(p.status) ==> StatusHit(b, Normalised(p.status.value))
  }

  /** The three filters as one test. */
  predicate Passes(b: ApiBook, p: Params) {
    QueryStage(b, p) && GenreStage(b, p) && StatusStage(b, p)
  }

  /** The tests of the first `k` filters together. */
  function Upto(p: Params, k: nat): ApiBook -> bool {
    (b: ApiBook) => (k >= 1 ==> QueryStage(b, p)) && (k >= 2 ==> GenreStage(b, p)) && (k >= 3 ==> StatusStage(b, p))
  }

  function QueryTest(q: string): ApiBook -> bool {
    (b: ApiBook) => QueryHit(b, q)
  }

  function GenreTest(genreName: string): ApiBook -> bool {
    (b: ApiBook) => GenreHit(b, genreName)
  }

  function StatusTest(statusValue: string): ApiBook -> bool {
    (b: ApiBook) => StatusHit(b, statusValue)
  }

  /**
   * The page's filtering: `books` is reassigned by each filter that applies. The result is the
   * fetched list narrowed by the conjunction of the three tests, in the original order.
   */
  method FilterLibrary(fetched: seq<ApiBook>, p: Params) returns (books: seq<ApiBook>)
    ensures books == Seqs.Filter(fetched, Upto(p, 3))
    ensures forall b :: b in books <==> b in fetched && Passes(b, p)
    ensures Seqs.IsSubseq(books, fetched)
  {
    books := fetched;
    Seqs.FilterAllTrue(fetched, Upto(p, 0));

    if IsSet(p.query) {
      var q := Normalised(p.query.value);
      books := Seqs.Filter(books, QueryTest(q));
      Seqs.FilterFilter(fetched, Upto(p, 0), QueryTest(q), Upto(p, 1));
    } else {
      Seqs.FilterExt(fetched, Upto(p, 0), Upto(p, 1));
    }
    assert books == Seqs.Filter(fetched, Upto(p, 1));

    if IsSet(p.genre) {
      var genreName := Normalised(p.genre.value);
      books := Seqs.Filter(books, GenreTest(genreName));
      Seqs.FilterFilter(fetched, Upto(p, 1), GenreTest(genreName), Upto(p, 2));
    } else {
      Seqs.FilterExt(fetched, Upto(p, 1), Upto(p, 2));
    }
    assert books == Seqs.Filter(fetched, Upto(p, 2));

    if IsSet(p.status) {
      var statusValue := Normalised(p.status.value);
      books := Seqs.Filter(books, StatusTest(statusValue));
      Seqs.FilterFilter(fetched, Upto(p, 2), StatusTest(statusValue), Upto(p, 3));
    } else {
      Seqs.FilterExt(fetched, Upto(p, 2), Upto(p, 3));
    }

    Seqs.FilterIsSubseq(fetched, Upto(p, 3));
    forall b ensures b in books <==> b in fetched && Passes(b, p) {
      Seqs.FilterMembership(fetched, Upto(p, 3), b);
    }
  }

  /**
   * A truthy single genre value that is not an array is matched like a one-element array; the
   * empty string matches nothing.
   */
  lemma ScalarGenreWrapped(b: ApiBook, item: GenreItem, genreName: string)
    requires b.genres == GenreScalar(item)
    ensures item != GenreText("") ==> (GenreHit(b, genreName) <==> Normalised(ItemName(item)) == genreName)
    ensures item == GenreText("") ==> !GenreHit(b, genreName)
  {
    if item != GenreText("") {
      assert GenreList(b.genres)[0] == item;
    }
  }

  /** A book without a status only passes a status filter that asks for the empty status. */
  lemma MissingStatusIsEmpty(b: ApiBook, statusValue: string)
    requires b.status.None?
    ensures StatusHit(b, statusValue) <==> statusValue == ""
  {
    assert Text.Trim("") == "";
    assert Text.Lower("") == "";
  }
}
