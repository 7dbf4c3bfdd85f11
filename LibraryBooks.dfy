/**
 * The book list of components/library-books.tsx: records fetched from the API are normalised,
 * then narrowed by the optional query, genre and status parameters; a deleted book is dropped
 * from the list kept in state.
 */
module LibraryBooks {
  import opened Wrappers
  import Seqs
  import Text
  import opened RemoteDb

  const PLACEHOLDER: string := "/placeholder.svg"
  const NAME_OF_UNDEFINED: string := "TypeError: Cannot read properties of undefined (reading 'toLowerCase')"

  /**
   * A normalised record: the API record with its genre names (`g.name`, undefined for a bare
   * string entry), a default cover and a default rating. Other fields are read from `source`.
   */
  datatype ListedBook = ListedBook(source: ApiBook, genres: seq<Option<string>>, cover: string, rating: int)

  /** `Array.isArray(b.genres) ? b.genres.map((g) => g.name) : []` */
  function GenreNames(genres: ApiGenres): (r: seq<Option<string>>)
    ensures !genres.GenreArray? ==> r == []
    ensures genres.GenreArray? ==>
              && |r| == |genres.items|
              && forall i :: 0 <= i < |r| ==>
                   && (r[i].Some? <==> genres.items[i].GenreObj?)
                   && (r[i].Some? ==> r[i].value == genres.items[i].name)
  {
    match genres
    case GenreArray(items) =>
      seq(|items|, i requires 0 <= i < |items| => if items[i].GenreObj? then Some(items[i].name) else None)
    case _ => []
  }

  /** The `normalized` record built from one API record. */
  function Normalise(b: ApiBook): (r: ListedBook)
    ensures r.source == b
    ensures r.cover != "" && (b.cover.Some? && b.cover.value != "" ==> r.cover == b.cover.value)
    ensures r.rating == b.rating.GetOr(0)
  {
    ListedBook(b, GenreNames(b.genres),
               if b.cover.Some? && b.cover.value != "" then b.cover.value else PLACEHOLDER,
               b.rating.GetOr(0))
  }

  /** The `query`, `genre` and `status` search parameters. */
  datatype Params = Params(query: Option<string>, genre: Option<string>, status: Option<string>)

  /** A parameter the `if` tests as set: present and not empty. */
  predicate IsSet(p: Option<string>) {
    p.Some? && p.value != ""
  }

  function Normalised(p: string): string {
    Text.Lower(Text.Trim(p))
  }

  /** `!!(text && text.toLowerCase().includes(q))` */
  predicate Mentions(text: string, q: string) {
    text != "" && Text.Contains(Text.Lower(text), q)
  }

  predicate QueryOk(b: ListedBook, p: Params) {
    IsSet(p.query) ==> Mentions(b.source.title, Normalised(p.query.value)) || Mentions(b.source.author, Normalised(p.query.value))
  }

  predicate HasGenre(b: ListedBook, g: string) {
    exists i :: 0 <= i < |b.genres| && b.genres[i].Some? && Text.Lower(b.genres[i].value) == g
  }

  predicate GenreOk(b: ListedBook, p: Params) {
    IsSet(p.genre) ==> HasGenre(b, Normalised(p.genre.value))
  }

  predicate StatusOk(b: ListedBook, p: Params) {
    IsSet(p.status) ==> b.source.status.Some? && b.source.status.value != ""
                        && Text.Lower(b.source.status.value) == Normalised(p.status.value)
  }

  /** What the filter means when no undefined genre name is reached: all three tests pass. */
  predicate Keeps(b: ListedBook, p: Params) {
    QueryOk(b, p) && GenreOk(b, p) && StatusOk(b, p)
  }

  /**
   * `genres.some((name) => name.toLowerCase() === g)`: stops at the first match, and throws when
   * it reaches an undefined name first.
   */
  function SomeGenre(names: seq<Option<string>>, g: string): (r: Result<bool, string>)
    ensures (forall i :: 0 <= i < |names| ==> names[i].Some?) ==> r.Success?
    ensures r.Success? ==> (r.value <==> exists i :: 0 <= i < |names| && names[i].Some? && Text.Lower(names[i].value) == g)
    ensures r.Failure? ==> exists i :: 0 <= i < |names| && names[i].None?
  {
    if names == [] then Success(false)
    else if names[0].None? then Failure(NAME_OF_UNDEFINED)
    else if Text.Lower(names[0].value) == g then Success(true)
    else
      var rest := SomeGenre(names[1..], g);
      assert forall i :: 1 <= i < |names| ==> names[i] == names[1..][i - 1];
      if rest.Failure? then
        var i :| 0 <= i < |names[1..]| && names[1..][i].None?;
        assert names[i + 1].None?;
        rest
      else
        if rest.value then
          var i :| 0 <= i < |names[1..]| && names[1..][i].Some? && Text.Lower(names[1..][i].value) == g;
          assert names[i + 1] == names[1..][i];
          rest
        else rest
  }

  /**
   * The `filter` callback: `matches` starts true and each set parameter narrows it in turn. The
   * genre test only runs while `matches` is still true.
   */
  function Evaluate(b: ListedBook, p: Params): (r: Result<bool, string>)
    ensures r.Success? ==> (r.value <==> Keeps(b, p))
    ensures (forall i :: 0 <= i < |b.genres| ==> b.genres[i].Some?) ==> r.Success?
    ensures r.Failure? ==> exists i :: 0 <= i < |b.genres| && b.genres[i].None?
  {
    var afterQuery := QueryOk(b, p);
    if IsSet(p.genre) && afterQuery then
      match SomeGenre(b.genres, Normalised(p.genre.value))
      case Failure(e) => Failure(e)
      case Success(found) => Success(found && StatusOk(b, p))
    else
      Success(afterQuery && GenreOk(b, p) && StatusOk(b, p))
  }

  /** `books.filter(...)`, which gives up with the first book whose test throws. */
  function FilterBooks(books: seq<ListedBook>, p: Params): (r: Result<seq<ListedBook>, string>)
    ensures (forall b, i :: b in books && 0 <= i < |b.genres| ==> b.genres[i].Some?) ==> r.Success?
    ensures r.Success? ==> (forall b :: b in r.value <==> b in books && Keeps(b, p)) && Seqs.IsSubseq(r.value, books)
  {
    if books == [] then Success([])
    else
      assert forall b :: b in books ==> b == books[0] || b in books[1..];
      match Evaluate(books[0], p)
      case Failure(e) => Failure(e)
      case Success(keep) =>
        match FilterBooks(books[1..], p)
        case Failure(e) => Failure(e)
        case Success(rest) =>
          var r := if keep then [books[0]] + rest else rest;
          assert forall b :: b in r <==> b in books && Keeps(b, p);
          assert Seqs.IsSubseq(r, books) by {
            if keep {
              assert r[0] == books[0] && r[1..] == rest;
            } else {
              Seqs.SubseqSkipHead(rest, books);
            }
          }
          Success(r)
  }

  /** With no parameter set every book is kept. */
  lemma NoParamsKeepAll(books: seq<ListedBook>)
    ensures FilterBooks(books, Params(None, None, None)) == Success(books)
  {
    if books != [] {
      NoParamsKeepAll(books[1..]);
      assert books == [books[0]] + books[1..];
    }
  }

  /** A book whose genres include a bare string entry makes a genre search throw when that entry is reached. */
  lemma BareGenreEntryThrows(b: ListedBook, p: Params)
    requires IsSet(p.genre) && QueryOk(b, p)
    requires |b.genres| > 0 && b.genres[0].None?
    ensures Evaluate(b, p).Failure?
  {
  }

  /** `filteredBooks`: nothing until the fetch has completed without error. */
  function FilteredBooks(books: seq<ListedBook>, p: Params, fetched: bool, error: Option<string>): (r: Result<seq<ListedBook>, string>)
    ensures !fetched || error.Some? ==> r == Success([])
    ensures fetched && error.None? ==> r == FilterBooks(books, p)
  {
    if fetched && error.None? then FilterBooks(books, p) else Success([])
  }

  function IdIsNot(id: ApiId): ListedBook -> bool {
    (b: ListedBook) => b.source.id != id
  }

  /** `prev.filter((b) => b.id !== bookId)`: strict equality, so a numeric id never equals a string. */
  function RemoveBook(books: seq<ListedBook>, id: ApiId): (r: seq<ListedBook>)
    ensures forall b :: b in r <==> b in books && b.source.id != id
    ensures Seqs.IsSubseq(r, books)
  {
    Seqs.FilterIsSubseq(books, IdIsNot(id));
    forall b ensures b in Seqs.Filter(books, IdIsNot(id)) <==> b in books && b.source.id != id {
      Seqs.FilterMembership(books, IdIsNot(id), b);
    }
    Seqs.Filter(books, IdIsNot(id))
  }

  /** Deleting twice is deleting once. */
  lemma RemoveBookIdempotent(books: seq<ListedBook>, id: ApiId)
    ensures RemoveBook(RemoveBook(books, id), id) == RemoveBook(books, id)
  {
    Seqs.FilterIdempotent(books, IdIsNot(id));
  }

  /** The component's state cells. */
  class Listing {
    var books: seq<ListedBook>
    var error: Option<string>
    var fetched: bool

    constructor()
      ensures books == [] && error.None? && !fetched
    {
      books, error, fetched := [], None, false;
    }

    /** The fetch completed: its records normalised, or its error message kept. */
    method Loaded(response: Result<seq<ApiBook>, string>)
      modifies this
      ensures fetched
      ensures response.Success? ==>
                && error == old(error)
                && |books| == |response.value|
                && forall i :: 0 <= i < |books| ==> books[i] == Normalise(response.value[i])
      ensures response.Failure? ==> error == Some(response.error) && books == old(books)
    {
      if response.Success? {
        books := seq(|response.value|, i requires 0 <= i < |response.value| => Normalise(response.value[i]));
      } else {
        error := Some(response.error);
      }
      fetched := true;
    }

    /** `handleDelete(bookId)` */
    method HandleDelete(id: ApiId)
      modifies this
      ensures books == RemoveBook(old(books), id)
      ensures error == old(error) && fetched == old(fetched)
    {
      books := RemoveBook(books, id);
    }
  }
}
