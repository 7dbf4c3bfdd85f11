/**
 * The JSON-file database (db.ts). The two files `data/books.json` and `data/genres.json` are
 * the fields `books` and `genres`; each write of a file is counted, so that "nothing is written"
 * is observable. Clock readings are parameters.
 */
module JsonDb {
  import opened Wrappers
  import opened Books
  import Seqs
  import Text
  import BookStore

  /** No two books share an id. */
  predicate UniqueIds(books: seq<Book>) {
    forall i, j :: 0 <= i < j < |books| ==> books[i].id != books[j].id
  }

  /** The stored list after `update`: only the first book with the id is replaced. */
  function UpdateFirst(books: seq<Book>, id: string, data: Patch, now: Time): (r: seq<Book>)
    ensures |r| == |books|
    ensures !HasId(books, id) ==> r == books
    ensures HasId(books, id) ==> r[FirstIndexOf(books, id).value] == Touched(FindById(books, id).value, data, now)
    ensures forall i :: 0 <= i < |books| && Some(i) != FirstIndexOf(books, id) ==> r[i] == books[i]
  {
    match FirstIndexOf(books, id)
    case None => books
    case Some(i) => books[i := Touched(books[i], data, now)]
  }

  /**
   * When ids are unique, updating the first match (this file) and updating every match
   * (the client store) give the same list.
   */
  lemma UpdateFirstIsUpdateAll(books: seq<Book>, id: string, data: Patch, now: Time)
    requires UniqueIds(books)
    ensures UpdateFirst(books, id, data, now) == BookStore.UpdateAll(books, id, data, now)
  {
    var all := BookStore.UpdateAll(books, id, data, now);
    match FirstIndexOf(books, id)
    case None =>
      BookStore.UpdateUnknownId(books, id, data, now);
    case Some(k) =>
      forall i | 0 <= i < |books| ensures UpdateFirst(books, id, data, now)[i] == all[i] {
        if i != k {
          assert books[i].id != id by {
            if i < k {
            } else {
              assert books[k].id != books[i].id;
            }
          }
        }
      }
  }

  /** `(value ?? "").toLowerCase() === wanted.toLowerCase()` */
  predicate SameIgnoringCase(value: Option<string>, wanted: string) {
    Text.Lower(value.GetOr("")) == Text.Lower(wanted)
  }

  function GenreMatches(genre: string): Book -> bool {
    (b: Book) => SameIgnoringCase(b.genre, genre)
  }

  function StatusMatches(status: string): Book -> bool {
    (b: Book) => SameIgnoringCase(b.status, status)
  }

  /** `filterByGenre`: case-insensitive equality, a missing genre reading as "". */
  function BooksOfGenre(books: seq<Book>, genre: string): (r: seq<Book>)
    ensures forall b :: b in r <==> b in books && SameIgnoringCase(b.genre, genre)
    ensures Seqs.IsSubseq(r, books)
  {
    Seqs.FilterIsSubseq(books, GenreMatches(genre));
    forall b ensures b in Seqs.Filter(books, GenreMatches(genre)) <==> b in books && SameIgnoringCase(b.genre, genre) {
      Seqs.FilterMembership(books, GenreMatches(genre), b);
    }
    Seqs.Filter(books, GenreMatches(genre))
  }

  /** `filterByStatus`: case-insensitive equality, a missing status reading as "". */
  function BooksOfStatus(books: seq<Book>, status: string): (r: seq<Book>)
    ensures forall b :: b in r <==> b in books && SameIgnoringCase(b.status, status)
    ensures Seqs.IsSubseq(r, books)
  {
    Seqs.FilterIsSubseq(books, StatusMatches(status));
    forall b ensures b in Seqs.Filter(books, StatusMatches(status)) <==> b in books && SameIgnoringCase(b.status, status) {
      Seqs.FilterMembership(books, StatusMatches(status), b);
    }
    Seqs.Filter(books, StatusMatches(status))
  }

  /** The genre filter ignores the case of its argument. */
  lemma BooksOfGenreIgnoresCase(books: seq<Book>, genre: string)
    ensures BooksOfGenre(books, Text.Lower(genre)) == BooksOfGenre(books, genre)
  {
    Text.LowerIdempotent(genre);
    Seqs.FilterExt(books, GenreMatches(Text.Lower(genre)), GenreMatches(genre));
  }

  /** The genre list after `addGenre`: appended only when absent (exact match). */
  function WithGenre(genres: seq<string>, genre: string): (r: seq<string>)
    ensures genre in r
    ensures genre in genres ==> r == genres
    ensures genre !in genres ==> r == genres + [genre]
    ensures Seqs.NoDuplicates(genres) ==> Seqs.NoDuplicates(r)
  {
    if genre in genres then genres else genres + [genre]
  }

  /** Adding a genre twice is adding it once. */
  lemma WithGenreIdempotent(genres: seq<string>, genre: string)
    ensures WithGenre(WithGenre(genres, genre), genre) == WithGenre(genres, genre)
  {
  }

  function DiffersIgnoringCase(genre: string): string -> bool {
    (g: string) => Text.Lower(g) != Text.Lower(genre)
  }

  /** The genre list after `removeGenre`: every case-insensitive match is gone, the rest kept in order. */
  function WithoutGenre(genres: seq<string>, genre: string): (r: seq<string>)
    ensures forall g :: g in r <==> g in genres && Text.Lower(g) != Text.Lower(genre)
    ensures Seqs.IsSubseq(r, genres)
    ensures |r| == |genres| <==> forall g :: g in genres ==> Text.Lower(g) != Text.Lower(genre)
  {
    Seqs.FilterIsSubseq(genres, DiffersIgnoringCase(genre));
    Seqs.FilterKeepsAllIff(genres, DiffersIgnoringCase(genre));
    forall g ensures g in Seqs.Filter(genres, DiffersIgnoringCase(genre)) <==> g in genres && Text.Lower(g) != Text.Lower(genre) {
      Seqs.FilterMembership(genres, DiffersIgnoringCase(genre), g);
    }
    Seqs.Filter(genres, DiffersIgnoringCase(genre))
  }

  class Db {
    var books: seq<Book>
    var genres: seq<string>
    var bookWrites: nat
    var genreWrites: nat

    constructor(storedBooks: seq<Book>, storedGenres: seq<string>)
      ensures books == storedBooks && genres == storedGenres
      ensures bookWrites == 0 && genreWrites == 0
    {
      books, genres := storedBooks, storedGenres;
      bookWrites, genreWrites := 0, 0;
    }

    /** `getById`: the first book with the id, `None` for `null`. */
    function GetById(id: string): (r: Option<Book>)
      reads this
      ensures r.None? <==> !HasId(books, id)
      ensures r.Some? ==> r.value in books && r.value.id == id
    {
      FindById(books, id)
    }

    /**
     * `create`: appends the book under the id `Date.now().toString()` (`stamp` is the reading of
     * `Date.now()`, `now` that of `new Date()`) and writes the file.
     */
    method Create(book: Book, stamp: nat, now: Time) returns (newBook: Book)
      modifies this
      ensures newBook == NewRecord(book, Text.NatToDecimal(stamp), now)
      ensures books == old(books) + [newBook]
      ensures bookWrites == old(bookWrites) + 1
      ensures genres == old(genres) && genreWrites == old(genreWrites)
    {
      newBook := NewRecord(book, Text.NatToDecimal(stamp), now);
      books := books + [newBook];
      bookWrites := bookWrites + 1;
    }

    /** `update`: `None` (null) and no write when no book has the id; otherwise the first match is replaced. */
    method Update(id: string, data: Patch, now: Time) returns (r: Option<Book>)
      modifies this
      ensures r.None? <==> !HasId(old(books), id)
      ensures r.Some? ==> r.value == Touched(FindById(old(books), id).value, data, now)
      ensures books == UpdateFirst(old(books), id, data, now)
      ensures bookWrites == old(bookWrites) + (if r.Some? then 1 else 0)
      ensures genres == old(genres) && genreWrites == old(genreWrites)
    {
      var idx := FirstIndexOf(books, id);
      if idx.None? {
        return None;
      }
      var updatedBook := Touched(books[idx.value], data, now);
      books := books[idx.value := updatedBook];
      bookWrites := bookWrites + 1;
      r := Some(updatedBook);
    }

    /** `delete`: `true` exactly when some book had the id; only then is the file rewritten. */
    method Delete(id: string) returns (deleted: bool)
      modifies this
      ensures deleted == HasId(old(books), id)
      ensures deleted ==> books == WithoutId(old(books), id) && bookWrites == old(bookWrites) + 1
      ensures !deleted ==> books == old(books) && bookWrites == old(bookWrites)
      ensures genres == old(genres) && genreWrites == old(genreWrites)
    {
      var filtered := WithoutId(books, id);
      WithoutIdShortens(books, id);
      if |filtered| == |books| {
        return false;
      }
      books := filtered;
      bookWrites := bookWrites + 1;
      deleted := true;
    }

    /** `search`, the same test as the client store's `searchBooks`. */
    function Search(query: string): (r: seq<Book>)
      reads this
      ensures forall b :: b in r <==> b in books && TitleOrAuthorIncludes(b, Text.Lower(query))
    {
      BookStore.SearchBooks(books, query)
    }

    function FilterByGenre(genre: string): (r: seq<Book>)
      reads this
      ensures forall b :: b in r <==> b in books && SameIgnoringCase(b.genre, genre)
    {
      BooksOfGenre(books, genre)
    }

    function FilterByStatus(status: string): (r: seq<Book>)
      reads this
      ensures forall b :: b in r <==> b in books && SameIgnoringCase(b.status, status)
    {
      BooksOfStatus(books, status)
    }

    /** `addGenre`: appends an absent genre and writes the file; returns the list. */
    method AddGenre(genre: string) returns (list: seq<string>)
      modifies this
      ensures genres == WithGenre(old(genres), genre) && list == genres
      ensures genreWrites == old(genreWrites) + (if genre in old(genres) then 0 else 1)
      ensures books == old(books) && bookWrites == old(bookWrites)
    {
      if genre !in genres {
        genres := genres + [genre];
        genreWrites := genreWrites + 1;
      }
      list := genres;
    }

    /** `removeGenre`: `false` and no write when nothing matched, ignoring case. */
    method RemoveGenre(genre: string) returns (removed: bool)
      modifies this
      ensures removed <==> exists g :: g in old(genres) && Text.Lower(g) == Text.Lower(genre)
      ensures removed ==> genres == WithoutGenre(old(genres), genre) && genreWrites == old(genreWrites) + 1
      ensures !removed ==> genres == old(genres) && genreWrites == old(genreWrites)
      ensures books == old(books) && bookWrites == old(bookWrites)
    {
      var filtered := WithoutGenre(genres, genre);
      if |filtered| == |genres| {
        return false;
      }
      genres := filtered;
      genreWrites := genreWrites + 1;
      removed := true;
    }
  }
}
