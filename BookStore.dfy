/**
 * The client-side book store (lib/book-store.ts): a single `books` list that `addBook`,
 * `updateBook` and `deleteBook` replace, and four read-only queries over it.
 */
module BookStore {
  import opened Wrappers
  import opened Books
  import Seqs
  import Text

  /** `books.map((book) => (book.id === id ? { ...book, ...updates, updatedAt: now } : book))` */
  function UpdateAll(books: seq<Book>, id: string, updates: Patch, now: Time): (r: seq<Book>)
    ensures |r| == |books|
    ensures forall i :: 0 <= i < |r| && books[i].id != id ==> r[i] == books[i]
  {
    seq(|books|, i requires 0 <= i < |books| => if books[i].id == id then Touched(books[i], updates, now) else books[i])
  }

  /**
   * Updating keeps the length and the order: a book with another id is untouched, and every
   * book with the id gets the updates merged over it and the new update time.
   */
  lemma UpdateAllEffect(books: seq<Book>, id: string, updates: Patch, now: Time, i: int)
    requires 0 <= i < |books|
    ensures |UpdateAll(books, id, updates, now)| == |books|
    ensures books[i].id != id ==> UpdateAll(books, id, updates, now)[i] == books[i]
    ensures books[i].id == id ==> UpdateAll(books, id, updates, now)[i] == Merge(books[i], updates).(updatedAt := now)
  {
  }

  /** Updating an id that no book has leaves the list unchanged. */
  lemma UpdateUnknownId(books: seq<Book>, id: string, updates: Patch, now: Time)
    requires !HasId(books, id)
    ensures UpdateAll(books, id, updates, now) == books
  {
  }

  /** Repeating an update that does not rename the book changes nothing more. */
  lemma UpdateAllIdempotent(books: seq<Book>, id: string, updates: Patch, now: Time)
    requires updates.id == None || updates.id == Some(id)
    ensures UpdateAll(UpdateAll(books, id, updates, now), id, updates, now) == UpdateAll(books, id, updates, now)
  {
    var once := UpdateAll(books, id, updates, now);
    forall i | 0 <= i < |books| && books[i].id == id
      ensures once[i].id == id && Touched(once[i], updates, now) == once[i]
    {
      MergeIdempotent(books[i], updates);
    }
  }

  /** After an update that does not rename the book, looking the id up finds the updated first book. */
  lemma FindAfterUpdate(books: seq<Book>, id: string, updates: Patch, now: Time)
    requires HasId(books, id)
    requires updates.id == None || updates.id == Some(id)
    ensures FindById(UpdateAll(books, id, updates, now), id) == Some(Touched(FindById(books, id).value, updates, now))
  {
    var after := UpdateAll(books, id, updates, now);
    var i := FirstIndexOf(books, id).value;
    assert after[i].id == id;
    var k := FirstIndexOf(after, id).value;
    assert k == i;
  }

  /** After adding a book under a fresh id, looking that id up finds exactly the new book. */
  lemma FindAfterAdd(books: seq<Book>, bookData: Book, newId: string, now: Time)
    requires !HasId(books, newId)
    ensures FindById(books + [NewRecord(bookData, newId, now)], newId) == Some(NewRecord(bookData, newId, now))
  {
    var after := books + [NewRecord(bookData, newId, now)];
    assert after[|books|].id == newId;
    var k := FirstIndexOf(after, newId).value;
    assert k == |books|;
  }

  function QueryMatches(lowercaseQuery: string): Book -> bool {
    (b: Book) => TitleOrAuthorIncludes(b, lowercaseQuery)
  }

  /** `searchBooks`: the books whose lowercased title or author includes the lowercased query. */
  function SearchBooks(books: seq<Book>, query: string): (r: seq<Book>)
    ensures forall b :: b in r <==> b in books && TitleOrAuthorIncludes(b, Text.Lower(query))
    ensures Seqs.IsSubseq(r, books)
    ensures query == "" ==> r == books
  {
    var q := Text.Lower(query);
    Seqs.FilterIsSubseq(books, QueryMatches(q));
    forall b ensures b in Seqs.Filter(books, QueryMatches(q)) <==> b in books && TitleOrAuthorIncludes(b, q) {
      Seqs.FilterMembership(books, QueryMatches(q), b);
    }
    if query == "" then
      forall b | b in books ensures QueryMatches(q)(b) {
        EmptyQueryMatches(b);
      }
      Seqs.FilterAllTrue(books, QueryMatches(q));
      Seqs.Filter(books, QueryMatches(q))
    else
      Seqs.Filter(books, QueryMatches(q))
  }

  function GenreIs(genre: string): Book -> bool {
    (b: Book) => b.genre == Some(genre)
  }

  /** `books.filter((book) => book.genre === genre)`: exact, case-sensitive matching. */
  function BooksWithGenre(books: seq<Book>, genre: string): (r: seq<Book>)
    ensures forall b :: b in r <==> b in books && b.genre == Some(genre)
    ensures Seqs.IsSubseq(r, books)
  {
    Seqs.FilterIsSubseq(books, GenreIs(genre));
    forall b ensures b in Seqs.Filter(books, GenreIs(genre)) <==> b in books && b.genre == Some(genre) {
      Seqs.FilterMembership(books, GenreIs(genre), b);
    }
    Seqs.Filter(books, GenreIs(genre))
  }

  /**
   * The store. The list starts as `initialBooks` (whose source file is not part of this model);
   * fresh ids and clock values are parameters.
   */
  class Store {
    var books: seq<Book>

    constructor(initialBooks: seq<Book>)
      ensures books == initialBooks
    {
      books := initialBooks;
    }

    /** `addBook`: appends one new record; `newId` stands for `crypto.randomUUID()`. */
    method AddBook(bookData: Book, newId: string, now: Time)
      modifies this
      ensures books == old(books) + [NewRecord(bookData, newId, now)]
    {
      var newBook := NewRecord(bookData, newId, now);
      books := books + [newBook];
    }

    /** `updateBook`: merges the updates into every book with the id. */
    method UpdateBook(id: string, updates: Patch, now: Time)
      modifies this
      ensures books == UpdateAll(old(books), id, updates, now)
    {
      books := UpdateAll(books, id, updates, now);
    }

    /** `deleteBook`: drops every book with the id. */
    method DeleteBook(id: string)
      modifies this
      ensures books == WithoutId(old(books), id)
    {
      books := WithoutId(books, id);
    }

    function GetBookById(id: string): (r: Option<Book>)
      reads this
      ensures r.None? <==> !HasId(books, id)
      ensures r.Some? ==> r.value in books && r.value.id == id
    {
      FindById(books, id)
    }

    function GetBooksByStatus(status: ReadingStatus): (r: seq<Book>)
      reads this
      ensures forall b :: b in r <==> b in books && HasStatus(b, status)
    {
      BooksWithStatus(books, status)
    }

    function Search(query: string): (r: seq<Book>)
      reads this
      ensures forall b :: b in r <==> b in books && TitleOrAuthorIncludes(b, Text.Lower(query))
    {
      SearchBooks(books, query)
    }

    function FilterByGenre(genre: string): (r: seq<Book>)
      reads this
      ensures forall b :: b in r <==> b in books && b.genre == Some(genre)
    {
      BooksWithGenre(books, genre)
    }
  }
}
