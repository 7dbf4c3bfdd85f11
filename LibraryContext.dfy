/**
 * The library context provider (components/library-context.tsx): one `books` state cell that
 * `addBook`, `updateBook` and `removeBook` replace with a new list built from the previous one.
 */
module LibraryContext {
  import opened Wrappers
  import opened Books
  import Seqs

  /** `prev.map((b) => (b.id === book.id ? book : b))`: whole-record replacement, no merge. */
  function ReplaceById(books: seq<Book>, book: Book): (r: seq<Book>)
    ensures |r| == |books|
    ensures forall i :: 0 <= i < |r| ==> r[i].id == books[i].id
  {
    seq(|books|, i requires 0 <= i < |books| => if books[i].id == book.id then book else books[i])
  }

  /**
   * Replacement keeps the length and every position: a slot whose id matches now holds the new
   * record, every other slot is untouched.
   */
  lemma ReplaceByIdEffect(books: seq<Book>, book: Book, i: int)
    requires 0 <= i < |books|
    ensures |ReplaceById(books, book)| == |books|
    ensures books[i].id == book.id ==> ReplaceById(books, book)[i] == book
    ensures books[i].id != book.id ==> ReplaceById(books, book)[i] == books[i]
  {
  }

  /** Replacing a record whose id no book has leaves the list unchanged. */
  lemma ReplaceUnknownId(books: seq<Book>, book: Book)
    requires !HasId(books, book.id)
    ensures ReplaceById(books, book) == books
  {
  }

  /** Replacement is idempotent, and afterwards the id finds the new record. */
  lemma ReplaceByIdThenFind(books: seq<Book>, book: Book)
    requires HasId(books, book.id)
    ensures ReplaceById(ReplaceById(books, book), book) == ReplaceById(books, book)
    ensures FindById(ReplaceById(books, book), book.id) == Some(book)
  {
    var after := ReplaceById(books, book);
    var i := FirstIndexOf(books, book.id).value;
    assert after[i] == book;
    var k := FirstIndexOf(after, book.id).value;
    assert k == i;
  }

  /** A prepended record is the one the id finds first. */
  lemma FindAfterPrepend(books: seq<Book>, book: Book)
    ensures FindById([book] + books, book.id) == Some(book)
  {
    var after := [book] + books;
    assert after[0].id == book.id;
    assert FirstIndexOf(after, book.id) == Some(0);
  }

  /** The provider. `String(b.id) !== String(id)` is plain inequality, ids being strings. */
  class Provider {
    var books: seq<Book>

    /** `useState(initialBooks)` with `initialBooks = []` by default. */
    constructor(initialBooks: Option<seq<Book>>)
      ensures books == initialBooks.GetOr([])
    {
      books := initialBooks.GetOr([]);
    }

    /** `addBook`: the new book goes in front. */
    method AddBook(book: Book)
      modifies this
      ensures books == [book] + old(books)
    {
      books := [book] + books;
    }

    /** `updateBook`: replaces every record with the book's id. */
    method UpdateBook(book: Book)
      modifies this
      ensures books == ReplaceById(old(books), book)
    {
      books := ReplaceById(books, book);
    }

    /** `removeBook`: drops every record with the id. */
    method RemoveBook(id: string)
      modifies this
      ensures books == WithoutId(old(books), id)
    {
      books := WithoutId(books, id);
    }
  }
}
