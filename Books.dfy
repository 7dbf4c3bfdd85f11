/**
 * The book record and its reading statuses, as declared by the three type modules of the
 * application (types.ts, lib/types.ts, data/types.ts), and the list operations over book ids
 * that the three in-memory stores share.
 */
module Books {
  import opened Wrappers
  import Seqs
  import Text

  datatype ReadingStatus = QueroLer | Lendo | Lido | Pausado | Abandonado

  /** The five statuses in the order the application lists them. */
  const READING_STATUS: seq<ReadingStatus> := [QueroLer, Lendo, Lido, Pausado, Abandonado]

  /** The string each status is stored as. */
  function StatusValue(st: ReadingStatus): string {
    match st
    case QueroLer => "QUERO_LER"
    case Lendo => "LENDO"
    case Lido => "LIDO"
    case Pausado => "PAUSADO"
    case Abandonado => "ABANDONADO"
  }

  /** The label shown for each status. */
  function StatusLabel(st: ReadingStatus): string {
    match st
    case QueroLer => "Quero Ler"
    case Lendo => "Lendo"
    case Lido => "Lido"
    case Pausado => "Pausado"
    case Abandonado => "Abandonado"
  }

  /** The stored string identifies the status. */
  lemma StatusValueInjective(a: ReadingStatus, b: ReadingStatus)
    ensures StatusValue(a) == StatusValue(b) ==> a == b
  {
  }

  /** The fifteen genres offered by the forms and filters. */
  const GENRES: seq<string> := [
    "Literatura Brasileira", "Ficção Científica", "Realismo Mágico", "Ficção", "Fantasia",
    "Romance", "Biografia", "História", "Autoajuda", "Tecnologia", "Programação", "Negócios",
    "Psicologia", "Filosofia", "Poesia"
  ]

  /** A point in time, in milliseconds; the ISO strings and `Date` objects of the source denote one. */
  type Time = int

  /**
   * A book. `None` is a field that is absent (`undefined` or `null`). The status is kept as the
   * stored string: records read from JSON or from the remote API may hold any string there.
   */
  datatype Book = Book(
    id: string,
    title: string,
    author: string,
    genre: Option<string>,
    genres: Option<seq<string>>,
    genreIds: Option<seq<int>>,
    year: Option<int>,
    isbn: Option<string>,
    status: Option<string>,
    pages: Option<int>,
    currentPage: Option<int>,
    rating: Option<int>,
    cover: Option<string>,
    synopsis: Option<string>,
    notes: Option<string>,
    createdAt: Time,
    updatedAt: Time)

  /** `book.status === st` */
  predicate HasStatus(b: Book, st: ReadingStatus) {
    b.status == Some(StatusValue(st))
  }

  /** `book.pages || 0` */
  function PagesOr0(b: Book): int {
    match b.pages
    case Some(p) => p
    case None => 0
  }

  /**
   * `Partial<Book>`: for each field, `None` when the key is absent. For a field that may be
   * undefined, `Some(None)` is a key present with the value `undefined`, which the object
   * spread copies like any other value.
   */
  datatype Patch = Patch(
    id: Option<string>,
    title: Option<string>,
    author: Option<string>,
    genre: Option<Option<string>>,
    genres: Option<Option<seq<string>>>,
    genreIds: Option<Option<seq<int>>>,
    year: Option<Option<int>>,
    isbn: Option<Option<string>>,
    status: Option<Option<string>>,
    pages: Option<Option<int>>,
    currentPage: Option<Option<int>>,
    rating: Option<Option<int>>,
    cover: Option<Option<string>>,
    synopsis: Option<Option<string>>,
    notes: Option<Option<string>>,
    createdAt: Option<Time>,
    updatedAt: Option<Time>)

  /** The empty object `{}`. */
  const NoChanges: Patch :=
    Patch(None, None, None, None, None, None, None, None, None, None, None, None, None, None, None, None, None)

  function Over<T>(v: T, o: Option<T>): T {
    match o
    case Some(w) => w
    case None => v
  }

  /** `{ ...b, ...p }`: the keys `p` carries override those of `b`. */
  function Merge(b: Book, p: Patch): (r: Book)
    ensures r.id == (if p.id.Some? then p.id.value else b.id)
    ensures r.title == (if p.title.Some? then p.title.value else b.title)
    ensures r.author == (if p.author.Some? then p.author.value else b.author)
    ensures r.genre == (if p.genre.Some? then p.genre.value else b.genre)
    ensures r.genres == (if p.genres.Some? then p.genres.value else b.genres)
    ensures r.genreIds == (if p.genreIds.Some? then p.genreIds.value else b.genreIds)
    ensures r.year == (if p.year.Some? then p.year.value else b.year)
    ensures r.isbn == (if p.isbn.Some? then p.isbn.value else b.isbn)
    ensures r.status == (if p.status.Some? then p.status.value else b.status)
    ensures r.pages == (if p.pages.Some? then p.pages.value else b.pages)
    ensures r.currentPage == (if p.currentPage.Some? then p.currentPage.value else b.currentPage)
    ensures r.rating == (if p.rating.Some? then p.rating.value else b.rating)
    ensures r.cover == (if p.cover.Some? then p.cover.value else b.cover)
    ensures r.synopsis == (if p.synopsis.Some? then p.synopsis.value else b.synopsis)
    ensures r.notes == (if p.notes.Some? then p.notes.value else b.notes)
    ensures r.createdAt == (if p.createdAt.Some? then p.createdAt.value else b.createdAt)
    ensures r.updatedAt == (if p.updatedAt.Some? then p.updatedAt.value else b.updatedAt)
  {
    Book(
      Over(b.id, p.id), Over(b.title, p.title), Over(b.author, p.author), Over(b.genre, p.genre),
      Over(b.genres, p.genres), Over(b.genreIds, p.genreIds), Over(b.year, p.year),
      Over(b.isbn, p.isbn), Over(b.status, p.status), Over(b.pages, p.pages),
      Over(b.currentPage, p.currentPage), Over(b.rating, p.rating), Over(b.cover, p.cover),
      Over(b.synopsis, p.synopsis), Over(b.notes, p.notes), Over(b.createdAt, p.createdAt),
      Over(b.updatedAt, p.updatedAt))
  }

  /** Spreading the empty object changes nothing. */
  lemma MergeNoChanges(b: Book)
    ensures Merge(b, NoChanges) == b
  {
  }

  /** Applying the same changes twice is applying them once. */
  lemma MergeIdempotent(b: Book, p: Patch)
    ensures Merge(Merge(b, p), p) == Merge(b, p)
  {
  }

  /** `{ ...p, ...q }` for two patches: a key `q` carries wins, the others come from `p`. */
  function Then(p: Patch, q: Patch): Patch {
    Patch(
      Then1(p.id, q.id),
      Then1(p.title, q.title),
      Then1(p.author, q.author),
      Then1(p.genre, q.genre),
      Then1(p.genres, q.genres),
      Then1(p.genreIds, q.genreIds),
      Then1(p.year, q.year),
      Then1(p.isbn, q.isbn),
      Then1(p.status, q.status),
      Then1(p.pages, q.pages),
      Then1(p.currentPage, q.currentPage),
      Then1(p.rating, q.rating),
      Then1(p.cover, q.cover),
      Then1(p.synopsis, q.synopsis),
      Then1(p.notes, q.notes),
      Then1(p.createdAt, q.createdAt),
      Then1(p.updatedAt, q.updatedAt))
  }

  function Then1<T>(o: Option<T>, o2: Option<T>): Option<T> {
    if o2.Some? then o2 else o
  }

  /** Spreading `p` and then `q` over a book is spreading `{ ...p, ...q }` once. */
  lemma MergeThen(b: Book, p: Patch, q: Patch)
    ensures Merge(Merge(b, p), q) == Merge(b, Then(p, q))
  {
  }

  /** `{ ...book, ...updates, updatedAt: now }`, the update both the store and the JSON file use. */
  function Touched(b: Book, p: Patch, now: Time): (r: Book)
    ensures r.updatedAt == now
    ensures r.(updatedAt := b.updatedAt) == Merge(b, p).(updatedAt := b.updatedAt)
  {
    Merge(b, p).(updatedAt := now)
  }

  /** `{ ...data, id, createdAt: now, updatedAt: now }`: a new record keeps every supplied field. */
  function NewRecord(data: Book, id: string, now: Time): (r: Book)
    ensures r.id == id && r.createdAt == now && r.updatedAt == now
    ensures r.(id := data.id, createdAt := data.createdAt, updatedAt := data.updatedAt) == data
  {
    data.(id := id, createdAt := now, updatedAt := now)
  }

  /** Some book in the list has the id. */
  predicate HasId(books: seq<Book>, id: string) {
    exists i :: 0 <= i < |books| && books[i].id == id
  }

  /** `books.findIndex((b) => b.id === id)`, with `None` for -1. */
  function FirstIndexOf(books: seq<Book>, id: string): (r: Option<nat>)
    ensures r.None? <==> !HasId(books, id)
    ensures r.Some? ==> r.value < |books| && books[r.value].id == id
    ensures r.Some? ==> forall j :: 0 <= j < r.value ==> books[j].id != id
  {
    if books == [] then None
    else if books[0].id == id then Some(0)
    else
      match FirstIndexOf(books[1..], id)
      case None =>
        assert forall i :: 1 <= i < |books| ==> books[i] == books[1..][i - 1];
        None
      case Some(i) => Some(i + 1)
  }

  /** `books.find((b) => b.id === id)`: the first book with the id, `None` when there is none. */
  function FindById(books: seq<Book>, id: string): (r: Option<Book>)
    ensures r.None? <==> !HasId(books, id)
    ensures r.Some? ==> exists i :: 0 <= i < |books| && books[i] == r.value && r.value.id == id &&
                          forall j :: 0 <= j < i ==> books[j].id != id
  {
    match FirstIndexOf(books, id)
    case Some(i) => Some(books[i])
    case None => None
  }

  function IdIsNot(id: string): Book -> bool {
    (b: Book) => b.id != id
  }

  /** `books.filter((b) => b.id !== id)` */
  function WithoutId(books: seq<Book>, id: string): (r: seq<Book>)
    ensures forall b :: b in r <==> b in books && b.id != id
    ensures !HasId(r, id)
    ensures Seqs.IsSubseq(r, books)
  {
    Seqs.FilterIsSubseq(books, IdIsNot(id));
    var r := Seqs.Filter(books, IdIsNot(id));
    assert forall b :: b in r <==> b in books && b.id != id by {
      forall b ensures b in r <==> b in books && b.id != id {
        Seqs.FilterMembership(books, IdIsNot(id), b);
      }
    }
    r
  }

  /** Removing an id a second time changes nothing. */
  lemma WithoutIdIdempotent(books: seq<Book>, id: string)
    ensures WithoutId(WithoutId(books, id), id) == WithoutId(books, id)
  {
    Seqs.FilterIdempotent(books, IdIsNot(id));
  }

  /** Removing an id no book has leaves the list as it is. */
  lemma WithoutUnknownId(books: seq<Book>, id: string)
    requires !HasId(books, id)
    ensures WithoutId(books, id) == books
  {
    Seqs.FilterAllTrue(books, IdIsNot(id));
  }

  /** Removal shortens the list exactly when some book has the id. */
  lemma WithoutIdShortens(books: seq<Book>, id: string)
    ensures |WithoutId(books, id)| < |books| <==> HasId(books, id)
  {
    Seqs.FilterKeepsAllIff(books, IdIsNot(id));
    if HasId(books, id) {
      var i :| 0 <= i < |books| && books[i].id == id;
      assert books[i] in books;
    }
  }

  /** `b.title.toLowerCase().includes(q) || b.author.toLowerCase().includes(q)` for an already lowered `q`. */
  predicate TitleOrAuthorIncludes(b: Book, q: string) {
    Text.Contains(Text.Lower(b.title), q) || Text.Contains(Text.Lower(b.author), q)
  }

  /** The empty query matches every book. */
  lemma EmptyQueryMatches(b: Book)
    ensures TitleOrAuthorIncludes(b, "")
  {
    Text.ContainsEmpty(Text.Lower(b.title));
  }

  function StatusIs(status: ReadingStatus): Book -> bool {
    (b: Book) => HasStatus(b, status)
  }

  /** `books.filter((book) => book.status === status)` */
  function BooksWithStatus(books: seq<Book>, status: ReadingStatus): (r: seq<Book>)
    ensures forall b :: b in r <==> b in books && HasStatus(b, status)
    ensures Seqs.IsSubseq(r, books)
  {
    Seqs.FilterIsSubseq(books, StatusIs(status));
    forall b ensures b in Seqs.Filter(books, StatusIs(status)) <==> b in books && HasStatus(b, status) {
      Seqs.FilterMembership(books, StatusIs(status), b);
    }
    Seqs.Filter(books, StatusIs(status))
  }
}
