/**
 * The "Atividade Recente" card of components/recent-books.tsx: the caller's array is sorted in
 * place, newest first, and its first five books are shown with a status badge and a rating.
 */
module RecentBooks {
  import opened Wrappers
  import opened Books
  import Seqs
  import UpdatedOrder

  const RECENT_COUNT: nat := 5
  const EMPTY_MESSAGE: string := "Nenhum livro cadastrado ainda"

  /**
   * `books.sort(newest first).slice(0, 5)`. The sort reorders the caller's array, so the array
   * itself ends up newest first; the result is its first five books.
   */
  method SelectRecent(books: array<Book>) returns (recent: seq<Book>)
    modifies books
    ensures books[..] == UpdatedOrder.SortByUpdatedDesc(old(books[..]))
    ensures UpdatedOrder.SortedDesc(books[..]) && multiset(books[..]) == multiset(old(books[..]))
    ensures recent == Seqs.Take(books[..], RECENT_COUNT)
    ensures |recent| == Seqs.Min(RECENT_COUNT, books.Length)
    ensures UpdatedOrder.SortedDesc(recent) && multiset(recent) <= multiset(old(books[..]))
  {
    ghost var input := books[..];
    var sorted := UpdatedOrder.SortByUpdatedDesc(books[..]);
    var i := 0;
    while i < books.Length
      invariant 0 <= i <= books.Length == |sorted|
      invariant books[..i] == sorted[..i]
    {
      books[i] := sorted[i];
      i := i + 1;
    }
    assert books[..] == sorted[..books.Length] == sorted;
    recent := Seqs.Take(sorted, RECENT_COUNT);
    UpdatedOrder.SortSorted(input);
    UpdatedOrder.Newest(input, RECENT_COUNT);
  }

  /** What the card body shows. */
  datatype Listing = Message(text: string) | Items(books: seq<Book>)

  function Shown(recent: seq<Book>): (r: Listing)
    ensures r.Message? <==> recent == []
    ensures r.Message? ==> r.text == EMPTY_MESSAGE
    ensures r.Items? ==> r.books == recent
  {
    if |recent| == 0 then Message(EMPTY_MESSAGE) else Items(recent)
  }

  /** An empty library shows the empty message. */
  lemma EmptyLibraryMessage(books: seq<Book>)
    requires books == []
    ensures Shown(Seqs.Take(UpdatedOrder.SortByUpdatedDesc(books), RECENT_COUNT)) == Message(EMPTY_MESSAGE)
  {
  }

  /** One of the five conditional fragments inside the badge. */
  function Fragment(status: string, st: ReadingStatus): string {
    if status == StatusValue(st) then StatusLabel(st) else ""
  }

  /**
   * The badge: absent when the status is missing or empty; otherwise the five fragments
   * (LENDO, LIDO, QUERO_LER, PAUSADO, ABANDONADO) side by side.
   */
  function Badge(status: Option<string>): Option<string> {
    if status.None? || status.value == "" then None
    else
      var v := status.value;
      Some(Fragment(v, Lendo) + Fragment(v, Lido) + Fragment(v, QueroLer)
           + Fragment(v, Pausado) + Fragment(v, Abandonado))
  }

  /** The badge of a status's own stored value is that status's label. */
  lemma OwnBadge(st: ReadingStatus)
    ensures Badge(Some(StatusValue(st))) == Some(StatusLabel(st))
  {
    var v := StatusValue(st);
    forall o | o != st ensures Fragment(v, o) == [] {
      assert |StatusValue(o)| != |v|;
    }
    var l, e := StatusLabel(st), "";
    assert Fragment(v, st) == l;
    match st {
      case Lendo => assert l + e + e + e + e == l;
      case Lido => assert e + l + e + e + e == l;
      case QueroLer => assert e + e + l + e + e == l;
      case Pausado => assert e + e + e + l + e == l;
      case Abandonado => assert e + e + e + e + l == l;
    }
  }

  /** Each status gets a badge holding exactly its own label, and distinct statuses get distinct badges. */
  lemma BadgeLabels(st: ReadingStatus, other: ReadingStatus)
    ensures Badge(Some(StatusValue(st))) == Some(StatusLabel(st))
    ensures st != other ==> Badge(Some(StatusValue(st))) != Badge(Some(StatusValue(other)))
  {
    OwnBadge(st);
    OwnBadge(other);
  }

  /** A set status that is none of the five gives an empty badge. */
  lemma UnknownStatusBadge(status: string)
    requires status != "" && forall st :: status != StatusValue(st)
    ensures Badge(Some(status)) == Some("")
  {
    var e: string := "";
    assert e + e == e;
    assert Fragment(status, Lendo) == e && Fragment(status, Lido) == e && Fragment(status, QueroLer) == e;
    assert Fragment(status, Pausado) == e && Fragment(status, Abandonado) == e;
  }

  /** `book.rating && book.rating > 0`: the star is shown only for a positive rating. */
  predicate ShowsRating(b: Book) {
    b.rating.Some? && b.rating.value > 0
  }
}
