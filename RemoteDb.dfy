/**
 * The client of the remote book API (data/db.ts) without its HTTP calls: the genre catalogue and
 * its fallback table, resolving genre names to ids, shaping create and update payloads, and
 * mapping API records to books. Responses of the server are parameters.
 */
module RemoteDb {
  import opened Wrappers
  import opened Books
  import Seqs
  import Text

  datatype Genre = Genre(id: int, name: string)

  const PLACEHOLDER_COVER: string := "https://via.placeholder.com/150"
  const NO_SYNOPSIS: string := "Sem sinopse"
  const UNKNOWN_GENRE: string := "Gênero desconhecido: "

  /** The table `getGenres` falls back to. */
  const FALLBACK_GENRES: seq<Genre> := [
    Genre(1, "Literatura Brasileira"), Genre(2, "Ficção Científica"), Genre(3, "Realismo Mágico"),
    Genre(4, "Ficção"), Genre(5, "Fantasia"), Genre(6, "Romance"), Genre(7, "Biografia"),
    Genre(8, "História"), Genre(9, "Autoajuda"), Genre(10, "Tecnologia"), Genre(11, "Programação"),
    Genre(12, "Negócios"), Genre(13, "Psicologia"), Genre(14, "Filosofia"), Genre(15, "Poesia"),
    Genre(16, "Mistério")
  ]

  function Names(genres: seq<Genre>): (r: seq<string>)
    ensures |r| == |genres| && forall i :: 0 <= i < |r| ==> r[i] == genres[i].name
  {
    seq(|genres|, i requires 0 <= i < |genres| => genres[i].name)
  }

  /** The names of the fallback table: the form's fifteen genres, then "Mistério". */
  lemma FallbackNameList()
    ensures Names(FALLBACK_GENRES) == GENRES + ["Mistério"]
  {
    assert Names(FALLBACK_GENRES) == [
      "Literatura Brasileira", "Ficção Científica", "Realismo Mágico", "Ficção", "Fantasia",
      "Romance", "Biografia", "História", "Autoajuda", "Tecnologia", "Programação", "Negócios",
      "Psicologia", "Filosofia", "Poesia", "Mistério"];
  }

  /** The names of the fallback table are all different. */
  lemma FallbackNames()
    ensures Names(FALLBACK_GENRES) == GENRES + ["Mistério"]
    ensures Seqs.NoDuplicates(Names(FALLBACK_GENRES))
  {
    FallbackNameList();
    var n := GENRES + ["Mistério"];
    forall i, j | 0 <= i < j < |n| ensures n[i] != n[j] {
      assert |n[i]| != |n[j]| || n[i][0] != n[j][0];
    }
  }

  /** The fallback table numbers its genres 1 to 16, names them all differently, and starts with the form's fifteen. */
  lemma FallbackTable()
    ensures |FALLBACK_GENRES| == 16
    ensures forall i :: 0 <= i < |FALLBACK_GENRES| ==> FALLBACK_GENRES[i].id == i + 1
    ensures Seqs.NoDuplicates(Names(FALLBACK_GENRES))
    ensures Names(FALLBACK_GENRES)[..15] == GENRES
  {
    FallbackNames();
    assert (GENRES + ["Mistério"])[..15] == GENRES;
  }

  /**
   * `getGenres`: the remote list when the request succeeds with a non-empty array; the fallback
   * table when it fails or comes back empty.
   */
  function GetGenres(remote: Result<seq<Genre>, string>): (r: seq<Genre>)
    ensures r != []
    ensures remote.Success? && remote.value != [] ==> r == remote.value
    ensures remote.Failure? || remote.value == [] ==> r == FALLBACK_GENRES
  {
    if remote.Success? && |remote.value| > 0 then remote.value else FALLBACK_GENRES
  }

  /** `allGenres.find((ag) => ag.name === name)` */
  function FindGenre(catalogue: seq<Genre>, name: string): (r: Option<Genre>)
    ensures r.Some? ==> r.value in catalogue && r.value.name == name
  {
    if catalogue == [] then None
    else if catalogue[0].name == name then Some(catalogue[0])
    else FindGenre(catalogue[1..], name)
  }

  /** The search finds nothing exactly when no genre has the name, and otherwise the first that has it. */
  lemma {:induction false} FindGenreSpec(catalogue: seq<Genre>, name: string)
    ensures FindGenre(catalogue, name).None? <==> forall g :: g in catalogue ==> g.name != name
    ensures var r := FindGenre(catalogue, name);
      r.Some? ==> exists i :: 0 <= i < |catalogue| && catalogue[i] == r.value && r.value.name == name
                    && forall j :: 0 <= j < i ==> catalogue[j].name != name
  {
    if catalogue != [] && catalogue[0].name != name {
      var rest := FindGenre(catalogue[1..], name);
      FindGenreSpec(catalogue[1..], name);
      assert forall g :: g in catalogue ==> g == catalogue[0] || g in catalogue[1..];
      if rest.Some? {
        var i :| 0 <= i < |catalogue[1..]| && catalogue[1..][i] == rest.value && rest.value.name == name
                 && forall j :: 0 <= j < i ==> catalogue[1..][j].name != name;
        assert catalogue[i + 1] == rest.value;
      }
    } else if catalogue != [] {
      assert catalogue[0] in catalogue;
    }
  }

  /** An entry of the genre list passed to `resolveGenreIds`: an id already, or a name. */
  datatype GenreRef = GenreId(id: int) | GenreName(name: string)

  predicate Known(catalogue: seq<Genre>, g: GenreRef) {
    g.GenreName? ==> FindGenre(catalogue, g.name).Some?
  }

  /** The id one entry resolves to. */
  function IdOf(catalogue: seq<Genre>, g: GenreRef): int
    requires Known(catalogue, g)
  {
    match g
    case GenreId(id) => id
    case GenreName(name) => FindGenre(catalogue, name).value.id
  }

  /** `genres.map(...)`, which throws at the first unknown name. */
  function ResolveAll(catalogue: seq<Genre>, genres: seq<GenreRef>): (r: Result<seq<int>, string>)
    ensures r.Success? ==> |r.value| == |genres|
  {
    if genres == [] then Success([])
    else if !Known(catalogue, genres[0]) then Failure(UNKNOWN_GENRE + genres[0].name)
    else
      var rest := ResolveAll(catalogue, genres[1..]);
      if rest.Failure? then rest else Success([IdOf(catalogue, genres[0])] + rest.value)
  }

  /**
   * Resolution succeeds exactly when every entry is known; it then keeps length and order, with
   * each entry's id; otherwise it fails naming an unknown genre of the list.
   */
  lemma {:induction false} ResolveAllSpec(catalogue: seq<Genre>, genres: seq<GenreRef>)
    ensures var r := ResolveAll(catalogue, genres);
      && (r.Success? <==> forall i :: 0 <= i < |genres| ==> Known(catalogue, genres[i]))
      && (r.Success? ==>
            && |r.value| == |genres|
            && forall i :: 0 <= i < |genres| ==> r.value[i] == IdOf(catalogue, genres[i]))
      && (r.Failure? ==>
            exists i :: 0 <= i < |genres| && genres[i].GenreName? && !Known(catalogue, genres[i])
                        && r.error == UNKNOWN_GENRE + genres[i].name)
  {
    if genres != [] && Known(catalogue, genres[0]) {
      var rest := ResolveAll(catalogue, genres[1..]);
      ResolveAllSpec(catalogue, genres[1..]);
      if rest.Failure? {
        var i :| 0 <= i < |genres[1..]| && genres[1..][i].GenreName? && !Known(catalogue, genres[1..][i])
                 && rest.error == UNKNOWN_GENRE + genres[1..][i].name;
        assert genres[i + 1] == genres[1..][i];
      }
      forall i | 1 <= i < |genres| ensures genres[i] == genres[1..][i - 1] { }
    } else if genres != [] {
      assert !Known(catalogue, genres[0]);
    }
  }

  /** `resolveGenreIds(genres)`: no list (or `undefined`) gives no ids. */
  function ResolveGenreIds(genres: Option<seq<GenreRef>>, catalogue: seq<Genre>): (r: Result<seq<int>, string>)
    ensures genres.None? ==> r == Success([])
    ensures genres.Some? ==> r == ResolveAll(catalogue, genres.value)
  {
    if genres.None? then Success([]) else ResolveAll(catalogue, genres.value)
  }

  /** Resolution keeps numbers as they are and the order of the entries. */
  lemma ResolveIdsPassThrough(catalogue: seq<Genre>, ids: seq<int>)
    ensures ResolveGenreIds(Some(seq(|ids|, i requires 0 <= i < |ids| => GenreId(ids[i]))), catalogue) == Success(ids)
  {
    var refs := seq(|ids|, i requires 0 <= i < |ids| => GenreId(ids[i]));
    var r := ResolveAll(catalogue, refs);
    ResolveAllSpec(catalogue, refs);
    assert forall i :: 0 <= i < |refs| ==> Known(catalogue, refs[i]);
    assert r.value == ids;
  }

  /** Against the fallback table, every genre of the forms resolves to its position plus one. */
  lemma {:induction false} FormGenresResolve(i: nat)
    requires i < |GENRES|
    ensures FindGenre(FALLBACK_GENRES, GENRES[i]) == Some(Genre(i + 1, GENRES[i]))
  {
    FallbackTable();
    var r := FindGenre(FALLBACK_GENRES, GENRES[i]);
    FindGenreSpec(FALLBACK_GENRES, GENRES[i]);
    var names := Names(FALLBACK_GENRES);
    assert names[i] == GENRES[i];
    var k :| 0 <= k < |FALLBACK_GENRES| && FALLBACK_GENRES[k] == r.value && r.value.name == GENRES[i]
             && forall j :: 0 <= j < k ==> FALLBACK_GENRES[j].name != GENRES[i];
    assert names[k] == names[i];
  }

  /** `Partial<Book>.genres`: a missing or undefined list counts as none. */
  function PatchGenreRefs(data: Patch): Option<seq<GenreRef>> {
    match data.genres
    case Some(Some(names)) => Some(seq(|names|, i requires 0 <= i < |names| => GenreName(names[i])))
    case _ => None
  }

  /** `value || fallback` for an optional string field. */
  function OrDefault(value: Option<Option<string>>, fallback: string): string {
    if value.Some? && value.value.Some? && value.value.value != "" then value.value.value else fallback
  }

  /**
   * The payload `create` and `update` send: the data with `genreIds` added, a falsy cover or
   * synopsis replaced by its default, and the `genres` key removed.
   */
  function ShapePayload(data: Patch, catalogue: seq<Genre>): (r: Result<Patch, string>)
    ensures r.Success? <==> ResolveGenreIds(PatchGenreRefs(data), catalogue).Success?
  {
    match ResolveGenreIds(PatchGenreRefs(data), catalogue)
    case Failure(e) => Failure(e)
    case Success(ids) =>
      Success(data.(genreIds := Some(Some(ids)),
                    cover := Some(Some(OrDefault(data.cover, PLACEHOLDER_COVER))),
                    synopsis := Some(Some(OrDefault(data.synopsis, NO_SYNOPSIS))),
                    genres := None))
  }

  /**
   * A shaped payload has no `genres`, carries the resolved ids, a non-empty cover and synopsis
   * (the data's own when it had a non-empty one), and is otherwise the data unchanged.
   */
  lemma ShapedPayloadFields(data: Patch, catalogue: seq<Genre>)
    requires ShapePayload(data, catalogue).Success?
    ensures var r := ShapePayload(data, catalogue).value;
      && r.genres.None?
      && r.genreIds == Some(Some(ResolveGenreIds(PatchGenreRefs(data), catalogue).value))
      && r.cover.Some? && r.cover.value.Some? && r.cover.value.value != ""
      && r.synopsis.Some? && r.synopsis.value.Some? && r.synopsis.value.value != ""
      && r.(genres := data.genres, genreIds := data.genreIds, cover := data.cover, synopsis := data.synopsis) == data
      && (data.cover.Some? && data.cover.value.Some? && data.cover.value.value != "" ==> r.cover == data.cover)
      && (data.synopsis.Some? && data.synopsis.value.Some? && data.synopsis.value.value != "" ==>
            r.synopsis == data.synopsis)
  {
  }

  /** A payload without genres carries an empty id list and, apart from defaults, the data as given. */
  lemma PayloadWithoutGenres(data: Patch, catalogue: seq<Genre>)
    requires data.genres.None? || data.genres == Some(None)
    ensures ShapePayload(data, catalogue).Success?
    ensures ShapePayload(data, catalogue).value.genreIds == Some(Some([]))
  {
  }

  /** The id of an API record: a number or a string. */
  datatype ApiId = NumId(n: int) | StrId(s: string)

  /** An element of an API record's `genres`: an object with a name, or a bare string. */
  datatype GenreItem = GenreObj(name: string) | GenreText(text: string)

  /** An API record's `genres`: missing, an array, or some other single value. */
  datatype ApiGenres = NoGenres | GenreArray(items: seq<GenreItem>) | GenreScalar(item: GenreItem)

  /** A book as the API sends it. */
  datatype ApiBook = ApiBook(
    id: ApiId,
    title: string,
    author: string,
    genres: ApiGenres,
    year: Option<int>,
    isbn: Option<string>,
    status: Option<string>,
    pages: Option<int>,
    currentPage: Option<int>,
    rating: Option<int>,
    cover: Option<string>,
    synopsis: Option<string>,
    notes: Option<string>,
    createdAt: Option<Time>,
    updatedAt: Option<Time>)

  /** `g.name ?? g` */
  function ItemName(g: GenreItem): string {
    match g
    case GenreObj(name) => name
    case GenreText(text) => text
  }

  /** `String(apiBook.id)` */
  function IdString(id: ApiId): (r: string)
    ensures id.NumId? && id.n >= 0 ==> Text.IsDecimal(r) && Text.DecimalValue(r) == id.n
    ensures id.StrId? ==> r == id.s
  {
    match id
    case NumId(n) =>
      assert n >= 0 ==> Text.DecimalValue(Text.NatToDecimal(n)) == n by {
        if n >= 0 { Text.DecimalRoundTrip(n); }
      }
      Text.IntToDecimal(n)
    case StrId(s) => s
  }

  /** Distinct non-negative numeric ids give distinct book ids. */
  lemma IdStringInjective(m: nat, n: nat)
    ensures IdString(NumId(m)) == IdString(NumId(n)) ==> m == n
  {
    Text.DecimalInjective(m, n);
  }

  /**
   * `mapBookApiToBook`: fails only where `genres` is a value other than an array, on which
   * `.map` is not a function.
   */
  function MapBookApiToBook(api: ApiBook, now: Time): (r: Result<Book, string>)
    ensures r.Failure? <==> api.genres.GenreScalar?
  {
    match api.genres
    case GenreScalar(_) => Failure("TypeError: apiBook.genres.map is not a function")
    case NoGenres => Success(BookFrom(api, [], now))
    case GenreArray(items) => Success(BookFrom(api, items, now))
  }

  /**
   * A mapped book takes its genres from the entries' names, `genre` from the first entry or "",
   * a missing rating as 0 and missing timestamps as now, and copies every other field.
   */
  lemma MappedFields(api: ApiBook, now: Time)
    requires MapBookApiToBook(api, now).Success?
    ensures var b := MapBookApiToBook(api, now).value;
      var names := if api.genres.GenreArray? then api.genres.items else [];
      && b.id == IdString(api.id)
      && b.genres.Some? && |b.genres.value| == |names|
      && (forall i :: 0 <= i < |names| ==> b.genres.value[i] == ItemName(names[i]))
      && b.genre == Some(if names == [] then "" else ItemName(names[0]))
      && b.rating == Some(api.rating.GetOr(0))
      && b.genreIds.None?
      && b.createdAt == api.createdAt.GetOr(now) && b.updatedAt == api.updatedAt.GetOr(now)
      && (b.title, b.author, b.year, b.isbn, b.status) == (api.title, api.author, api.year, api.isbn, api.status)
      && (b.pages, b.currentPage, b.cover, b.synopsis, b.notes)
         == (api.pages, api.currentPage, api.cover, api.synopsis, api.notes)
  {
  }

  /** The object literal of `mapBookApiToBook`, given the entries of `genres`. */
  function BookFrom(api: ApiBook, items: seq<GenreItem>, now: Time): Book {
    var names := seq(|items|, i requires 0 <= i < |items| => ItemName(items[i]));
    Book(
      IdString(api.id), api.title, api.author,
      Some(if names == [] then "" else names[0]), Some(names), None,
      api.year, api.isbn, api.status, api.pages, api.currentPage, Some(api.rating.GetOr(0)),
      api.cover, api.synopsis, api.notes,
      api.createdAt.GetOr(now), api.updatedAt.GetOr(now))
  }

  /** A mapped book's `genre` is the first of its `genres`, or "" when there are none. */
  lemma MappedGenreIsFirst(api: ApiBook, now: Time)
    requires MapBookApiToBook(api, now).Success?
    ensures var b := MapBookApiToBook(api, now).value;
      b.genre == Some(if b.genres.value == [] then "" else b.genres.value[0])
  {
  }

  /**
   * `create(data)`: the shaped payload is sent and the server's answer mapped. An unknown genre
   * or a failed request rejects the call.
   */
  function Create(data: Patch, catalogue: seq<Genre>, response: Result<ApiBook, string>, now: Time): (r: Result<Book, string>)
    ensures r.Failure? <==> (!ResolveGenreIds(PatchGenreRefs(data), catalogue).Success? || response.Failure?
                             || response.value.genres.GenreScalar?)
    ensures r.Success? ==> r == MapBookApiToBook(response.value, now)
  {
    match ShapePayload(data, catalogue)
    case Failure(e) => Failure(e)
    case Success(_) =>
      match response
      case Failure(e) => Failure(e)
      case Success(api) => MapBookApiToBook(api, now)
  }

  /** `update(id, data)`: the same steps as `create`, with every error turned into `null`. */
  function Update(data: Patch, catalogue: seq<Genre>, response: Result<ApiBook, string>, now: Time): (r: Option<Book>)
    ensures r.None? <==> (!ResolveGenreIds(PatchGenreRefs(data), catalogue).Success? || response.Failure?
                          || response.value.genres.GenreScalar?)
    ensures r.Some? ==> r.value == MapBookApiToBook(response.value, now).value
  {
    match Create(data, catalogue, response, now)
    case Failure(_) => None
    case Success(b) => Some(b)
  }

  /** `update` succeeds exactly when `create` would, with the same book. */
  lemma UpdateIsCreate(data: Patch, catalogue: seq<Genre>, response: Result<ApiBook, string>, now: Time)
    ensures Update(data, catalogue, response, now).Some? <==> Create(data, catalogue, response, now).Success?
    ensures Update(data, catalogue, response, now).Some? ==>
              Update(data, catalogue, response, now).value == Create(data, catalogue, response, now).value
  {
  }
}
