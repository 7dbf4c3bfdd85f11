/**
 * The one-off migration of migrate.ts: legacy records are turned into create payloads with
 * defaults, and genres the catalogue lacks are registered in a local list as they are met.
 * Reading the legacy file, the catalogue request and the create requests' answers are parameters.
 */
module Migrate {
  import opened Wrappers
  import opened Books
  import Seqs
  import Text
  import opened RemoteDb

  datatype LegacyBook = LegacyBook(
    id: int, title: string, author: string, genre: Option<string>, year: Option<int>,
    pages: Option<int>, rating: Option<int>, synopsis: Option<string>, cover: Option<string>)

  const UNKNOWN_TITLE: string := "Título Desconhecido"
  const UNKNOWN_AUTHOR: string := "Autor Desconhecido"

  /** `b.genre?.trim()`, kept only when non-empty. */
  function TrimmedGenre(b: LegacyBook): (r: Option<string>)
    ensures r.Some? ==> r.value != "" && b.genre.Some? && r.value == Text.Trim(b.genre.value)
    ensures r.None? ==> b.genre.None? || Text.Trim(b.genre.value) == ""
  {
    if b.genre.Some? && Text.Trim(b.genre.value) != "" then Some(Text.Trim(b.genre.value)) else None
  }

  /** `s || fallback` */
  function OrDefault(s: string, fallback: string): string {
    if s == "" then fallback else s
  }

  function OptionalOrDefault(s: Option<string>, fallback: string): string {
    if s.Some? && s.value != "" then s.value else fallback
  }

  /** The `payload` built for one legacy record. */
  function LegacyPayload(b: LegacyBook): (r: Patch)
    ensures r.title == Some(if b.title == "" then UNKNOWN_TITLE else b.title)
    ensures r.author == Some(if b.author == "" then UNKNOWN_AUTHOR else b.author)
    ensures r.genres == Some(Some(if TrimmedGenre(b).Some? then [TrimmedGenre(b).value] else []))
    ensures r.year == Some(Some(b.year.GetOr(0))) && r.pages == Some(Some(b.pages.GetOr(0)))
    ensures r.rating == Some(Some(b.rating.GetOr(0)))
    ensures r.currentPage == Some(Some(0)) && r.status == Some(Some(StatusValue(QueroLer)))
    ensures r.isbn == Some(None) && r.notes == Some(None)
    ensures r.synopsis == Some(Some(if b.synopsis.Some? && b.synopsis.value != "" then b.synopsis.value else NO_SYNOPSIS))
    ensures r.cover == Some(Some(if b.cover.Some? && b.cover.value != "" then b.cover.value else PLACEHOLDER_COVER))
  {
    Patch(
      None, Some(OrDefault(b.title, UNKNOWN_TITLE)), Some(OrDefault(b.author, UNKNOWN_AUTHOR)), None,
      Some(Some(if TrimmedGenre(b).Some? then [TrimmedGenre(b).value] else [])), None,
      Some(Some(b.year.GetOr(0))), Some(None), Some(Some(StatusValue(QueroLer))),
      Some(Some(b.pages.GetOr(0))), Some(Some(0)), Some(Some(b.rating.GetOr(0))),
      Some(Some(OptionalOrDefault(b.cover, PLACEHOLDER_COVER))),
      Some(Some(OptionalOrDefault(b.synopsis, NO_SYNOPSIS))), Some(None), None, None)
  }

  /**
   * The genres registered locally after the initial list, with the fresh ids they were given:
   * each is new when added, and numbered one past the list before it.
   */
  predicate RegisteredAfter(genres: seq<Genre>, start: nat) {
    && start <= |genres|
    && (forall k :: start <= k < |genres| ==> genres[k].id == k + 1)
    && (forall j, k :: 0 <= j < k < |genres| && start <= k ==> genres[j].name != genres[k].name)
  }

  /** The two local lists `existingGenres` and `genreNames`, pushed to together. */
  class GenreRegistry {
    var existingGenres: seq<Genre>
    var genreNames: seq<string>

    constructor(initial: seq<Genre>)
      ensures existingGenres == initial && genreNames == Names(initial)
    {
      existingGenres := initial;
      genreNames := Names(initial);
    }

    /** Registers the name unless `genreNames` already has it. */
    method Register(name: string)
      requires genreNames == Names(existingGenres)
      modifies this
      ensures genreNames == Names(existingGenres) && name in genreNames
      ensures name in old(genreNames) ==> existingGenres == old(existingGenres)
      ensures name !in old(genreNames) ==>
                existingGenres == old(existingGenres) + [Genre(|old(existingGenres)| + 1, name)]
    {
      if name !in genreNames {
        existingGenres := existingGenres + [Genre(|existingGenres| + 1, name)];
        genreNames := genreNames + [name];
      }
    }
  }

  /** Registering a name keeps the earlier genres and the numbering of the registered ones. */
  lemma RegisterStep(before: seq<Genre>, after: seq<Genre>, start: nat, name: string)
    requires RegisteredAfter(before, start)
    requires after == before || (name !in Names(before) && after == before + [Genre(|before| + 1, name)])
    ensures RegisteredAfter(after, start) && before <= after
    ensures forall n :: n in Names(before) ==> n in Names(after)
  {
    if after != before {
      assert after[..|before|] == before;
      forall j | 0 <= j < |before| ensures after[j].name != name {
        assert Names(before)[j] == before[j].name;
      }
      forall n | n in Names(before) ensures n in Names(after) {
        var k :| 0 <= k < |before| && Names(before)[k] == n;
        assert Names(after)[k] == n;
      }
    }
  }

  /** Appending a name the list lacks keeps a duplicate-free list duplicate-free. */
  lemma RegisteredNamesDistinct(genres: seq<Genre>, start: nat)
    requires RegisteredAfter(genres, start) && Seqs.NoDuplicates(Names(genres[..start]))
    ensures Seqs.NoDuplicates(Names(genres))
  {
    var names := Names(genres);
    forall i, j | 0 <= i < j < |names| ensures names[i] != names[j] {
      if j < start {
        assert names[i] == Names(genres[..start])[i] && names[j] == Names(genres[..start])[j];
      }
    }
  }

  /** `payloads[j]` is the payload built for `legacy[j]`, for every record so far. */
  predicate PayloadsFor(payloads: seq<Patch>, legacy: seq<LegacyBook>) {
    |payloads| <= |legacy| && forall j :: 0 <= j < |payloads| ==> payloads[j] == LegacyPayload(legacy[j])
  }

  /**
   * `outcomes[j]` is what `db.create(payloads[j])` gives, answered by `responses[j]`: stated
   * record by record from the last one back, and pointwise by `OutcomesForMeaning`.
   */
  predicate OutcomesFor(outcomes: seq<Result<Book, string>>, payloads: seq<Patch>, catalogue: seq<Genre>,
                        responses: seq<Result<ApiBook, string>>, now: Time)
    decreases |outcomes|
  {
    && |outcomes| == |payloads| <= |responses|
    && (outcomes != [] ==>
          var n := |outcomes| - 1;
          && OutcomesFor(outcomes[..n], payloads[..n], catalogue, responses, now)
          && outcomes[n] == Create(payloads[n], catalogue, responses[n], now))
  }

  lemma PayloadsStep(payloads: seq<Patch>, legacy: seq<LegacyBook>)
    requires PayloadsFor(payloads, legacy) && |payloads| < |legacy|
    ensures PayloadsFor(payloads + [LegacyPayload(legacy[|payloads|])], legacy)
  {
  }

  lemma OutcomesStep(outcomes: seq<Result<Book, string>>, payloads: seq<Patch>, catalogue: seq<Genre>,
                     responses: seq<Result<ApiBook, string>>, now: Time, p: Patch)
    requires OutcomesFor(outcomes, payloads, catalogue, responses, now) && |payloads| < |responses|
    ensures OutcomesFor(outcomes + [Create(p, catalogue, responses[|payloads|], now)], payloads + [p],
                        catalogue, responses, now)
  {
    var o := outcomes + [Create(p, catalogue, responses[|payloads|], now)];
    assert o[..|outcomes|] == outcomes;
    assert (payloads + [p])[..|payloads|] == payloads;
  }

  /** Every outcome is the create request of the payload at the same position. */
  lemma {:induction false} OutcomesForMeaning(outcomes: seq<Result<Book, string>>, payloads: seq<Patch>,
                                              catalogue: seq<Genre>, responses: seq<Result<ApiBook, string>>, now: Time)
    requires OutcomesFor(outcomes, payloads, catalogue, responses, now)
    ensures |outcomes| == |payloads| <= |responses|
    ensures forall j :: 0 <= j < |outcomes| ==> outcomes[j] == Create(payloads[j], catalogue, responses[j], now)
    decreases |outcomes|
  {
    if outcomes != [] {
      var n := |outcomes| - 1;
      OutcomesForMeaning(outcomes[..n], payloads[..n], catalogue, responses, now);
      forall j | 0 <= j < n ensures outcomes[j] == Create(payloads[j], catalogue, responses[j], now) {
        assert outcomes[..n][j] == outcomes[j] && payloads[..n][j] == payloads[j];
      }
    }
  }

  /** Every trimmed legacy genre among the first `n` records is in `names`. */
  predicate GenresRegistered(legacy: seq<LegacyBook>, n: nat, names: seq<string>) {
    n <= |legacy| && forall j :: 0 <= j < n && TrimmedGenre(legacy[j]).Some? ==> TrimmedGenre(legacy[j]).value in names
  }

  /**
   * The local genre list after the first `n` records: it extends the loaded list, numbers the
   * genres it registered, and holds the genre of each of those records.
   */
  predicate RegistryAfter(genres: seq<Genre>, initialGenres: seq<Genre>, legacy: seq<LegacyBook>, n: nat) {
    initialGenres <= genres && RegisteredAfter(genres, |initialGenres|) && GenresRegistered(legacy, n, Names(genres))
  }

  /** Registering after a duplicate-free initial list leaves the whole list duplicate-free. */
  lemma InitialDistinctStays(genres: seq<Genre>, initial: seq<Genre>)
    requires initial <= genres && RegisteredAfter(genres, |initial|)
    ensures Seqs.NoDuplicates(Names(initial)) ==> Seqs.NoDuplicates(Names(genres))
  {
    if Seqs.NoDuplicates(Names(initial)) {
      assert genres[..|initial|] == initial;
      RegisteredNamesDistinct(genres, |initial|);
    }
  }

  /** One iteration's registration keeps the local list in shape. */
  lemma RegistryStep(before: seq<Genre>, after: seq<Genre>, initialGenres: seq<Genre>, legacy: seq<LegacyBook>, i: nat)
    requires i < |legacy| && RegistryAfter(before, initialGenres, legacy, i)
    requires TrimmedGenre(legacy[i]).None? ==> after == before
    requires TrimmedGenre(legacy[i]).Some? ==>
               var name := TrimmedGenre(legacy[i]).value;
               && name in Names(after)
               && (after == before || (name !in Names(before) && after == before + [Genre(|before| + 1, name)]))
    ensures RegistryAfter(after, initialGenres, legacy, i + 1)
  {
    if TrimmedGenre(legacy[i]).Some? {
      RegisterStep(before, after, |initialGenres|, TrimmedGenre(legacy[i]).value);
    }
  }

  /** One iteration of `Migrate`: the next record's payload and create request. */
  lemma MigrateStep(payloads: seq<Patch>, outcomes: seq<Result<Book, string>>, catalogue: seq<Genre>,
                    responses: seq<Result<ApiBook, string>>, legacy: seq<LegacyBook>, now: Time)
    requires |payloads| < |legacy| == |responses|
    requires PayloadsFor(payloads, legacy) && OutcomesFor(outcomes, payloads, catalogue, responses, now)
    ensures PayloadsFor(payloads + [LegacyPayload(legacy[|payloads|])], legacy)
    ensures OutcomesFor(outcomes + [Create(LegacyPayload(legacy[|payloads|]), catalogue, responses[|payloads|], now)],
                        payloads + [LegacyPayload(legacy[|payloads|])], catalogue, responses, now)
  {
    PayloadsStep(payloads, legacy);
    OutcomesStep(outcomes, payloads, catalogue, responses, now, LegacyPayload(legacy[|payloads|]));
  }

  /**
   * `migrate()`: every legacy record, in file order, gets its payload and one create request,
   * whose failure is logged and skipped. Create requests resolve genre names against
   * `catalogue`, the list `db.getGenres` returns while they run.
   */
  method Migrate(legacy: seq<LegacyBook>, initialGenres: seq<Genre>, catalogue: seq<Genre>,
                 responses: seq<Result<ApiBook, string>>, now: Time)
    returns (genres: seq<Genre>, payloads: seq<Patch>, outcomes: seq<Result<Book, string>>)
    requires |responses| == |legacy|
    ensures |payloads| == |legacy| && PayloadsFor(payloads, legacy)
    ensures OutcomesFor(outcomes, payloads, catalogue, responses, now)
    ensures initialGenres <= genres && RegisteredAfter(genres, |initialGenres|)
    ensures Seqs.NoDuplicates(Names(initialGenres)) ==> Seqs.NoDuplicates(Names(genres))
    ensures GenresRegistered(legacy, |legacy|, Names(genres))
  {
    var registry := new GenreRegistry(initialGenres);
    payloads, outcomes := [], [];
    var i := 0;
    while i < |legacy|
      invariant 0 <= i <= |legacy| && |payloads| == i
      invariant registry.genreNames == Names(registry.existingGenres)
      invariant RegistryAfter(registry.existingGenres, initialGenres, legacy, i)
      invariant PayloadsFor(payloads, legacy)
      invariant OutcomesFor(outcomes, payloads, catalogue, responses, now)
    {
      var b := legacy[i];
      var name := TrimmedGenre(b);
      ghost var before := registry.existingGenres;
      if name.Some? {
        registry.Register(name.value);
      }
      RegistryStep(before, registry.existingGenres, initialGenres, legacy, i);
      var payload := LegacyPayload(b);
      MigrateStep(payloads, outcomes, catalogue, responses, legacy, now);
      outcomes := outcomes + [Create(payload, catalogue, responses[i], now)];
      payloads := payloads + [payload];
      i := i + 1;
    }
    genres := registry.existingGenres;
    InitialDistinctStays(genres, initialGenres);
  }

  /** A name no genre of the list carries is not found in it. */
  lemma NameMissing(catalogue: seq<Genre>, name: string)
    requires name !in Names(catalogue)
    ensures FindGenre(catalogue, name).None?
  {
    forall g | g in catalogue ensures g.name != name {
      var k :| 0 <= k < |catalogue| && catalogue[k] == g;
      assert Names(catalogue)[k] == g.name;
    }
    FindGenreSpec(catalogue, name);
  }

  /** A legacy genre missing from the catalogue makes that record's create request fail. */
  lemma UnknownGenreNotMigrated(b: LegacyBook, catalogue: seq<Genre>, response: Result<ApiBook, string>, now: Time)
    requires TrimmedGenre(b).Some? && TrimmedGenre(b).value !in Names(catalogue)
    ensures Create(LegacyPayload(b), catalogue, response, now).Failure?
  {
    var name := TrimmedGenre(b).value;
    NameMissing(catalogue, name);
    assert PatchGenreRefs(LegacyPayload(b)).value == [GenreRef.GenreName(name)];
  }

  /** The legacy record of the counterexample below. */
  const DRACULA: LegacyBook := LegacyBook(1, "Drácula", "Bram Stoker", Some("Terror"), None, None, None, None, None)

  lemma DraculaGenre()
    ensures TrimmedGenre(DRACULA) == Some("Terror")
  {
    var t := "Terror";
    assert !Text.IsSpace(t[0]) && !Text.IsSpace(t[|t| - 1]);
    assert Text.TrimStart(t) == t;
    assert Text.TrimEnd(t) == t;
  }

  lemma TerrorNotInFallback()
    ensures "Terror" !in Names(FALLBACK_GENRES)
  {
    var names := Names(FALLBACK_GENRES);
    forall i | 0 <= i < |names| ensures names[i] != "Terror" {
      assert names[i] == FALLBACK_GENRES[i].name;
    }
  }

  /** With the fallback catalogue, a legacy record in the genre "Terror" is registered locally but never created. */
  lemma TerrorExample(response: Result<ApiBook, string>, now: Time)
    ensures TrimmedGenre(DRACULA) == Some("Terror") && "Terror" !in Names(FALLBACK_GENRES)
    ensures Create(LegacyPayload(DRACULA), FALLBACK_GENRES, response, now).Failure?
  {
    DraculaGenre();
    TerrorNotInFallback();
    UnknownGenreNotMigrated(DRACULA, FALLBACK_GENRES, response, now);
  }

  /** A genre name in the list resolves against it. */
  lemma NameResolves(genres: seq<Genre>, name: string)
    requires name in Names(genres)
    ensures FindGenre(genres, name).Some?
  {
    var k :| 0 <= k < |genres| && Names(genres)[k] == name;
    assert genres[k] in genres;
    FindGenreSpec(genres, name);
  }

  /** A record whose genre is in the list has a payload whose genre names all resolve against it. */
  lemma RegisteredPayloadResolves(b: LegacyBook, genres: seq<Genre>)
    requires TrimmedGenre(b).Some? ==> TrimmedGenre(b).value in Names(genres)
    ensures ShapePayload(LegacyPayload(b), genres).Success?
  {
    var refs := PatchGenreRefs(LegacyPayload(b));
    if TrimmedGenre(b).Some? {
      NameResolves(genres, TrimmedGenre(b).value);
      assert refs.value == [GenreRef.GenreName(TrimmedGenre(b).value)];
      assert Known(genres, refs.value[0]);
      ResolveAllSpec(genres, refs.value);
    } else {
      assert refs.value == [];
    }
  }

  /** A record whose genre is in the list is created unless the request itself fails. */
  lemma RegisteredCreate(b: LegacyBook, genres: seq<Genre>, response: Result<ApiBook, string>, now: Time)
    requires TrimmedGenre(b).Some? ==> TrimmedGenre(b).value in Names(genres)
    ensures Create(LegacyPayload(b), genres, response, now).Failure?
            <==> response.Failure? || response.value.genres.GenreScalar?
  {
    RegisteredPayloadResolves(b, genres);
  }

  /** Each record failed exactly when its create request failed or answered a malformed record. */
  predicate FailsOnlyOnRequest(outcomes: seq<Result<Book, string>>, responses: seq<Result<ApiBook, string>>) {
    |outcomes| <= |responses| &&
    forall j :: 0 <= j < |outcomes| ==>
      (outcomes[j].Failure? <==> responses[j].Failure? || responses[j].value.genres.GenreScalar?)
  }

  /** One more record, whose genre is registered, keeps the failures down to failed requests. */
  lemma FailsStep(outcomes: seq<Result<Book, string>>, responses: seq<Result<ApiBook, string>>, b: LegacyBook,
                  genres: seq<Genre>, now: Time)
    requires FailsOnlyOnRequest(outcomes, responses) && |outcomes| < |responses|
    requires TrimmedGenre(b).Some? ==> TrimmedGenre(b).value in Names(genres)
    ensures FailsOnlyOnRequest(outcomes + [Create(LegacyPayload(b), genres, responses[|outcomes|], now)], responses)
  {
    RegisteredCreate(b, genres, responses[|outcomes|], now);
  }

  /** One iteration of `MigrateRegisteringGenres`, once the record's genre is registered. */
  lemma RegisteringStep(payloads: seq<Patch>, outcomes: seq<Result<Book, string>>,
                        responses: seq<Result<ApiBook, string>>, legacy: seq<LegacyBook>, genres: seq<Genre>, now: Time)
    requires |payloads| == |outcomes| < |legacy| == |responses|
    requires PayloadsFor(payloads, legacy) && FailsOnlyOnRequest(outcomes, responses)
    requires GenresRegistered(legacy, |payloads| + 1, Names(genres))
    ensures PayloadsFor(payloads + [LegacyPayload(legacy[|payloads|])], legacy)
    ensures FailsOnlyOnRequest(outcomes + [Create(LegacyPayload(legacy[|payloads|]), genres, responses[|payloads|], now)],
                               responses)
  {
    PayloadsStep(payloads, legacy);
    FailsStep(outcomes, responses, legacy[|payloads|], genres, now);
  }

  /**
   * The migration as its log messages describe it: each create request resolves genre names
   * against the list that already holds the genres registered so far, so a record fails only
   * when the request itself fails.
   */
  method MigrateRegisteringGenres(legacy: seq<LegacyBook>, initialGenres: seq<Genre>,
                                  responses: seq<Result<ApiBook, string>>, now: Time)
    returns (genres: seq<Genre>, payloads: seq<Patch>, outcomes: seq<Result<Book, string>>)
    requires |responses| == |legacy|
    ensures |payloads| == |legacy| && PayloadsFor(payloads, legacy)
    ensures |outcomes| == |legacy| && FailsOnlyOnRequest(outcomes, responses)
    ensures initialGenres <= genres && RegisteredAfter(genres, |initialGenres|)
  {
    var registry := new GenreRegistry(initialGenres);
    payloads, outcomes := [], [];
    var i := 0;
    while i < |legacy|
      invariant 0 <= i <= |legacy| && |payloads| == i && |outcomes| == i
      invariant registry.genreNames == Names(registry.existingGenres)
      invariant RegistryAfter(registry.existingGenres, initialGenres, legacy, i)
      invariant PayloadsFor(payloads, legacy)
      invariant FailsOnlyOnRequest(outcomes, responses)
    {
      var b := legacy[i];
      var name := TrimmedGenre(b);
      ghost var before := registry.existingGenres;
      if name.Some? {
        registry.Register(name.value);
      }
      RegistryStep(before, registry.existingGenres, initialGenres, legacy, i);
      var payload := LegacyPayload(b);
      var outcome := Create(payload, registry.existingGenres, responses[i], now);
      RegisteringStep(payloads, outcomes, responses, legacy, registry.existingGenres, now);
      payloads := payloads + [payload];
      outcomes := outcomes + [outcome];
      i := i + 1;
    }
    genres := registry.existingGenres;
  }
}
