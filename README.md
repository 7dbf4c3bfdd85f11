# bookshelf — a Dafny model of the book library's list logic

bookshelf is a Next.js/React application for keeping a personal library: books with a reading
status (`QUERO_LER`, `LENDO`, `LIDO`, `PAUSADO`, `ABANDONADO`), page counts, ratings and genres.
Under its pages sits a layer of list logic, and this project models that layer and proves
properties of it:

- the three in-memory book stores: the zustand store, the React context and the JSON-file db
  (`BookStore`, `LibraryContext`, `JsonDb`). Each one is a class whose methods reassign its `books`
  sequence. They differ in append vs prepend, merge vs replace, update-first vs update-all, and
  exact vs case-insensitive matching.
- the two `calculateBookStats` variants and `getReadingProgress` (`DataBookStats`,
  `LibBookStats`). Rounding is stated in integers (`MathRound`).
- the dashboard and the recent-activity card (`Dashboard`, `RecentBooks`). Both sort by
  `updatedAt` descending (`UpdatedOrder`) and take the top N. The card's sort reorders the
  caller's array in place.
- the filters of the three library pages (`Biblioteca`, `LibraryBooks`, `LibraryPage`) and the
  URL filter parameters (`LibraryFilters`).
- the remote db's genre resolution, payload shaping and API-record mapping (`RemoteDb`).
- the book form's completion percentage, submit normalisation, schema bounds, star rating and
  how its registered inputs read when left empty (`BookForm`).
- the string helpers (`Utils`) and the legacy-data migration (`Migrate`).

Shared pieces:
- `Books` holds the book record, the status enum and the `Partial<Book>` patch.
- `Seqs` holds a filter with its lemmas and the subsequence relation.
- `Text` holds lower/upper case, trim, substring search and decimal ids.
- `Wrappers` holds `Option` and `Result`.

Book ids, clock values, request answers and file contents are parameters. A request that can
fail is a `Result`.

## Model

| member | source | states |
|---|---|---|
| Books.StatusValueInjective | data/types.ts:59-65 | distinct statuses have distinct stored values |
| Books.Merge | lib/book-store.ts:36 | `{ ...book, ...updates }`: each key the updates carry replaces the book's, and every other key keeps the book's value |
| Books.MergeThen | lib/book-store.ts:36 | spreading `p` and then `q` over a book is spreading `{ ...p, ...q }` once |
| Books.MergeNoChanges | lib/book-store.ts:36 | spreading an empty `Partial<Book>` over a book gives the book back |
| Books.MergeIdempotent | lib/book-store.ts:36 | spreading the same updates twice equals spreading them once |
| Books.Touched | lib/book-store.ts:36 | the updated record has `updatedAt` = now, and otherwise equals the old record with the updates merged over it |
| Books.NewRecord | lib/book-store.ts:25-30 | a new record has the given id and `createdAt` = `updatedAt` = now; every other field is as supplied |
| Books.FirstIndexOf | db.ts:73-74 | `findIndex` is -1 exactly when no book has the id; otherwise it is the first index with that id |
| Books.FindById | lib/book-store.ts:46-48 | `find` is undefined exactly when no book has the id; otherwise it is the first book with that id |
| Books.WithoutId | lib/book-store.ts:40-44 | exactly the books with another id remain, in order, and none with the id |
| Books.WithoutIdIdempotent | lib/book-store.ts:40-44 | deleting an id twice is the same as deleting it once |
| Books.WithoutUnknownId | lib/book-store.ts:40-44 | deleting an id nobody has leaves the list unchanged |
| Books.WithoutIdShortens | db.ts:88-94 | the filtered list is shorter exactly when some book had the id |
| Books.EmptyQueryMatches | lib/book-store.ts:54-61 | the empty query occurs in every title |
| Books.BooksWithStatus | lib/book-store.ts:50-52 | the books whose status equals the argument, in order |
| BookStore.UpdateAll | lib/book-store.ts:34-38 | the `map` keeps the length, and a book with another id stays where it was |
| BookStore.UpdateAllEffect | lib/book-store.ts:34-38 | the length is kept; a book with another id stays; a book with the id gets the updates and a new `updatedAt` |
| BookStore.UpdateUnknownId | lib/book-store.ts:34-38 | updating an unknown id changes nothing |
| BookStore.UpdateAllIdempotent | lib/book-store.ts:34-38 | at one clock value, updating twice equals updating once, unless the updates change the id |
| BookStore.FindAfterUpdate | lib/book-store.ts:34-48 | after an update, `getBookById` gives the updated first match |
| BookStore.FindAfterAdd | lib/book-store.ts:24-32 | after adding with a fresh id, `getBookById` finds the new record |
| BookStore.SearchBooks | lib/book-store.ts:54-61 | keeps a book iff its lowercased title or author contains the lowercased query; the empty query keeps all; order kept |
| BookStore.BooksWithGenre | lib/book-store.ts:63-65 | the books whose genre equals the argument exactly, in order |
| BookStore.Store.constructor | lib/book-store.ts:21-22 | the store starts with the initial books |
| BookStore.Store.AddBook | lib/book-store.ts:24-32 | the new list is the old list followed by one new record |
| BookStore.Store.UpdateBook | lib/book-store.ts:34-38 | the new list is the old list with every book with the id updated |
| BookStore.Store.DeleteBook | lib/book-store.ts:40-44 | the new list is the old list without the books with the id |
| BookStore.Store.GetBookById | lib/book-store.ts:46-48 | `FindById` of the list: nothing exactly when no book has the id, otherwise a listed book with that id |
| BookStore.Store.GetBooksByStatus | lib/book-store.ts:50-52 | `BooksWithStatus` of the list: exactly the listed books with that status |
| BookStore.Store.Search | lib/book-store.ts:54-61 | `SearchBooks` of the list: exactly the listed books whose lowercased title or author contains the lowercased query |
| BookStore.Store.FilterByGenre | lib/book-store.ts:63-65 | `BooksWithGenre` of the list: exactly the listed books with that genre |
| LibraryContext.ReplaceById | components/library-context.tsx:25-26 | the `map` keeps the length and the id at every position |
| LibraryContext.ReplaceByIdEffect | components/library-context.tsx:25-26 | the length and positions are kept; every entry with the id becomes the given record (no merge); the others stay |
| LibraryContext.ReplaceUnknownId | components/library-context.tsx:25-26 | replacing with an unknown id changes nothing |
| LibraryContext.ReplaceByIdThenFind | components/library-context.tsx:25-26 | replacing is idempotent, and afterwards the id finds the given record |
| LibraryContext.FindAfterPrepend | components/library-context.tsx:24 | a prepended book is the first match for its id |
| LibraryContext.Provider.constructor | components/library-context.tsx:18-22 | the state starts as `initialBooks`, or the empty list if none |
| LibraryContext.Provider.AddBook | components/library-context.tsx:24 | the new state is the book followed by the old state |
| LibraryContext.Provider.UpdateBook | components/library-context.tsx:25-26 | the new state is the old state with every entry with the id replaced |
| LibraryContext.Provider.RemoveBook | components/library-context.tsx:27-28 | the new state is the old state without the entries with the id |
| JsonDb.UpdateFirst | db.ts:71-85 | only the first index with the id changes, to the merged record with a new `updatedAt`; with no such index nothing changes |
| JsonDb.UpdateFirstIsUpdateAll | db.ts:71-85 | when ids are unique, update-first agrees with the store's update-all |
| JsonDb.BooksOfGenre | db.ts:108-113 | keeps a book iff its genre (missing = "") equals the argument ignoring case, in order |
| JsonDb.BooksOfStatus | db.ts:116-121 | keeps a book iff its status (missing = "") equals the argument ignoring case, in order |
| JsonDb.BooksOfGenreIgnoresCase | db.ts:108-113 | lowercasing the argument does not change the result |
| JsonDb.WithGenre | db.ts:133-140 | afterwards the genre is present; the list grows by it only if it was absent, so no duplicate appears |
| JsonDb.WithGenreIdempotent | db.ts:133-140 | adding a genre twice is the same as adding it once |
| JsonDb.WithoutGenre | db.ts:143-151 | removes every case-insensitive match and keeps the rest in order; the length is unchanged iff nothing matched |
| JsonDb.Db.constructor | db.ts:12-32 | the db starts from the stored books and genres, with no writes yet |
| JsonDb.Db.Create | db.ts:54-68 | one record is appended, with a clock-derived id and `createdAt` = `updatedAt` = now; one write |
| JsonDb.Db.Update | db.ts:71-85 | returns null and writes nothing for an unknown id; otherwise it changes the first match only and writes once |
| JsonDb.Db.Delete | db.ts:88-94 | returns true iff some book had the id; on true all such books are gone and it writes once; on false nothing changes |
| JsonDb.Db.AddGenre | db.ts:133-140 | the genre is present afterwards; it writes only when the genre was absent; the list is returned |
| JsonDb.Db.RemoveGenre | db.ts:143-151 | returns false, with no write, iff no genre matched ignoring case; otherwise it removes the matches |
| JsonDb.Db.GetById | db.ts:48-51 | `FindById` of the stored list: null exactly when no book has the id, otherwise a stored book with that id |
| JsonDb.Db.Search | db.ts:97-105 | `SearchBooks` of the stored list: the books whose lowercased title or author contains the lowercased query |
| JsonDb.Db.FilterByGenre | db.ts:108-113 | `BooksOfGenre` of the stored list: the books whose genre (missing = "") equals the argument ignoring case |
| JsonDb.Db.FilterByStatus | db.ts:116-121 | `BooksOfStatus` of the stored list: the books whose status (missing = "") equals the argument ignoring case |
| DataBookStats.CalculateBookStats | data/book-stats.ts:3-16 | `total` is the length, `reading`/`finished` count `LENDO`/`LIDO`, and `reading + finished <= total` |
| DataBookStats.PageContributionCases | data/book-stats.ts:8-13 | a positive `currentPage` counts first; otherwise a `LIDO` book counts its pages (missing = 0); any other book counts 0 |
| DataBookStats.TotalPagesAppend | data/book-stats.ts:8-13 | `totalPages` is a sum over the books: concatenating lists adds their totals |
| DataBookStats.GetReadingProgress | data/book-stats.ts:18-21 | 0 when pages or currentPage is missing or 0; otherwise 100·cp/pages rounded half up, equal to (200·cp + p) div (2·p), and within 0..100 when cp <= pages |
| LibBookStats.TotalPages | lib/book-stats.ts:7 | the sum of the page counts (a missing one counts 0) over the `LIDO` books; its facts are stated by the lemmas below |
| LibBookStats.TotalPagesNonNegative | lib/book-stats.ts:7 | finished books without a negative page count give a non-negative total |
| LibBookStats.CalculateBookStats | lib/book-stats.ts:3-15 | agrees with the other variant on `total`, `reading` and `finished` |
| LibBookStats.NoFinishedNoPages | lib/book-stats.ts:7 | with no `LIDO` book, `totalPages` is 0 |
| LibBookStats.AddingUnfinishedKeepsPages | lib/book-stats.ts:7 | adding non-`LIDO` books at either end leaves `totalPages` unchanged |
| LibBookStats.RemovingUnfinishedKeepsPages | lib/book-stats.ts:7 | dropping only non-`LIDO` books leaves `totalPages` unchanged |
| LibBookStats.CurrentPageIrrelevant | lib/book-stats.ts:7 | changing `currentPage` values never changes `totalPages` |
| LibBookStats.PageTotalsAgree | data/book-stats.ts:8-13 | without positive current pages, both page totals are the `LIDO` page sum |
| LibBookStats.VariantsAgreeWithoutCurrentPages | data/book-stats.ts:8-13 | when no book has a positive `currentPage`, both variants give equal results |
| MathRound.RoundRatio | lib/book-stats.ts:17-20 | `Math.round` of a ratio: the result is the unique integer r with r - 1/2 <= n/d < r + 1/2 |
| MathRound.RoundHalfUpUnique | lib/book-stats.ts:17-20 | at most one integer is the half-up rounding of a ratio |
| MathRound.PercentBounds | lib/book-stats.ts:17-20 | a rounded percentage of a part of a whole lies in 0..100 |
| UpdatedOrder.Insert | components/recent-books.tsx:12-13 | inserting one book adds exactly that book to the multiset |
| UpdatedOrder.SortByUpdatedDesc | components/recent-books.tsx:12-13 | the sort keeps the length and is a permutation of its input |
| UpdatedOrder.InsertSorted | components/recent-books.tsx:12-13 | inserting into a list ordered by `updatedAt` descending keeps it ordered |
| UpdatedOrder.InsertKeepsTies | components/recent-books.tsx:12-13 | inserting a book passes only newer books, so among the books of one timestamp it comes first and the others keep their order |
| UpdatedOrder.SortKeepsTies | components/recent-books.tsx:12-13 | the sort is stable: the books of any one `updatedAt` keep their input order |
| UpdatedOrder.SortSorted | components/recent-books.tsx:12-13 | the sorted list is ordered by `updatedAt`, non-increasing |
| UpdatedOrder.SortKeepsSorted | components/recent-books.tsx:12-13 | sorting an ordered list changes nothing |
| UpdatedOrder.Newest | app/page.tsx:40-44 | the top n of the sorted list has min(n, len) books from the input, is ordered, and no book left out is newer than one selected |
| RecentBooks.SelectRecent | components/recent-books.tsx:12-14 | the array is reordered in place into its sorted permutation; the result is its first min(5, n) books |
| RecentBooks.Shown | components/recent-books.tsx:23-26 | the empty-list message shows exactly when there is no recent book; otherwise the books are listed |
| RecentBooks.EmptyLibraryMessage | components/recent-books.tsx:23-24 | an empty library shows "Nenhum livro cadastrado ainda" |
| RecentBooks.OwnBadge | components/recent-books.tsx:36-43 | a status's stored value shows exactly that status's label |
| RecentBooks.BadgeLabels | components/recent-books.tsx:36-43 | each status value shows its own label, and distinct statuses show distinct labels |
| RecentBooks.UnknownStatusBadge | components/recent-books.tsx:36-43 | a non-empty status outside the five shows an empty badge |
| Dashboard.RecentOf | app/page.tsx:40-44 | the sorted copy's first min(3, n) books: ordered, drawn from the input, none newer left out |
| Dashboard.DashboardView | app/page.tsx:32-44 | `totalBooks` is the length; the reading and finished lists hold exactly the `LENDO`/`LIDO` books; `totalPagesRead` is the `LIDO` page sum |
| Dashboard.Progress | app/page.tsx:103-106 | 0 unless pages and currentPage are both non-zero; otherwise the half-up rounded percentage, within 0..100 when cp <= pages |
| Dashboard.DashboardMatchesStats | app/page.tsx:32-38 | the dashboard numbers equal the `lib/book-stats.ts` statistics |
| Dashboard.RecentIsPrefixOfCard | app/page.tsx:40-44 | the dashboard's three books are the first three of the recent-activity card's five |
| Utils.SliceTo | lib/utils.ts:32 | `slice(0, n)` is the prefix of length n, clamped, and counted from the end when n is negative |
| Utils.TruncateDefault | lib/utils.ts:30-32 | with the default limit of 100, a text that fits is returned as is; a longer one keeps its first 100 characters and gains "…" |
| Utils.Truncate | lib/utils.ts:30-33 | "" for empty text; the text when it fits; otherwise the first `maxLength` characters followed by "…" |
| Utils.TruncateBound | lib/utils.ts:30-33 | the result has at most `maxLength` + 1 characters |
| Utils.TruncateIdempotent | lib/utils.ts:30-33 | truncating twice equals truncating once |
| Utils.Capitalize | lib/utils.ts:38-41 | the same length; the first character is uppercased and the rest is unchanged |
| Utils.CapitalizeIdempotent | lib/utils.ts:38-41 | capitalising twice equals capitalising once |
| Utils.ParseGenre | lib/utils.ts:46-49 | defined exactly for the values in `GENRES`, and then the value itself |
| Utils.ParseGenreFixpoint | lib/utils.ts:46-49 | every genre parses to itself, and parsing is idempotent |
| Utils.AllowedStatuses | lib/utils.ts:56 | the allowed list has one entry per status and contains every status value |
| Utils.ParseReadingStatus | lib/utils.ts:54-58 | defined exactly for the five status values, and then the value itself |
| Utils.ParseReadingStatusIdempotent | lib/utils.ts:54-58 | parsing a parsed status changes nothing |
| RemoteDb.Names | migrate.ts:24 | the names of a genre list, position by position |
| RemoteDb.FallbackNameList | data/db.ts:72-89 | the fallback names are the fifteen form genres followed by "Mistério" |
| RemoteDb.FallbackNames | data/db.ts:72-89 | the fallback names are all different |
| RemoteDb.FallbackTable | data/db.ts:72-89 | the fallback table has 16 genres with ids 1..16 and distinct names; the first 15 names are `GENRES` |
| RemoteDb.GetGenres | data/db.ts:64-90 | a failed or empty remote list gives the fallback table; otherwise the remote list; never empty |
| RemoteDb.FindGenre | data/db.ts:29 | a genre found is in the catalogue and carries exactly the name; FindGenreSpec gives the rest |
| RemoteDb.FindGenreSpec | data/db.ts:29 | `find` gives the first genre with exactly the name, or none exactly when no genre has it |
| RemoteDb.ResolveAllSpec | data/db.ts:27-32 | resolution succeeds iff every name is known; then it keeps length and order, passes numbers through and maps names to ids; otherwise it fails naming an unknown genre |
| RemoteDb.ResolveAll | data/db.ts:27-32 | a successful resolution has one id per genre; ResolveAllSpec gives the rest |
| RemoteDb.ResolveGenreIds | data/db.ts:24-33 | no genre list gives []; otherwise the entries are resolved |
| RemoteDb.ResolveIdsPassThrough | data/db.ts:27-28 | a list of numbers resolves to itself |
| RemoteDb.FormGenresResolve | data/db.ts:72-89 | against the fallback table, the i-th form genre resolves to id i + 1 |
| RemoteDb.ShapePayload | data/db.ts:91-102 | the payload is built iff the genres resolve |
| RemoteDb.ShapedPayloadFields | data/db.ts:91-102 | a built payload drops `genres`, adds the resolved `genreIds`, replaces a falsy cover or synopsis with its default, and keeps everything else |
| RemoteDb.PayloadWithoutGenres | data/db.ts:24-25 | a payload without genres always shapes, with an empty id list |
| RemoteDb.IdString | data/db.ts:41 | `String(id)`: a non-negative numeric id reads back as the same number; a string id is kept |
| RemoteDb.IdStringInjective | data/db.ts:41 | distinct non-negative numeric ids give distinct book ids |
| RemoteDb.MapBookApiToBook | data/db.ts:38-58 | fails exactly when `genres` is a non-array value |
| RemoteDb.MappedFields | data/db.ts:38-58 | a mapped book sets genres from each entry's name (or the entry), `genre` to the first or "", rating default 0, timestamp defaults, and copies the other fields |
| RemoteDb.MappedGenreIsFirst | data/db.ts:44-45 | a mapped book's `genre` is the first of its `genres`, or "" |
| RemoteDb.Create | data/db.ts:91-111 | rejects exactly when a genre does not resolve, the request fails, or the answer cannot be mapped; otherwise gives the mapped answer |
| RemoteDb.Update | data/db.ts:114-136 | returns null exactly when a genre does not resolve, the request fails, or the answer cannot be mapped; otherwise the mapped answer |
| RemoteDb.UpdateIsCreate | data/db.ts:91-136 | update returns a book exactly when create would succeed, and the same book |
| Biblioteca.Matches | app/biblioteca/page.tsx:28-38 | the three tests of the filter callback; with every filter at its default a book passes |
| Biblioteca.FilterBooks | app/biblioteca/page.tsx:26-41 | keeps a book iff the query (empty, or found in the lowercased title or author), the exact genre and the exact status all pass; order kept; the defaults keep all |
| Biblioteca.GenreIsCaseSensitive | app/biblioteca/page.tsx:33-34 | the genre test compares exactly: "FICÇÃO" does not select a "Ficção" book |
| Biblioteca.GenreNarrows | app/biblioteca/page.tsx:33-39 | choosing a genre only removes books |
| Biblioteca.Page.constructor | app/biblioteca/page.tsx:21-23 | the filters start at "", "all", "all", so no filter is active |
| Biblioteca.Page.HasActiveFilters | app/biblioteca/page.tsx:43-44 | some filter differs from its default (no contract; InactiveShowsAll states what it means for the list) |
| Biblioteca.Page.InactiveShowsAll | app/biblioteca/page.tsx:43-44 | with no active filter every book is shown |
| Biblioteca.Page.HandleClearFilters | app/biblioteca/page.tsx:46-50 | the three filters return to their defaults, so none is active and every book is shown |
| LibraryBooks.GenreNames | components/library-books.tsx:38-40 | an array gives each entry's `.name` (undefined for a bare string), anything else [] |
| LibraryBooks.Normalise | components/library-books.tsx:36-45 | a falsy cover becomes "/placeholder.svg" and a missing rating 0; the rest is kept |
| LibraryBooks.SomeGenre | components/library-books.tsx:84 | true iff some genre lowercased equals the wanted one; it throws only when an undefined name is reached |
| LibraryBooks.Evaluate | components/library-books.tsx:71-92 | when it does not throw, a book passes iff each set parameter's test passes; it throws only on an undefined genre name |
| LibraryBooks.FilterBooks | components/library-books.tsx:71-93 | with every genre name defined it does not throw; then exactly the passing books remain, in order |
| LibraryBooks.NoParamsKeepAll | components/library-books.tsx:71-93 | absent parameters keep every book |
| LibraryBooks.BareGenreEntryThrows | components/library-books.tsx:81-85 | a bare string as first genre entry throws once the genre test runs |
| LibraryBooks.FilteredBooks | components/library-books.tsx:69-70 | empty until the fetch completed without error; then the filter |
| LibraryBooks.RemoveBook | components/library-books.tsx:64-66 | exactly the books with another id remain, in order |
| LibraryBooks.RemoveBookIdempotent | components/library-books.tsx:64-66 | deleting twice equals deleting once |
| LibraryBooks.Listing.constructor | components/library-books.tsx:18-21 | no books, no error, not fetched |
| LibraryBooks.Listing.Loaded | components/library-books.tsx:31-54 | a successful answer stores every record normalised; a failure stores its message; either way the listing is fetched |
| LibraryBooks.Listing.HandleDelete | components/library-books.tsx:64-66 | the books with the id are removed; nothing else changes |
| LibraryPage.QueryHit | app/library/page.tsx:34-38 | the lowercased title or author contains the query; the empty query hits every book |
| LibraryPage.GenreList | app/library/page.tsx:46-50 | an array is used as is, a single non-empty value is wrapped, a missing value or a single "" (falsy) gives [] |
| LibraryPage.GenreHit | app/library/page.tsx:42-58 | some entry's trimmed lowercased name is the wanted one; a book without genres, or whose single genre is "", never hits |
| LibraryPage.StatusHit | app/library/page.tsx:62-70 | the trimmed lowercased status text (missing = "") is the wanted value (no contract; MissingStatusIsEmpty states the absent case) |
| LibraryPage.FilterLibrary | app/library/page.tsx:33-71 | the three successive filters leave exactly the books passing every set test, in order |
| LibraryPage.ScalarGenreWrapped | app/library/page.tsx:46-57 | a single non-empty genre value matches iff its trimmed lowercased name does; a single "" never matches |
| LibraryPage.MissingStatusIsEmpty | app/library/page.tsx:65-70 | a book without status passes only the empty status |
| LibraryFilters.Get | components/library-filters.tsx:14-16 | the first value under the key, or none exactly when the key is absent |
| LibraryFilters.Delete | components/library-filters.tsx:23 | removes every entry with the key and keeps the rest in order |
| LibraryFilters.Set | components/library-filters.tsx:21 | the key holds the value, in one entry; entries under other keys are unchanged, in order (deleting the key from before and after gives the same list) |
| LibraryFilters.SearchParams.constructor | components/library-filters.tsx:19 | the parameters start as the current ones |
| LibraryFilters.SearchParams.SetParam | components/library-filters.tsx:21 | the parameters become the result of setting the key |
| LibraryFilters.SearchParams.DeleteParam | components/library-filters.tsx:23 | the parameters become the result of deleting the key |
| LibraryFilters.Updated | components/library-filters.tsx:19-35 | the new parameters hold only old pairs and the chosen pair; an empty value leaves the key absent |
| LibraryFilters.Serialize | components/library-filters.tsx:36 | the query string is empty exactly when there are no parameters |
| LibraryFilters.UpdateFilters | components/library-filters.tsx:18-37 | the target is "/library?" followed by the updated parameters |
| LibraryFilters.SettingAFilterClearsOthers | components/library-filters.tsx:20-35 | setting a filter key to a non-empty value stores it and leaves no other filter key; other parameters are kept |
| LibraryFilters.ClearingAFieldKeepsOthers | components/library-filters.tsx:20-24 | setting a key to "" removes it and keeps every other parameter |
| LibraryFilters.OtherKeysKept | components/library-filters.tsx:20-24 | setting a non-filter key changes only that key |
| LibraryFilters.OrDefault | components/library-filters.tsx:14-16 | a present non-empty parameter reads as itself; an absent or empty one reads as the fallback |
| LibraryFilters.Read | components/library-filters.tsx:14-16 | a present non-empty query, genre or status reads as its value; an absent query reads "", an absent genre or status reads "all" |
| LibraryFilters.ClearFilters | components/library-filters.tsx:39-43 | navigates to "/library" with no parameters, where the bar reads "", "all", "all" and no filter is active |
| LibraryFilters.ClearingEachFieldIsClearFilters | components/library-filters.tsx:18-43 | clearing the three fields one by one shows the same bar as `clearFilters`, whatever the parameters were |
| LibraryFilters.HasActiveFilters | components/library-filters.tsx:43 | a filter is active exactly when the bar differs from "", "all", "all" |
| LibraryFilters.NoParamsNoFilters | components/library-filters.tsx:43 | without filter keys no filter is active |
| BookForm.CountedFields | components/book-form.tsx:91-103 | the progress counts exactly eleven fields |
| BookForm.FilledFrom | components/book-form.tsx:104-107 | the filled fields from a position on are at most the fields left |
| BookForm.FilledFromIsFilterLength | components/book-form.tsx:104-107 | the count from a position equals the length of the filtered rest |
| BookForm.FilledCount | components/book-form.tsx:104-107 | the number of filled fields is at most the number of fields |
| BookForm.FilledCountIsFilterLength | components/book-form.tsx:104-107 | the count equals the length of the filtered field list |
| BookForm.CalculateProgress | components/book-form.tsx:90-108 | round(filled·100/11), within 0..100 |
| BookForm.CurrentPageIgnored | components/book-form.tsx:91-103 | `currentPage` never changes the percentage |
| BookForm.ProgressExtremes | components/book-form.tsx:90-108 | 100% iff every counted field is filled, 0% iff none is |
| BookForm.FreshFormFilled | components/book-form.tsx:79-82 | a fresh create form has exactly two counted fields filled |
| BookForm.FreshFormProgress | components/book-form.tsx:79-82 | a fresh create form (status and genre set) shows 18% |
| BookForm.Valid | components/book-form.tsx:22-40 | the schema; a valid form has its title, author and status filled |
| BookForm.ValidIntended | components/book-form.tsx:26-33 | the schema with an empty number box (NaN) accepted as no value; such a form has its title, author and status filled |
| BookForm.ValidIffIntendedWithoutNaN | components/book-form.tsx:26-33 | the two schemas agree exactly on forms without an empty number box |
| BookForm.EmptyNumberBoxRejected | components/book-form.tsx:26-33 | a form whose year, pages or current-page box reads NaN fails the schema |
| BookForm.ValidFormProgress | components/book-form.tsx:22-40 | a form that passes the intended schema shows at least 27% |
| BookForm.ProcessedData | components/book-form.tsx:126-137 | title, author and status pass through; a given number and a non-empty isbn, cover, synopsis or notes pass through; numbers keep the schema bounds; "" becomes undefined; no id, timestamps or genre list |
| BookForm.EmptyBecomesUndefined | components/book-form.tsx:126-137 | every optional field given as "" is undefined in the submitted data, an empty number box is undefined too, and no text field submits "" |
| BookForm.TextNumber | components/book-form.tsx:128-131 | `Number(text)`: never "omitted"; blank text is 0; a number read from text is non-negative |
| BookForm.SubmittedNumber | components/book-form.tsx:128-131 | `x === "" ? undefined : Number(x)`: omitted exactly for ""; a number stays itself; undefined and NaN give NaN; text gives a non-negative number or NaN |
| BookForm.NumberOrUndefinedBesidesNaN | components/book-form.tsx:128-131 | the submitted value is a number exactly for a number, omitted exactly for "", and NaN exactly for a never-set field or an empty box; a NaN is recorded as unset |
| BookForm.TextNumberReadsDecimal | components/book-form.tsx:128-131 | `Number` applied to a number's decimal text gives that number back |
| BookForm.UnratedCreateFormSubmitsNaN | components/book-form.tsx:79-82 | a create form with a title, an author and numbers in its three number boxes, and no star clicked, is valid and submits rating NaN, which the record shows as unset |
| BookForm.Submit | components/book-form.tsx:139-143 | in edit mode with a book, update that book's id; otherwise add |
| BookForm.StarRule | components/book-form.tsx:157-173 | after clicking star i, stars 0..i are filled; a cleared rating fills none |
| BookForm.ClickedRatingValid | components/book-form.tsx:166 | a clicked rating is within the schema's 1..5 |
| BookForm.Form.constructor | components/book-form.tsx:79-82 | the form starts at the create defaults, not submitting |
| BookForm.Mounted | components/book-form.tsx:282 | registering the inputs: text inputs read "" when unset, the `valueAsNumber` boxes read NaN; genre, status and rating keep their values |
| BookForm.MountedIdempotent | components/book-form.tsx:282 | registering twice is registering once |
| BookForm.MountedCreateProgress | components/book-form.tsx:90-108 | the mounted create form counts four filled fields and shows 36% |
| BookForm.MountedCreateFormCannotBeSaved | components/book-form.tsx:26-33 | as written, a mounted create form with empty number boxes fails the schema whatever its title and author |
| BookForm.MountedCreateFormSaves | components/book-form.tsx:26-33 | with the intended schema that form passes and its year, pages, current page and rating reach the store as undefined |
| BookForm.Form.Mount | components/book-form.tsx:282 | the values become their mounted reading; nothing else changes |
| BookForm.Form.ClickStar | components/book-form.tsx:166 | the rating becomes i + 1 and nothing else changes |
| BookForm.Form.ClearRating | components/book-form.tsx:173 | the rating becomes "" and nothing else changes |
| BookForm.Form.OnSubmit | components/book-form.tsx:122-151 | makes the store call for the form's values and ends not submitting |
| Migrate.TrimmedGenre | migrate.ts:27 | the trimmed genre when non-empty, otherwise none |
| Migrate.LegacyPayload | migrate.ts:41-54 | a given title, author, synopsis and cover are kept, falsy ones become "Título Desconhecido", "Autor Desconhecido", "Sem sinopse" and the placeholder cover; year, pages and rating default to 0; currentPage 0, status `QUERO_LER`, isbn and notes undefined; genres [trimmed] or [] |
| Migrate.GenreRegistry.constructor | migrate.ts:23-24 | the lists start as the loaded genres and their names |
| Migrate.GenreRegistry.Register | migrate.ts:31-37 | a name is pushed once, with id = previous length + 1; the two lists stay in step |
| Migrate.RegisterStep | migrate.ts:31-37 | registering keeps earlier genres, names and the numbering |
| Migrate.RegisteredNamesDistinct | migrate.ts:31-37 | `genreNames` stays duplicate-free when it starts so |
| Migrate.RegistryStep | migrate.ts:30-39 | one iteration's registration keeps the genre list numbered, duplicate-free and holding every genre seen so far |
| Migrate.PayloadsStep | migrate.ts:26-54 | one more record adds its payload |
| Migrate.OutcomesStep | migrate.ts:56-61 | one more record adds its create outcome |
| Migrate.OutcomesForMeaning | migrate.ts:56-61 | each outcome is the create request of the payload at the same position |
| Migrate.MigrateStep | migrate.ts:26-61 | one iteration adds the record's payload and its create outcome |
| Migrate.Migrate | migrate.ts:18-64 | each record, in order, gets its payload and one create request; the genre list only grows, each registered genre is new and numbered one past the list before it, the list stays duplicate-free when the loaded list was, and it holds every legacy genre |
| Migrate.InitialDistinctStays | migrate.ts:30-37 | registering after a duplicate-free loaded list leaves the whole list duplicate-free |
| Migrate.NameMissing | data/db.ts:29-30 | a name no genre of the list carries is not found |
| Migrate.UnknownGenreNotMigrated | migrate.ts:56-60 | a record whose genre is missing from the catalogue create resolves against fails |
| Migrate.DraculaGenre | migrate.ts:27 | an example legacy record with genre "Terror" has the trimmed genre "Terror" |
| Migrate.TerrorNotInFallback | data/db.ts:72-89 | the fallback table has no "Terror" genre |
| Migrate.TerrorExample | migrate.ts:30-60 | with the fallback catalogue, a "Terror" book is registered locally but not created |
| Migrate.NameResolves | data/db.ts:29-30 | a registered name resolves |
| Migrate.RegisteredPayloadResolves | migrate.ts:39 | a payload whose genre is registered shapes successfully |
| Migrate.RegisteredCreate | migrate.ts:56-60 | with its genre registered, create fails iff the request fails or its answer cannot be mapped |
| Migrate.FailsStep | migrate.ts:56-60 | one more record whose genre is registered fails only if its request fails |
| Migrate.RegisteringStep | migrate.ts:26-61 | one iteration of the corrected migration keeps the payloads and the failure rule |
| Migrate.MigrateRegisteringGenres | migrate.ts:18-64 | resolving against the registered list, a record fails only when its request fails |

## Left out

- Network requests, file reads and writes, `localStorage` persistence and timers are left out. Their results are parameters: request answers are `Result` values and stored lists are sequences.
- Clock values, `Date.now`, `crypto.randomUUID` and ids are parameters. Timestamps are integers (milliseconds); ISO strings are not parsed.
- `toLowerCase`, `toUpperCase` and `trim` are modelled on ASCII letters, and on ASCII whitespace plus U+00A0. Unicode case mapping is left out.
- Text.Trim: JavaScript's `trim` also removes U+FEFF, U+1680, U+2000–U+200A, U+2028, U+2029, U+202F, U+205F and U+3000; the model keeps them.
- `null` and `undefined` are one absent value (`None`), except in patches, where a key set to undefined is told apart from a missing key.
- Floating-point division is left out. The model rounds the exact ratio half up. The program rounds the double `(a / b) * 100`, which can fall just below an exact half, so it can come out one lower at exact halves (23 of 40 pages: the model gives 58, double arithmetic gives 57). The form's `filled / 11` never lands on a half.
- DataBookStats.GetReadingProgress: rounds the exact ratio; at an exact half the program's double arithmetic can give one less (see the line on floating point).
- Dashboard.Progress: rounds the exact ratio; at an exact half the program's double arithmetic can give one less (see the line on floating point).
- URL encoding of search parameters (`URLSearchParams.toString`) is left out. Pairs are joined with `=` and `&` as given.
- Rendering, styling and the `hydrated` and loading flags are left out.
- `toLocaleString`, `formatDate` and `cn` are left out.
- The `AbortError` check and aborted fetches in components/library-books.tsx are left out.
- `year` normalisation in components/library-books.tsx:44 is left out: the API record already holds a number or nothing.
- Genre objects without a string `name` and non-string status values in app/library/page.tsx are left out. An entry is an object with a string name or a bare string.
- The `parseGenre`/`parseReadingStatus` that app/library/page.tsx imports from data/utils are not part of this model. The page receives their results as already-parsed parameters.
- The edit-form defaults (components/book-form.tsx:64-78) are left out.
- BookForm.Valid: the schema's `.url()` check on a non-empty cover (components/book-form.tsx:36) is left out; any string passes.
- BookForm.ValidIntended: leaves out the same cover URL check as BookForm.Valid.
- The remote db's `getAll`, `getById` and `delete` (data/db.ts:138-159) are left out: they are an HTTP call plus `mapBookApiToBook`, which is modelled.
- The user-facing message of a thrown error is a plain string.
- BookForm.ProcessedData: the record's numeric fields hold a number or nothing, so where the form submits NaN the patch shows the field as unset. A rating that was never set (no star clicked) is submitted as `Number(undefined)`, which is NaN; under the intended schema, so is an empty year, pages or current-page box. SubmittedNumber models the submitted value with its NaN case, and NumberOrUndefinedBesidesNaN and UnratedCreateFormSubmitsNaN state where the two differ.
- BookForm.TextNumber: `Number(text)` is modelled for blank text (0) and plain decimal digits after trimming; signs, fractions, exponents and hexadecimal are read as NaN. The number boxes hand over numbers, so only a string value set from elsewhere reaches this path.
- Utils.Truncate: lengths and cuts count code points, as Dafny strings do. `text.length` and `slice` count UTF-16 code units, so text outside the Basic Multilingual Plane differs: "😀a" with maxLength 2 is returned whole by the model, while the program gives "😀…". With maxLength 1 the program splits the surrogate pair.
- Utils.SliceTo: `slice(0, n)` is taken in code points, not UTF-16 code units (see Utils.Truncate).
- One `now` stands for separate `new Date()` readings. These are the two in `addBook` (lib/book-store.ts:28-29) and the defaults of `mapBookApiToBook` (data/db.ts:55-56). The model therefore gives `createdAt` and `updatedAt` the same value, where the program can differ by a millisecond.
- Migrate.Migrate and Migrate.MigrateRegisteringGenres pass one fixed catalogue to every create. In the program, each `db.create` reads `db.getGenres()` again (data/db.ts:25), so a remote genre list that changed during the migration is not modelled.
- UpdatedOrder.SortByUpdatedDesc: the sort is specified by its result (ordered, a permutation, and stable as SortKeepsTies states), not by the engine's sorting algorithm.
- LibraryBooks.FilterBooks: the thrown `TypeError` is one `Failure`; which book's name triggered it is not stated.

## Findings

| source | as written | input that shows it | evidently intended | confidence | as-written member | corrected member |
|---|---|---|---|---|---|---|
| migrate.ts:30-60 | a genre the catalogue lacks is only pushed onto the local `existingGenres` list, while `db.create` resolves genre names against `db.getGenres()` (data/db.ts:26-30), which never sees that list | a legacy book with genre "Terror" while the catalogue is the fallback table: "Terror" is registered locally, then `create` throws "Gênero desconhecido: Terror" and the book is not migrated | create resolves the book's genre against the registered list, so the book is migrated whenever its request succeeds | medium, not executed | Migrate.TerrorExample | Migrate.MigrateRegisteringGenres |
| components/book-form.tsx:26-33 | year, pages and currentPage are registered with `valueAsNumber` (components/book-form.tsx:282, 329, 340), so an empty box reads NaN, which `z.number()` rejects and which is not the `""` literal the schema allows | the create form with a title and an author and its three number boxes left empty: the schema fails on year, so the form cannot be saved | an empty number box counts as no value, the form saves and the store receives the three fields as undefined | medium, not executed | BookForm.MountedCreateFormCannotBeSaved | BookForm.MountedCreateFormSaves |
