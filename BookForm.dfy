/**
 * The add/edit form of components/book-form.tsx: its completion percentage, the validation
 * schema, the star-rating control, and the record `onSubmit` hands to the store.
 */
module BookForm {
  import opened Wrappers
  import opened Books
  import Seqs
  import Text
  import MathRound

  /**
   * A form value: never set, a string (possibly empty), a number, or the NaN that an empty
   * `valueAsNumber` input reads as.
   */
  datatype Value = Undefined | Str(s: string) | Number(n: int) | NaN

  datatype FormData = FormData(
    title: Value, author: Value, genre: Value, year: Value, pages: Value, currentPage: Value,
    status: Value, isbn: Value, cover: Value, rating: Value, synopsis: Value, notes: Value)

  const NO_GENRE: string := "Nenhum gênero"
  const FIELD_COUNT: nat := 11

  /** `value !== "" && value !== undefined && value !== null` */
  predicate Filled(v: Value) {
    v != Undefined && v != Str("")
  }

  /** The eleven fields the percentage counts, in the form's order; `currentPage` is not one. */
  function CountedFields(f: FormData): (r: seq<Value>)
    ensures |r| == FIELD_COUNT
  {
    [f.title, f.author, f.genre, f.year, f.pages, f.status, f.isbn, f.cover, f.rating, f.synopsis, f.notes]
  }

  function IsFilled(): Value -> bool {
    (v: Value) => Filled(v)
  }

  /** How many of `s[i..]` are filled. */
  function FilledFrom(s: seq<Value>, i: nat): (n: nat)
    requires i <= |s|
    ensures n <= |s| - i
    decreases |s| - i
  {
    if i == |s| then 0 else (if Filled(s[i]) then 1 else 0) + FilledFrom(s, i + 1)
  }

  /** `fields.filter(filled).length` */
  function FilledCount(s: seq<Value>): (n: nat)
    ensures n <= |s|
  {
    FilledFrom(s, 0)
  }

  lemma {:induction false} FilledFromIsFilterLength(s: seq<Value>, i: nat)
    requires i <= |s|
    ensures FilledFrom(s, i) == |Seqs.Filter(s[i..], IsFilled())|
    decreases |s| - i
  {
    if i < |s| {
      FilledFromIsFilterLength(s, i + 1);
      assert s[i..][0] == s[i] && s[i..][1..] == s[i + 1..];
    }
  }

  /** The count is the length of the filtered list. */
  lemma FilledCountIsFilterLength(s: seq<Value>)
    ensures FilledCount(s) == |Seqs.Filter(s, IsFilled())|
  {
    FilledFromIsFilterLength(s, 0);
    assert s[0..] == s;
  }

  /** `calculateProgress`: the filled share of the eleven fields, as a percentage rounded half up. */
  function CalculateProgress(f: FormData): (r: int)
    ensures 0 <= r <= 100
    ensures MathRound.IsRoundHalfUp(r, 100 * FilledCount(CountedFields(f)), FIELD_COUNT)
  {
    var filled := FilledCount(CountedFields(f));
    MathRound.PercentBounds(filled, FIELD_COUNT);
    MathRound.RoundRatio(100 * filled, FIELD_COUNT)
  }

  /** The current page never changes the percentage. */
  lemma CurrentPageIgnored(f: FormData, v: Value)
    ensures CalculateProgress(f.(currentPage := v)) == CalculateProgress(f)
  {
    assert CountedFields(f.(currentPage := v)) == CountedFields(f);
  }

  /** The percentage is 100 exactly when all eleven fields are filled, and 0 exactly when none is. */
  lemma ProgressExtremes(f: FormData)
    ensures CalculateProgress(f) == 100 <==> forall v :: v in CountedFields(f) ==> Filled(v)
    ensures CalculateProgress(f) == 0 <==> forall v :: v in CountedFields(f) ==> !Filled(v)
  {
    var fields := CountedFields(f);
    FilledCountIsFilterLength(fields);
    var filled := FilledCount(fields);
    Seqs.FilterKeepsAllIff(fields, IsFilled());
    var r := CalculateProgress(f);
    MathRound.RoundHalfUpUnique(r, MathRound.RoundRatio(100 * filled, FIELD_COUNT), 100 * filled, FIELD_COUNT);
    if filled == 0 {
      Seqs.FilterNoneTrue(fields, IsFilled());
      assert r == 0;
      forall v | v in fields ensures !Filled(v) {
        Seqs.FilterMembership(fields, IsFilled(), v);
      }
    } else {
      assert 2 * 11 * r >= 200 * filled + 11 - 22 + 1 by {
        assert 2 * 11 * (r + 1) > 200 * filled + 11;
      }
      assert r > 0;
      assert Seqs.Filter(fields, IsFilled())[0] in fields;
    }
    if filled < FIELD_COUNT {
      assert r < 100;
    }
  }

  /** The values a new book's form starts with: only the status and the genre. */
  const CREATE_DEFAULTS: FormData := FormData(
    Undefined, Undefined, Str(NO_GENRE), Undefined, Undefined, Undefined,
    Str(StatusValue(QueroLer)), Undefined, Undefined, Undefined, Undefined, Undefined)

  /** A fresh form has exactly two counted fields filled: the genre and the status. */
  lemma FreshFormFilled()
    ensures FilledCount(CountedFields(CREATE_DEFAULTS)) == 2
  {
    var s := CountedFields(CREATE_DEFAULTS);
    assert FilledFrom(s, 6) == 0 by {
      assert FilledFrom(s, 10) == 0 && FilledFrom(s, 9) == 0 && FilledFrom(s, 8) == 0;
      assert FilledFrom(s, 7) == 0;
    }
    assert FilledFrom(s, 5) == 1 && FilledFrom(s, 4) == 1 && FilledFrom(s, 3) == 1;
    assert FilledFrom(s, 2) == 2 && FilledFrom(s, 1) == 2;
  }

  /** A fresh form shows 2 of 11 fields filled, that is 18%. */
  lemma FreshFormProgress()
    ensures CalculateProgress(CREATE_DEFAULTS) == 18
  {
    FreshFormFilled();
  }

  /**
   * A number field of the schema, `z.number()` with bounds, `.optional()` and `.or(z.literal(""))`:
   * a number within bounds, `""`, or absent. `z.number()` rejects NaN.
   */
  predicate NumberIn(v: Value, lo: int, hi: Option<int>) {
    match v
    case Undefined => true
    case Str(s) => s == ""
    case Number(n) => lo <= n && (hi.None? || n <= hi.value)
    case NaN => false
  }

  /** An optional string field of the schema. */
  predicate OptionalText(v: Value) {
    v.Undefined? || v.Str?
  }

  /**
   * `bookSchema` (URL syntax of the cover is not checked). The three required fields of a valid
   * form count as filled.
   */
  predicate Valid(f: FormData, currentYear: int)
    ensures Valid(f, currentYear) ==> Filled(f.title) && Filled(f.author) && Filled(f.status)
  {
    && f.title.Str? && |f.title.s| >= 1
    && f.author.Str? && |f.author.s| >= 1
    && NumberIn(f.year, 1000, Some(currentYear + 10))
    && NumberIn(f.pages, 1, None)
    && NumberIn(f.currentPage, 0, None)
    && NumberIn(f.rating, 1, Some(5))
    && f.status.Str? && (exists st :: f.status.s == StatusValue(st))
    && OptionalText(f.genre) && OptionalText(f.isbn) && OptionalText(f.cover)
    && OptionalText(f.synopsis) && OptionalText(f.notes)
  }

  /**
   * A number box as the schema's `.optional()` intends it: an empty box, which reads as NaN,
   * counts as no value.
   */
  predicate NumberBoxIn(v: Value, lo: int, hi: Option<int>) {
    v.NaN? || NumberIn(v, lo, hi)
  }

  /**
   * `bookSchema` with the year, pages and current-page boxes read as intended: an empty box
   * passes. The three required fields of such a form count as filled.
   */
  predicate ValidIntended(f: FormData, currentYear: int)
    ensures ValidIntended(f, currentYear) ==> Filled(f.title) && Filled(f.author) && Filled(f.status)
  {
    && f.title.Str? && |f.title.s| >= 1
    && f.author.Str? && |f.author.s| >= 1
    && NumberBoxIn(f.year, 1000, Some(currentYear + 10))
    && NumberBoxIn(f.pages, 1, None)
    && NumberBoxIn(f.currentPage, 0, None)
    && NumberIn(f.rating, 1, Some(5))
    && f.status.Str? && (exists st :: f.status.s == StatusValue(st))
    && OptionalText(f.genre) && OptionalText(f.isbn) && OptionalText(f.cover)
    && OptionalText(f.synopsis) && OptionalText(f.notes)
  }

  /** The two schemas differ exactly on forms with an empty number box. */
  lemma ValidIffIntendedWithoutNaN(f: FormData, currentYear: int)
    ensures Valid(f, currentYear) <==>
      ValidIntended(f, currentYear) && !f.year.NaN? && !f.pages.NaN? && !f.currentPage.NaN?
  {
  }

  /** `"" → undefined` for a text field; an absent field also reads as `undefined`. */
  function TextOrUndefined(v: Value): Option<string> {
    if v.Str? && v.s != "" then Some(v.s) else None
  }

  /**
   * `"" → undefined`, otherwise `Number(value)`, as the patch records it: the record's numeric
   * fields hold a number or nothing, so a NaN (see `SubmittedNumber`) is recorded as nothing.
   */
  function NumberOrUndefined(v: Value): Option<int> {
    if v.Number? then Some(v.n) else None
  }

  /** What `value === "" ? undefined : Number(value)` yields for a numeric field. */
  datatype Submitted = Omitted | NotANumber | Num(n: int)

  /** `Number(text)`: blank text is 0 and decimal digits (around blanks) their value; other text is NaN. */
  function TextNumber(s: string): (r: Submitted)
    ensures !r.Omitted?
    ensures Text.Trim(s) == "" ==> r == Num(0)
    ensures r.Num? ==> r.n >= 0
  {
    var t := Text.Trim(s);
    if t == "" then Num(0) else if Text.IsDecimal(t) then Num(Text.DecimalValue(t)) else NotANumber
  }

  /** A number's decimal text reads back as that number. */
  lemma TextNumberReadsDecimal(n: nat)
    ensures TextNumber(Text.NatToDecimal(n)) == Num(n)
  {
    var s := Text.NatToDecimal(n);
    assert !Text.IsSpace(s[0]) && !Text.IsSpace(s[|s| - 1]);
    assert Text.TrimStart(s) == s;
    assert Text.TrimEnd(s) == s;
    Text.DecimalRoundTrip(n);
  }

  /** `Number(undefined)` and `Number(NaN)` are NaN; a string is read by `TextNumber`. */
  function SubmittedNumber(v: Value): (r: Submitted)
    ensures r.Omitted? <==> v == Str("")
    ensures v.Number? ==> r == Num(v.n)
    ensures v.Undefined? || v.NaN? ==> r.NotANumber?
    ensures v.Str? && r.Num? ==> r.n >= 0
  {
    match v
    case Undefined => NotANumber
    case NaN => NotANumber
    case Str(s) => if s == "" then Omitted else TextNumber(s)
    case Number(n) => Num(n)
  }

  /**
   * For a value the number boxes can hold, the patch agrees with the submitted value wherever
   * that is a number or `undefined`; where the form submits NaN (a value never set, or an empty
   * box) the patch records the field as unset.
   */
  lemma NumberOrUndefinedBesidesNaN(v: Value, lo: int, hi: Option<int>)
    requires NumberBoxIn(v, lo, hi)
    ensures SubmittedNumber(v).Num? <==> v.Number?
    ensures SubmittedNumber(v).Num? ==> NumberOrUndefined(v) == Some(SubmittedNumber(v).n)
    ensures SubmittedNumber(v).Omitted? <==> v == Str("")
    ensures SubmittedNumber(v).NotANumber? <==> v.Undefined? || v.NaN?
    ensures !SubmittedNumber(v).Num? ==> NumberOrUndefined(v).None?
  {
  }

  /**
   * `processedData`: every optional field is set, to `undefined` when it was empty; title,
   * author and status pass through.
   */
  function ProcessedData(f: FormData, currentYear: int): (r: Patch)
    requires ValidIntended(f, currentYear)
    ensures r.title == Some(f.title.s) && r.author == Some(f.author.s) && r.status == Some(Some(f.status.s))
    ensures r.genre == Some(if f.genre == Str("") then None else TextOrUndefined(f.genre))
    ensures r.year.Some? && r.pages.Some? && r.currentPage.Some? && r.rating.Some?
    ensures f.year.Number? ==> r.year == Some(Some(f.year.n))
    ensures f.pages.Number? ==> r.pages == Some(Some(f.pages.n))
    ensures f.currentPage.Number? ==> r.currentPage == Some(Some(f.currentPage.n))
    ensures f.rating.Number? ==> r.rating == Some(Some(f.rating.n))
    ensures f.isbn.Str? && f.isbn.s != "" ==> r.isbn == Some(Some(f.isbn.s))
    ensures f.cover.Str? && f.cover.s != "" ==> r.cover == Some(Some(f.cover.s))
    ensures f.synopsis.Str? && f.synopsis.s != "" ==> r.synopsis == Some(Some(f.synopsis.s))
    ensures f.notes.Str? && f.notes.s != "" ==> r.notes == Some(Some(f.notes.s))
    ensures r.year.value.Some? ==> 1000 <= r.year.value.value <= currentYear + 10
    ensures r.pages.value.Some? ==> r.pages.value.value >= 1
    ensures r.currentPage.value.Some? ==> r.currentPage.value.value >= 0
    ensures r.rating.value.Some? ==> 1 <= r.rating.value.value <= 5
    ensures r.id.None? && r.createdAt.None? && r.updatedAt.None? && r.genres.None? && r.genreIds.None?
  {
    Patch(
      None, Some(f.title.s), Some(f.author.s), Some(TextOrUndefined(f.genre)), None, None,
      Some(NumberOrUndefined(f.year)), Some(TextOrUndefined(f.isbn)), Some(Some(f.status.s)),
      Some(NumberOrUndefined(f.pages)), Some(NumberOrUndefined(f.currentPage)),
      Some(NumberOrUndefined(f.rating)), Some(TextOrUndefined(f.cover)),
      Some(TextOrUndefined(f.synopsis)), Some(TextOrUndefined(f.notes)), None, None)
  }

  /** An empty field reaches the store as `undefined`, never as `""`. */
  lemma EmptyBecomesUndefined(f: FormData, currentYear: int)
    requires ValidIntended(f, currentYear)
    ensures var r := ProcessedData(f, currentYear);
      && (f.isbn == Str("") ==> r.isbn == Some(None))
      && (f.cover == Str("") ==> r.cover == Some(None))
      && (f.synopsis == Str("") ==> r.synopsis == Some(None))
      && (f.notes == Str("") ==> r.notes == Some(None))
      && (f.year == Str("") ==> r.year == Some(None))
      && (f.pages == Str("") ==> r.pages == Some(None))
      && (f.rating == Str("") ==> r.rating == Some(None))
      && (f.year == NaN ==> r.year == Some(None))
      && (f.pages == NaN ==> r.pages == Some(None))
      && (f.currentPage == NaN ==> r.currentPage == Some(None))
      && (forall o :: o in [r.genre, r.isbn, r.cover, r.synopsis, r.notes] ==> o != Some(Some("")))
  {
  }

  /** A form that passes the schema shows at least 27%: three of the eleven fields are filled. */
  lemma ValidFormProgress(f: FormData, currentYear: int)
    requires ValidIntended(f, currentYear)
    ensures CalculateProgress(f) >= 27
  {
    var s := CountedFields(f);
    assert FilledFrom(s, 5) >= 1;
    assert FilledFrom(s, 1) >= 2 by {
      assert FilledFrom(s, 4) >= 1 && FilledFrom(s, 3) >= 1 && FilledFrom(s, 2) >= 1;
    }
    assert FilledCount(s) >= 3;
  }

  /**
   * A mounted create form with a title, an author and the three number boxes typed in, and no
   * star clicked, passes the schema; its rating, never set, is submitted as NaN, and the patch
   * records it as unset.
   */
  lemma UnratedCreateFormSubmitsNaN(title: string, author: string, year: int, pages: int, currentPage: int, currentYear: int)
    requires title != "" && author != ""
    requires 1000 <= year <= currentYear + 10 && pages >= 1 && currentPage >= 0
    ensures var f := Mounted(CREATE_DEFAULTS).(title := Str(title), author := Str(author), year := Number(year),
                                               pages := Number(pages), currentPage := Number(currentPage));
      && Valid(f, currentYear)
      && SubmittedNumber(f.rating) == NotANumber
      && ProcessedData(f, currentYear).rating == Some(None)
  {
    var f := Mounted(CREATE_DEFAULTS).(title := Str(title), author := Str(author), year := Number(year),
                                       pages := Number(pages), currentPage := Number(currentPage));
    assert f.status.s == StatusValue(QueroLer);
  }

  /** How a registered text input reads: an unset one shows an empty box, `""`. */
  function ReadText(v: Value): (r: Value)
    ensures r != Undefined && (v != Undefined ==> r == v)
  {
    if v.Undefined? then Str("") else v
  }

  /** How a `valueAsNumber` input reads: an unset one shows an empty box, NaN. */
  function ReadNumberBox(v: Value): (r: Value)
    ensures r != Undefined && (v != Undefined ==> r == v)
    ensures v.Undefined? ==> r.NaN?
  {
    if v.Undefined? then NaN else v
  }

  /**
   * The values once the inputs are registered: every registered input takes the reading of its
   * box. Genre, status and rating are set through `setValue` only and keep their values.
   */
  function Mounted(f: FormData): (r: FormData)
    ensures r.genre == f.genre && r.status == f.status && r.rating == f.rating
    ensures r.title != Undefined && r.author != Undefined && r.isbn != Undefined
    ensures r.cover != Undefined && r.synopsis != Undefined && r.notes != Undefined
    ensures f.year.Undefined? ==> r.year.NaN?
    ensures f.pages.Undefined? ==> r.pages.NaN?
    ensures f.currentPage.Undefined? ==> r.currentPage.NaN?
  {
    f.(title := ReadText(f.title), author := ReadText(f.author), isbn := ReadText(f.isbn),
       cover := ReadText(f.cover), synopsis := ReadText(f.synopsis), notes := ReadText(f.notes),
       year := ReadNumberBox(f.year), pages := ReadNumberBox(f.pages),
       currentPage := ReadNumberBox(f.currentPage))
  }

  /** Registering again changes nothing. */
  lemma MountedIdempotent(f: FormData)
    ensures Mounted(Mounted(f)) == Mounted(f)
  {
  }

  /**
   * Once mounted, the create form counts genre, status and the two empty number boxes (NaN is
   * neither `""` nor undefined) as filled: 4 of 11, shown as 36%.
   */
  lemma MountedCreateProgress()
    ensures FilledCount(CountedFields(Mounted(CREATE_DEFAULTS))) == 4
    ensures CalculateProgress(Mounted(CREATE_DEFAULTS)) == 36
  {
    var s := CountedFields(Mounted(CREATE_DEFAULTS));
    assert FilledFrom(s, 6) == 0 by {
      assert FilledFrom(s, 10) == 0 && FilledFrom(s, 9) == 0 && FilledFrom(s, 8) == 0;
      assert FilledFrom(s, 7) == 0;
    }
    assert FilledFrom(s, 5) == 1 && FilledFrom(s, 4) == 2 && FilledFrom(s, 3) == 3;
    assert FilledFrom(s, 2) == 4 && FilledFrom(s, 1) == 4;
  }

  /** As written, the schema rejects any form with an empty number box. */
  lemma EmptyNumberBoxRejected(f: FormData, currentYear: int)
    requires f.year.NaN? || f.pages.NaN? || f.currentPage.NaN?
    ensures !Valid(f, currentYear)
  {
  }

  /**
   * As written, a mounted create form whose year, pages and current-page boxes are left empty
   * cannot be saved, whatever its title and author.
   */
  lemma MountedCreateFormCannotBeSaved(title: string, author: string, currentYear: int)
    ensures !Valid(Mounted(CREATE_DEFAULTS).(title := Str(title), author := Str(author)), currentYear)
  {
    EmptyNumberBoxRejected(Mounted(CREATE_DEFAULTS).(title := Str(title), author := Str(author)), currentYear);
  }

  /**
   * With the intended schema the same form saves: its empty number boxes reach the store as
   * undefined.
   */
  lemma MountedCreateFormSaves(title: string, author: string, currentYear: int)
    requires title != "" && author != ""
    ensures var f := Mounted(CREATE_DEFAULTS).(title := Str(title), author := Str(author));
      && ValidIntended(f, currentYear)
      && var r := ProcessedData(f, currentYear);
         r.year == Some(None) && r.pages == Some(None) && r.currentPage == Some(None) && r.rating == Some(None)
  {
    var f := Mounted(CREATE_DEFAULTS).(title := Str(title), author := Str(author));
    assert f.status.s == StatusValue(QueroLer);
  }

  datatype Mode = Create | Edit

  /** The store call `onSubmit` makes. */
  datatype StoreCall = UpdateCall(id: string, updates: Patch) | AddCall(data: Patch)

  function Submit(mode: Mode, book: Option<Book>, f: FormData, currentYear: int): (r: StoreCall)
    requires ValidIntended(f, currentYear)
    ensures r.UpdateCall? <==> mode == Edit && book.Some?
    ensures r.UpdateCall? ==> r.id == book.value.id && r.updates == ProcessedData(f, currentYear)
    ensures r.AddCall? ==> r.data == ProcessedData(f, currentYear)
  {
    var data := ProcessedData(f, currentYear);
    if mode == Edit && book.Some? then UpdateCall(book.value.id, data) else AddCall(data)
  }

  /** `Number(rating || 0)` */
  function RatingNumber(v: Value): int {
    if v.Number? then v.n else 0
  }

  /** Star `i` (from 0) is drawn filled. */
  predicate StarFilled(rating: Value, i: nat) {
    i < RatingNumber(rating)
  }

  /** After clicking star `i` exactly stars 0..i are filled; after "Limpar" none is. */
  lemma StarRule(i: nat, j: nat)
    ensures StarFilled(Number(i + 1), j) <==> j <= i
    ensures !StarFilled(Str(""), j)
  {
  }

  /** Clicking a star always leaves the rating within the schema's bounds. */
  lemma ClickedRatingValid(i: nat)
    requires i < 5
    ensures NumberIn(Number(i + 1), 1, Some(5))
  {
  }

  /** The form's state: its values and the submitting flag. */
  class Form {
    var values: FormData
    var isSubmitting: bool

    constructor()
      ensures values == CREATE_DEFAULTS && !isSubmitting
    {
      values := CREATE_DEFAULTS;
      isSubmitting := false;
    }

    /** Registering the inputs on mount: each registered field takes its box's reading. */
    method Mount()
      modifies this
      ensures values == Mounted(old(values)) && isSubmitting == old(isSubmitting)
    {
      values := Mounted(values);
    }

    /** `setValue("rating", i + 1)` */
    method ClickStar(i: nat)
      modifies this
      ensures values == old(values).(rating := Number(i + 1)) && isSubmitting == old(isSubmitting)
    {
      values := values.(rating := Number(i + 1));
    }

    /** `setValue("rating", "")` */
    method ClearRating()
      modifies this
      ensures values == old(values).(rating := Str("")) && isSubmitting == old(isSubmitting)
    {
      values := values.(rating := Str(""));
    }

    /** `onSubmit`: the flag is raised, the store call made, and the flag lowered again. */
    method OnSubmit(mode: Mode, book: Option<Book>, currentYear: int) returns (call: StoreCall)
      requires ValidIntended(values, currentYear)
      modifies this
      ensures call == Submit(mode, book, old(values), currentYear)
      ensures values == old(values) && !isSubmitting
    {
      isSubmitting := true;
      call := Submit(mode, book, values, currentYear);
      isSubmitting := false;
    }
  }
}
