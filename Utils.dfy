/** The string helpers and validators of lib/utils.ts. */
module Utils {
  import opened Wrappers
  import opened Books
  import Text

  const DEFAULT_MAX_LENGTH: nat := 100
  const ELLIPSIS: char := '…'

  /**
   * `text.slice(0, n)` for a whole number `n`: a negative `n` counts from the end, and the
   * result is clamped to the text.
   */
  function SliceTo(text: string, n: int): (r: string)
    ensures |r| <= |text| && r == text[..|r|]
    ensures 0 <= n ==> |r| == if n <= |text| then n else |text|
    ensures n < 0 ==> |r| == if |text| + n < 0 then 0 else |text| + n
  {
    if n < 0 then (if |text| + n < 0 then [] else text[..|text| + n])
    else if n <= |text| then text[..n] else text
  }

  /** `truncate(text, maxLength)`: the text itself when it fits, else a cut-down prefix and "…". */
  function Truncate(text: string, maxLength: int): (r: string)
    ensures text == "" ==> r == ""
    ensures |text| <= maxLength ==> r == text
    ensures text != "" && |text| > maxLength ==>
              |r| >= 1 && r[|r| - 1] == ELLIPSIS && r[..|r| - 1] == SliceTo(text, maxLength)
    ensures 0 <= maxLength && text != "" && |text| > maxLength ==> |r| == maxLength + 1
  {
    if text == "" then ""
    else if |text| > maxLength then SliceTo(text, maxLength) + [ELLIPSIS]
    else text
  }

  /** `truncate(text)` with the default limit: a text over 100 characters keeps 100 of them and "…". */
  function TruncateDefault(text: string): (r: string)
    ensures |text| <= DEFAULT_MAX_LENGTH ==> r == text
    ensures |text| > DEFAULT_MAX_LENGTH ==>
              |r| == DEFAULT_MAX_LENGTH + 1 && r[..DEFAULT_MAX_LENGTH] == text[..DEFAULT_MAX_LENGTH] && r[DEFAULT_MAX_LENGTH] == ELLIPSIS
  {
    Truncate(text, DEFAULT_MAX_LENGTH)
  }

  /** A text longer than the limit comes back one character over it, as the first characters and "…". */
  lemma TruncateBound(text: string, maxLength: nat)
    ensures |Truncate(text, maxLength)| <= maxLength + 1
    ensures |text| > maxLength ==> Truncate(text, maxLength) == text[..maxLength] + [ELLIPSIS]
  {
  }

  /** With a non-negative limit, truncating twice is truncating once. */
  lemma TruncateIdempotent(text: string, maxLength: nat)
    ensures Truncate(Truncate(text, maxLength), maxLength) == Truncate(text, maxLength)
  {
    var r := Truncate(text, maxLength);
    if |text| > maxLength {
      assert r == text[..maxLength] + [ELLIPSIS];
      assert r[..maxLength] == text[..maxLength];
    }
  }

  /** `capitalize(text)`: the first character in upper case, the rest unchanged. */
  function Capitalize(text: string): (r: string)
    ensures |r| == |text|
    ensures text != "" ==> r[0] == Text.UpperChar(text[0]) && r[1..] == text[1..]
  {
    if text == "" then "" else [Text.UpperChar(text[0])] + text[1..]
  }

  /** Capitalising twice is capitalising once. */
  lemma CapitalizeIdempotent(text: string)
    ensures Capitalize(Capitalize(text)) == Capitalize(text)
  {
    if text != "" {
      var c := Text.UpperChar(text[0]);
      assert Text.UpperChar(c) == c;
      assert Capitalize(text)[1..] == text[1..];
    }
  }

  /** `parseGenre(value)`: the value when it is one of the genres, else undefined. */
  function ParseGenre(value: Option<string>): (r: Option<string>)
    ensures r.Some? <==> value.Some? && value.value in GENRES
    ensures r.Some? ==> r == value
  {
    if value.None? || value.value == "" then None
    else if value.value in GENRES then value
    else None
  }

  /** Every genre parses to itself, and parsing is idempotent. */
  lemma ParseGenreFixpoint(g: string, value: Option<string>)
    ensures g in GENRES ==> ParseGenre(Some(g)) == Some(g)
    ensures ParseGenre(ParseGenre(value)) == ParseGenre(value)
  {
  }

  /** `READING_STATUS.map(s => s.value)`. */
  function AllowedStatuses(): (r: seq<string>)
    ensures |r| == |READING_STATUS|
    ensures forall st :: StatusValue(st) in r
  {
    var r := seq(|READING_STATUS|, i requires 0 <= i < |READING_STATUS| => StatusValue(READING_STATUS[i]));
    assert forall st :: r[ReadingStatusIndex(st)] == StatusValue(st);
    r
  }

  function ReadingStatusIndex(st: ReadingStatus): (i: nat)
    ensures i < |READING_STATUS| && READING_STATUS[i] == st
  {
    match st
    case QueroLer => 0
    case Lendo => 1
    case Lido => 2
    case Pausado => 3
    case Abandonado => 4
  }

  /** `parseReadingStatus(value)`: accepts exactly the five status values. */
  function ParseReadingStatus(value: Option<string>): (r: Option<string>)
    ensures r.Some? <==> exists st :: value == Some(StatusValue(st))
    ensures r.Some? ==> r == value
  {
    if value.None? || value.value == "" then None
    else if value.value in AllowedStatuses() then
      var i :| 0 <= i < |AllowedStatuses()| && AllowedStatuses()[i] == value.value;
      assert value == Some(StatusValue(READING_STATUS[i]));
      value
    else
      assert forall st :: value != Some(StatusValue(st));
      None
  }

  /** Parsing a status is idempotent. */
  lemma ParseReadingStatusIdempotent(value: Option<string>)
    ensures ParseReadingStatus(ParseReadingStatus(value)) == ParseReadingStatus(value)
  {
  }
}
