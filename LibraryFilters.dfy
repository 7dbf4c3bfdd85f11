/**
 * The filter bar of components/library-filters.tsx. The URL's search parameters are an ordered
 * list of key/value pairs, as `URLSearchParams` keeps them; choosing a filter rewrites that list
 * and navigates to the library page with it.
 */
module LibraryFilters {
  import opened Wrappers
  import Seqs

  type Pair = (string, string)

  const QUERY: string := "query"
  const GENRE: string := "genre"
  const STATUS: string := "status"
  const ALL: string := "all"
  const LIBRARY_PATH: string := "/library"

  predicate IsFilterKey(k: string) {
    k == QUERY || k == GENRE || k == STATUS
  }

  /** `params.get(key)`: the value of the first pair with the key. */
  function Get(ps: seq<Pair>, key: string): (r: Option<string>)
    ensures r.None? <==> forall p :: p in ps ==> p.0 != key
    ensures r.Some? ==> (key, r.value) in ps
  {
    if ps == [] then None
    else if ps[0].0 == key then Some(ps[0].1)
    else
      assert forall p :: p in ps ==> p == ps[0] || p in ps[1..];
      Get(ps[1..], key)
  }

  function KeyIsNot(key: string): Pair -> bool {
    (p: Pair) => p.0 != key
  }

  /** `params.delete(key)`: every pair with the key goes, the rest keep their order. */
  function Delete(ps: seq<Pair>, key: string): (r: seq<Pair>)
    ensures forall p :: p in r <==> p in ps && p.0 != key
    ensures Seqs.IsSubseq(r, ps)
  {
    Seqs.FilterIsSubseq(ps, KeyIsNot(key));
    forall p ensures p in Seqs.Filter(ps, KeyIsNot(key)) <==> p in ps && p.0 != key {
      Seqs.FilterMembership(ps, KeyIsNot(key), p);
    }
    Seqs.Filter(ps, KeyIsNot(key))
  }

  /**
   * `params.set(key, value)`: the first pair with the key takes the value and the later ones go;
   * without such a pair, one is appended.
   */
  function Set(ps: seq<Pair>, key: string, value: string): (r: seq<Pair>)
    ensures forall p: Pair :: p.0 != key ==> (p in r <==> p in ps)
    ensures (key, value) in r
    ensures forall i :: 0 <= i < |r| && r[i].0 == key ==> r[i].1 == value
    ensures forall i, j :: 0 <= i < j < |r| && r[i].0 == key ==> r[j].0 != key
    ensures Delete(r, key) == Delete(ps, key)
  {
    if ps == [] then
      assert Delete([(key, value)], key) == [];
      [(key, value)]
    else if ps[0].0 == key then
      SetOnMatchingHead(ps, key, value);
      [(key, value)] + Delete(ps[1..], key)
    else
      var rest := Set(ps[1..], key, value);
      SetOnOtherHead(ps, key, value, rest);
      [ps[0]] + rest
  }

  /** The pairs `set` leaves behind: the ones already there without the key, and the key once with the value. */
  ghost predicate SetsKey(r: seq<Pair>, ps: seq<Pair>, key: string, value: string) {
    && (forall p: Pair :: p.0 != key ==> (p in r <==> p in ps))
    && (key, value) in r
    && (forall i :: 0 <= i < |r| && r[i].0 == key ==> r[i].1 == value)
    && (forall i, j :: 0 <= i < j < |r| && r[i].0 == key ==> r[j].0 != key)
    && Delete(r, key) == Delete(ps, key)
  }

  /** Deleting a key from a list with a head: the head stays unless it has that key. */
  lemma DeleteCons(p: Pair, rest: seq<Pair>, key: string)
    ensures Delete([p] + rest, key) == (if p.0 != key then [p] else []) + Delete(rest, key)
  {
    assert ([p] + rest)[1..] == rest;
  }

  /** The first pair has the key: it takes the value and the later pairs with the key go. */
  lemma SetOnMatchingHead(ps: seq<Pair>, key: string, value: string)
    requires ps != [] && ps[0].0 == key
    ensures SetsKey([(key, value)] + Delete(ps[1..], key), ps, key, value)
  {
    MatchingHeadPairs(ps, key, value);
    var rest := Delete(ps[1..], key);
    DeleteCons((key, value), rest, key);
    DeleteCons(ps[0], ps[1..], key);
    Seqs.FilterIdempotent(ps[1..], KeyIsNot(key));
  }

  /** The pairs of the list `set` builds when the first pair has the key. */
  lemma MatchingHeadPairs(ps: seq<Pair>, key: string, value: string)
    requires ps != [] && ps[0].0 == key
    ensures var r := [(key, value)] + Delete(ps[1..], key);
      && (forall p: Pair :: p.0 != key ==> (p in r <==> p in ps))
      && (forall i :: 0 < i < |r| ==> r[i].0 != key)
  {
    var rest := Delete(ps[1..], key);
    var r := [(key, value)] + rest;
    assert ps == [ps[0]] + ps[1..];
    forall i | 0 < i < |r| ensures r[i].0 != key {
      assert r[i] == rest[i - 1] && rest[i - 1] in rest;
    }
  }

  /** The first pair has another key: it stays in front of `set` on the rest. */
  lemma SetOnOtherHead(ps: seq<Pair>, key: string, value: string, rest: seq<Pair>)
    requires ps != [] && ps[0].0 != key
    requires SetsKey(rest, ps[1..], key, value)
    ensures SetsKey([ps[0]] + rest, ps, key, value)
  {
    var r := [ps[0]] + rest;
    assert ps == [ps[0]] + ps[1..];
    assert forall p :: p in ps ==> p == ps[0] || p in ps[1..];
    assert forall j :: 1 <= j < |r| ==> r[j] == rest[j - 1];
    DeleteCons(ps[0], rest, key);
    DeleteCons(ps[0], ps[1..], key);
  }

  /**
   * The parameters `updateFilters(key, value)` navigates with: a non-empty value is set and, for
   * a filter key, the other two filter keys are dropped; an empty value deletes the key.
   */
  function Updated(ps: seq<Pair>, key: string, value: string): (r: seq<Pair>)
    ensures forall p :: p in r ==> p in ps || p == (key, value)
    ensures value == "" ==> Get(r, key).None?
  {
    var step := if value != "" then Set(ps, key, value) else Delete(ps, key);
    if key == QUERY && value != "" then Delete(Delete(step, GENRE), STATUS)
    else if key == GENRE && value != "" then Delete(Delete(step, QUERY), STATUS)
    else if key == STATUS && value != "" then Delete(Delete(step, QUERY), GENRE)
    else step
  }

  /** `params.toString()` without percent-encoding: `k=v` pairs joined by `&`. */
  function Serialize(ps: seq<Pair>): (r: string)
    ensures r == "" <==> ps == []
  {
    if ps == [] then ""
    else if |ps| == 1 then ps[0].0 + "=" + ps[0].1
    else ps[0].0 + "=" + ps[0].1 + "&" + Serialize(ps[1..])
  }

  /** A URL search-parameter list that `set` and `delete` change in place. */
  class SearchParams {
    var pairs: seq<Pair>

    constructor(init: seq<Pair>)
      ensures pairs == init
    {
      pairs := init;
    }

    method SetParam(key: string, value: string)
      modifies this
      ensures pairs == Set(old(pairs), key, value)
    {
      pairs := Set(pairs, key, value);
    }

    method DeleteParam(key: string)
      modifies this
      ensures pairs == Delete(old(pairs), key)
    {
      pairs := Delete(pairs, key);
    }
  }

  /** `updateFilters(key, value)`: the path it navigates to. */
  method UpdateFilters(current: seq<Pair>, key: string, value: string) returns (target: string)
    ensures target == LIBRARY_PATH + "?" + Serialize(Updated(current, key, value))
  {
    var params := new SearchParams(current);
    if value != "" {
      params.SetParam(key, value);
    } else {
      params.DeleteParam(key);
    }
    if key == QUERY && value != "" {
      params.DeleteParam(GENRE);
      params.DeleteParam(STATUS);
    } else if key == GENRE && value != "" {
      params.DeleteParam(QUERY);
      params.DeleteParam(STATUS);
    } else if key == STATUS && value != "" {
      params.DeleteParam(QUERY);
      params.DeleteParam(GENRE);
    }
    target := LIBRARY_PATH + "?" + Serialize(params.pairs);
  }

  /**
   * Choosing a filter: the chosen key holds the value and the other two filter keys are gone,
   * so exactly one filter remains; other parameters are kept.
   */
  lemma SettingAFilterClearsOthers(ps: seq<Pair>, key: string, value: string)
    requires IsFilterKey(key) && value != ""
    ensures var r := Updated(ps, key, value);
      && Get(r, key) == Some(value)
      && (forall p :: p in r && IsFilterKey(p.0) ==> p.0 == key)
      && (forall p: Pair :: !IsFilterKey(p.0) ==> (p in r <==> p in ps))
  {
    var s := Set(ps, key, value);
    var r := Updated(ps, key, value);
    assert (key, value) in r;
    var g := Get(r, key);
    assert g.Some?;
    assert (key, g.value) in r;
    assert (key, g.value) in s;
    var i :| 0 <= i < |s| && s[i] == (key, g.value);
  }

  /** Clearing a field deletes its key and touches no other parameter. */
  lemma ClearingAFieldKeepsOthers(ps: seq<Pair>, key: string)
    ensures var r := Updated(ps, key, "");
      && Get(r, key).None?
      && forall p: Pair :: p.0 != key ==> (p in r <==> p in ps)
  {
  }

  /** Setting a parameter that is not a filter keeps every other parameter. */
  lemma OtherKeysKept(ps: seq<Pair>, key: string, value: string)
    requires !IsFilterKey(key) && value != ""
    ensures var r := Updated(ps, key, value);
      && Get(r, key) == Some(value)
      && forall p: Pair :: p.0 != key ==> (p in r <==> p in ps)
  {
    var r := Updated(ps, key, value);
    assert (key, value) in r;
    var g := Get(r, key);
    assert (key, g.value) in r;
    var i :| 0 <= i < |r| && r[i] == (key, g.value);
  }

  /** The three values the bar shows, with their fallbacks. */
  datatype Shown = Shown(query: string, genre: string, status: string)

  /** `searchParams.get(k) || fallback` */
  function OrDefault(v: Option<string>, fallback: string): (r: string)
    ensures v.Some? && v.value != "" ==> r == v.value
    ensures !(v.Some? && v.value != "") ==> r == fallback
    ensures r != "" || fallback == ""
  {
    if v.Some? && v.value != "" then v.value else fallback
  }

  function Read(ps: seq<Pair>): (r: Shown)
    ensures Get(ps, QUERY).None? ==> r.query == ""
    ensures Get(ps, GENRE).None? ==> r.genre == ALL
    ensures Get(ps, STATUS).None? ==> r.status == ALL
    ensures Get(ps, QUERY).Some? && Get(ps, QUERY).value != "" ==> r.query == Get(ps, QUERY).value
    ensures Get(ps, GENRE).Some? && Get(ps, GENRE).value != "" ==> r.genre == Get(ps, GENRE).value
    ensures Get(ps, STATUS).Some? && Get(ps, STATUS).value != "" ==> r.status == Get(ps, STATUS).value
  {
    Shown(OrDefault(Get(ps, QUERY), ""), OrDefault(Get(ps, GENRE), ALL), OrDefault(Get(ps, STATUS), ALL))
  }

  /** `hasActiveFilters` */
  predicate HasActiveFilters(s: Shown)
    ensures HasActiveFilters(s) <==> s != Shown("", ALL, ALL)
  {
    s.query != "" || s.genre != ALL || s.status != ALL
  }

  /** A navigation target: a path and the search parameters it carries. */
  datatype Location = Location(path: string, params: seq<Pair>)

  /**
   * `clearFilters`: the library page with no search parameters, so the bar reads its defaults
   * and no filter is active.
   */
  function ClearFilters(): (r: Location)
    ensures r.path == LIBRARY_PATH
    ensures Read(r.params) == Shown("", ALL, ALL) && !HasActiveFilters(Read(r.params))
  {
    Location(LIBRARY_PATH, [])
  }

  /**
   * Clearing the three fields one by one through `updateFilters` shows the same bar as
   * `clearFilters`, whatever the parameters were.
   */
  lemma ClearingEachFieldIsClearFilters(ps: seq<Pair>)
    ensures Read(Updated(Updated(Updated(ps, QUERY, ""), GENRE, ""), STATUS, "")) == Read(ClearFilters().params)
  {
    var a := Updated(ps, QUERY, "");
    var b := Updated(a, GENRE, "");
    var c := Updated(b, STATUS, "");
    ClearingAFieldKeepsOthers(ps, QUERY);
    ClearingAFieldKeepsOthers(a, GENRE);
    ClearingAFieldKeepsOthers(b, STATUS);
    assert Get(c, QUERY).None? by {
      forall p | p in c ensures p.0 != QUERY {
        assert p in b && p in a;
      }
    }
    assert Get(c, GENRE).None? by {
      forall p | p in c ensures p.0 != GENRE {
        assert p in b;
      }
    }
  }

  /** Without filter parameters nothing is active, as after `clearFilters`. */
  lemma NoParamsNoFilters(ps: seq<Pair>)
    requires forall p :: p in ps ==> !IsFilterKey(p.0)
    ensures !HasActiveFilters(Read(ps))
  {
  }
}
