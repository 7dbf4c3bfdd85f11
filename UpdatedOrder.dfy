/**
 * Ordering books by `updatedAt`, newest first, as the comparator
 * `(a, b) => time(b.updatedAt) - time(a.updatedAt)` of components/recent-books.tsx and
 * app/page.tsx does. The order is given by a stable insertion sort; the sort the runtime uses
 * is only ever observed through the facts proved here.
 */
module UpdatedOrder {
  import opened Books
  import Seqs

  /** Non-increasing `updatedAt`. */
  predicate SortedDesc(s: seq<Book>) {
    forall i, j :: 0 <= i < j < |s| ==> s[j].updatedAt <= s[i].updatedAt
  }

  /** `b` placed before the first element that is not newer than it. */
  function Insert(b: Book, s: seq<Book>): (r: seq<Book>)
    ensures |r| == |s| + 1
    ensures multiset(r) == multiset(s) + multiset{b}
    decreases |s|
  {
    if s == [] || s[0].updatedAt <= b.updatedAt then [b] + s
    else
      assert s == [s[0]] + s[1..];
      [s[0]] + Insert(b, s[1..])
  }

  /** The list ordered newest first. */
  function SortByUpdatedDesc(s: seq<Book>): (r: seq<Book>)
    ensures |r| == |s|
    ensures multiset(r) == multiset(s)
  {
    if s == [] then []
    else
      assert s == [s[0]] + s[1..];
      Insert(s[0], SortByUpdatedDesc(s[1..]))
  }

  /** Inserting into a newest-first list keeps it newest first. */
  lemma {:induction false} InsertSorted(b: Book, s: seq<Book>)
    requires SortedDesc(s)
    ensures SortedDesc(Insert(b, s))
    decreases |s|
  {
    if s != [] && b.updatedAt < s[0].updatedAt {
      var t := Insert(b, s[1..]);
      InsertSorted(b, s[1..]);
      forall k | 0 <= k < |t| ensures t[k].updatedAt <= s[0].updatedAt {
        assert t[k] in multiset(t);
        assert t[k] == b || t[k] in multiset(s[1..]);
        if t[k] != b {
          var m :| 0 <= m < |s[1..]| && s[1..][m] == t[k];
          assert s[m + 1] == t[k];
        }
      }
    }
  }

  /** The sort yields a newest-first list. */
  lemma {:induction false} SortSorted(s: seq<Book>)
    ensures SortedDesc(SortByUpdatedDesc(s))
    decreases |s|
  {
    if s != [] {
      SortSorted(s[1..]);
      InsertSorted(s[0], SortByUpdatedDesc(s[1..]));
    }
  }

  /** A list already newest first is left as it is (ties keep their order). */
  lemma {:induction false} SortKeepsSorted(s: seq<Book>)
    requires SortedDesc(s)
    ensures SortByUpdatedDesc(s) == s
    decreases |s|
  {
    if s != [] {
      assert SortedDesc(s[1..]);
      SortKeepsSorted(s[1..]);
      if |s| > 1 {
        assert s[1].updatedAt <= s[0].updatedAt;
      }
      assert s == [s[0]] + s[1..];
    }
  }

  /** The books stamped at time `t`. */
  function UpdatedAt(t: Time): Book -> bool {
    (b: Book) => b.updatedAt == t
  }

  /**
   * Inserting `b` passes only books newer than it, so among the books of any one timestamp `b`
   * comes first when it has that timestamp, and the others keep their order.
   */
  lemma {:induction false} InsertKeepsTies(b: Book, s: seq<Book>, t: Time)
    ensures Seqs.Filter(Insert(b, s), UpdatedAt(t))
         == (if b.updatedAt == t then [b] else []) + Seqs.Filter(s, UpdatedAt(t))
    decreases |s|
  {
    if s == [] || s[0].updatedAt <= b.updatedAt {
      Seqs.FilterCons(b, s, UpdatedAt(t));
    } else {
      InsertKeepsTies(b, s[1..], t);
      Seqs.FilterCons(s[0], Insert(b, s[1..]), UpdatedAt(t));
      Seqs.FilterCons(s[0], s[1..], UpdatedAt(t));
      assert s == [s[0]] + s[1..];
    }
  }

  /**
   * The sort is stable: the books with any one `updatedAt` appear in the result in the same
   * order as in the input.
   */
  lemma {:induction false} SortKeepsTies(s: seq<Book>, t: Time)
    ensures Seqs.Filter(SortByUpdatedDesc(s), UpdatedAt(t)) == Seqs.Filter(s, UpdatedAt(t))
    decreases |s|
  {
    if s != [] {
      SortKeepsTies(s[1..], t);
      InsertKeepsTies(s[0], SortByUpdatedDesc(s[1..]), t);
    }
  }

  /**
   * `sort(...).slice(0, n)`: at most `n` books, newest first, all from the input, and none of
   * the books left out is newer than any book selected.
   */
  lemma Newest(s: seq<Book>, n: nat)
    ensures var r := Seqs.Take(SortByUpdatedDesc(s), n);
      && |r| == Seqs.Min(n, |s|)
      && SortedDesc(r)
      && multiset(r) <= multiset(s)
      && forall i, j :: 0 <= i < |r| <= j < |s| ==> SortByUpdatedDesc(s)[j].updatedAt <= r[i].updatedAt
  {
    var sorted := SortByUpdatedDesc(s);
    SortSorted(s);
    var r := Seqs.Take(sorted, n);
    assert r == sorted[..|r|];
    assert sorted == r + sorted[|r|..];
    assert multiset(sorted) == multiset(r) + multiset(sorted[|r|..]);
  }
}
