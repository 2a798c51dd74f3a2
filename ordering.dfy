/**
 * The database's ORDER BY, as pure functions on the ids of a table's rows.
 * SQL leaves the order of rows with equal keys open; so do the lemmas here: they state only that
 * the result is sorted and lists every row exactly once.
 */
module Ordering {

  /** SQLite's BINARY collation on text: code-point order, a proper prefix first. */
  predicate TextLe(a: string, b: string)
    decreases |a|
  {
    if a == [] then true
    else if b == [] then false
    else if a[0] != b[0] then a[0] < b[0]
    else TextLe(a[1..], b[1..])
  }

  lemma {:induction false} TextLeTotal(a: string, b: string)
    ensures TextLe(a, b) || TextLe(b, a)
    decreases |a|
  {
    if a != [] && b != [] && a[0] == b[0] {
      TextLeTotal(a[1..], b[1..]);
    }
  }

  lemma {:induction false} TextLeTransitive(a: string, b: string, c: string)
    requires TextLe(a, b) && TextLe(b, c)
    ensures TextLe(a, c)
    decreases |a|
  {
    if a != [] && b != [] && c != [] && a[0] == b[0] && b[0] == c[0] {
      TextLeTransitive(a[1..], b[1..], c[1..]);
    }
  }

  /** Every earlier element is `le` every later one. */
  predicate Sorted(s: seq<int>, le: (int, int) -> bool) {
    forall i, j :: 0 <= i < j < |s| ==> le(s[i], s[j])
  }

  /** What an ORDER BY comparison must be for sorting to make sense. */
  ghost predicate TotalPreorder(le: (int, int) -> bool) {
    && (forall a, b :: le(a, b) || le(b, a))
    && (forall a, b, c :: le(a, b) && le(b, c) ==> le(a, c))
  }

  /** Inserts `x` before the first element it is `le`. */
  function Insert(x: int, s: seq<int>, le: (int, int) -> bool): (r: seq<int>)
    ensures multiset(r) == multiset(s) + multiset{x}
  {
    if s == [] then [x]
    else if le(x, s[0]) then [x] + s
    else
      assert s == [s[0]] + s[1..];
      [s[0]] + Insert(x, s[1..], le)
  }

  /** Insertion sort. */
  function SortBy(s: seq<int>, le: (int, int) -> bool): (r: seq<int>)
    ensures multiset(r) == multiset(s)
  {
    if s == [] then []
    else
      assert s == [s[0]] + s[1..];
      Insert(s[0], SortBy(s[1..], le), le)
  }

  lemma Total(le: (int, int) -> bool, a: int, b: int)
    requires TotalPreorder(le)
    ensures le(a, b) || le(b, a)
  {
  }

  lemma Transitive(le: (int, int) -> bool, a: int, b: int, c: int)
    requires TotalPreorder(le) && le(a, b) && le(b, c)
    ensures le(a, c)
  {
  }

  lemma {:induction false} InsertSorted(x: int, s: seq<int>, le: (int, int) -> bool)
    requires TotalPreorder(le) && Sorted(s, le)
    ensures Sorted(Insert(x, s, le), le)
  {
    if s == [] {
    } else if le(x, s[0]) {
      var r := [x] + s;
      forall i, j | 0 <= i < j < |r| ensures le(r[i], r[j]) {
        if i > 0 {
          assert r[i] == s[i - 1] && r[j] == s[j - 1];
        } else if j > 1 {
          Transitive(le, x, s[0], s[j - 1]);
        }
      }
    } else {
      Total(le, x, s[0]);
      var t := Insert(x, s[1..], le);
      InsertSorted(x, s[1..], le);
      var r := [s[0]] + t;
      forall i, j | 0 <= i < j < |r| ensures le(r[i], r[j]) {
        if i == 0 {
          assert r[j] in multiset(t);
          assert r[j] in multiset(s[1..]) || r[j] == x;
          if r[j] != x {
            var k :| 1 <= k < |s| && s[k] == r[j];
          }
        } else {
          assert r[i] == t[i - 1] && r[j] == t[j - 1];
        }
      }
    }
  }

  lemma {:induction false} SortBySorted(s: seq<int>, le: (int, int) -> bool)
    requires TotalPreorder(le)
    ensures Sorted(SortBy(s, le), le)
  {
    if s != [] {
      SortBySorted(s[1..], le);
      InsertSorted(s[0], SortBy(s[1..], le), le);
    }
  }

  lemma HasElement(s: set<int>)
    requires s != {}
    ensures exists y :: y in s
  {
    if forall y :: y !in s {
      assert false;
    }
  }

  /** Some listing of a finite set, each element once. */
  ghost function SeqOf(s: set<int>): (r: seq<int>)
    ensures multiset(r) == multiset(s)
    decreases s
  {
    if s == {} then []
    else
      HasElement(s);
      var x :| x in s;
      assert s == (s - {x}) + {x};
      [x] + SeqOf(s - {x})
  }

  /** The ids of `s` in the order `ORDER BY le` returns them. */
  ghost function OrderBy(s: set<int>, le: (int, int) -> bool): (r: seq<int>)
    ensures multiset(r) == multiset(s)
    ensures TotalPreorder(le) ==> Sorted(r, le)
  {
    var q := SeqOf(s);
    if TotalPreorder(le) then SortBySorted(q, le); SortBy(q, le) else SortBy(q, le)
  }

  /** A listing with the same multiset as a set holds each element of the set exactly once. */
  lemma ListsSetOnce(r: seq<int>, s: set<int>)
    requires multiset(r) == multiset(s)
    ensures |r| == |s|
    ensures forall x :: x in r <==> x in s
    ensures forall i, j :: 0 <= i < j < |r| ==> r[i] != r[j]
  {
    assert |multiset(r)| == |r|;
    forall x ensures x in r <==> x in s {
      assert x in r <==> x in multiset(r);
    }
    forall i, j | 0 <= i < j < |r| ensures r[i] != r[j] {
      if r[i] == r[j] {
        Duplicate(r, i, j);
        assert false;
      }
    }
  }

  lemma Duplicate(r: seq<int>, i: int, j: int)
    requires 0 <= i < j < |r| && r[i] == r[j]
    ensures multiset(r)[r[i]] >= 2
  {
    var x := r[i];
    assert r == r[..i] + [x] + r[i + 1..j] + [x] + r[j + 1..];
  }
}
