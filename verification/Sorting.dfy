/** Directory listings: sets of names put in ascending order. */
module Sorting {

  /** The order of file names. */
  predicate NameBefore(a: string, b: string)
    decreases |a|
  {
    if a == [] || b == [] then a == [] && b != []
    else a[0] < b[0] || (a[0] == b[0] && NameBefore(a[1..], b[1..]))
  }

  lemma {:induction false} NamesOrdered(a: string, b: string)
    ensures NameBefore(a, b) || a == b || NameBefore(b, a)
    ensures !(NameBefore(a, b) && NameBefore(b, a)) && !NameBefore(a, a)
    decreases |a|
  {
    if a != [] {
      NamesOrdered(a[1..], a[1..]);
      if b != [] && a[0] == b[0] {
        NamesOrdered(a[1..], b[1..]);
        assert a == [a[0]] + a[1..] && b == [b[0]] + b[1..];
      }
    }
  }

  lemma {:induction false} NamesTransitive(a: string, b: string, c: string)
    requires NameBefore(a, b) && NameBefore(b, c)
    ensures NameBefore(a, c)
    decreases |a|
  {
    if a != [] && a[0] == b[0] && b[0] == c[0] {
      NamesTransitive(a[1..], b[1..], c[1..]);
    }
  }

  ghost predicate StrictOrder<T(!new)>(less: (T, T) -> bool) {
    && (forall a, b :: less(a, b) || a == b || less(b, a))
    && (forall a, b :: less(a, b) ==> !less(b, a))
    && (forall a, b, c :: less(a, b) && less(b, c) ==> less(a, c))
  }

  ghost predicate Ascending<T>(s: seq<T>, less: (T, T) -> bool) {
    forall i, j :: 0 <= i < j < |s| ==> less(s[i], s[j])
  }

  lemma AscendingAt<T>(s: seq<T>, less: (T, T) -> bool, i: nat, j: nat)
    requires Ascending(s, less) && i < j < |s|
    ensures less(s[i], s[j])
  {
  }

  function InsertInOrder<T>(s: seq<T>, x: T, less: (T, T) -> bool): seq<T> {
    if s == [] || less(x, s[0]) then [x] + s else [s[0]] + InsertInOrder(s[1..], x, less)
  }

  lemma {:induction false} InsertKeepsOrder<T(!new)>(s: seq<T>, x: T, less: (T, T) -> bool)
    requires StrictOrder(less) && Ascending(s, less) && x !in s
    ensures Ascending(InsertInOrder(s, x, less), less)
    ensures forall y :: y in InsertInOrder(s, x, less) <==> y == x || y in s
  {
    if s != [] && !less(x, s[0]) {
      var rest := InsertInOrder(s[1..], x, less);
      InsertKeepsOrder(s[1..], x, less);
      assert s == [s[0]] + s[1..];
      forall y | y in rest ensures less(s[0], y) {
        if y in s[1..] {
          var i :| 0 <= i < |s[1..]| && s[1..][i] == y;
          assert less(s[0], s[i + 1]);
        }
      }
    }
  }

  /** `sorted` of a directory's entries. */
  method SortedEntries<T(!new,==)>(entries: set<T>, less: (T, T) -> bool) returns (s: seq<T>)
    requires StrictOrder(less)
    ensures Ascending(s, less) && forall x :: x in s <==> x in entries
  {
    hide StrictOrder, Ascending, InsertInOrder;
    s := [];
    var left := entries;
    assert Ascending(s, less) by { NothingOutOfOrder(less); }
    while left != {}
      invariant left <= entries && Ascending(s, less)
      invariant forall x :: x in s <==> x in entries && x !in left
      decreases |left|
    {
      var x :| x in left;
      InsertKeepsOrder(s, x, less);
      s := InsertInOrder(s, x, less);
      left := left - {x};
    }
  }

  lemma NothingOutOfOrder<T>(less: (T, T) -> bool)
    ensures Ascending([], less)
  {
  }

  /** Two ascending lists with the same entries are the same list. */
  lemma {:induction false} AscendingIsUnique<T(!new)>(a: seq<T>, b: seq<T>, less: (T, T) -> bool)
    requires StrictOrder(less) && Ascending(a, less) && Ascending(b, less)
    requires forall x :: x in a <==> x in b
    ensures a == b
    decreases |a|
  {
    assert a != [] ==> a[0] in a;
    assert b != [] ==> b[0] in b;
    if a != [] {
      assert a[0] in b && b[0] in a;
      assert a[0] == b[0];
      forall x ensures x in a[1..] <==> x in b[1..] {
        TailMembers(a, x, less);
        TailMembers(b, x, less);
      }
      AscendingIsUnique(a[1..], b[1..], less);
    }
  }

  lemma TailMembers<T(!new)>(s: seq<T>, x: T, less: (T, T) -> bool)
    requires StrictOrder(less) && Ascending(s, less) && s != []
    ensures x in s[1..] <==> x in s && x != s[0]
  {
  }
}
