/** Python's stable `sorted`, as an insertion sort, and what the two sort directions have in common. */
module Sorting {

  function Insert<T>(x: T, s: seq<T>, key: T -> int): seq<T> {
    if s == [] || key(x) <= key(s[0]) then [x] + s else [s[0]] + Insert(x, s[1..], key)
  }

  /** `sorted(s, key=key)`: ascending, equal keys keep their input order.  With a negated key this is
      `sorted(s, key=key, reverse=True)`, which is stable as well. */
  function SortBy<T>(s: seq<T>, key: T -> int): seq<T> {
    if s == [] then [] else Insert(s[0], SortBy(s[1..], key), key)
  }

  function Filter<T>(s: seq<T>, p: T -> bool): seq<T> {
    if s == [] then []
    else if p(s[0]) then [s[0]] + Filter(s[1..], p)
    else Filter(s[1..], p)
  }

  ghost predicate Sorted<T>(s: seq<T>, key: T -> int) {
    forall i, j | 0 <= i < j < |s| :: key(s[i]) <= key(s[j])
  }

  ghost predicate DistinctKeys<T>(s: seq<T>, key: T -> int) {
    forall i, j | 0 <= i < j < |s| :: key(s[i]) != key(s[j])
  }

  /** Among the elements with the least key, the one listed first. */
  function FirstLeast<T>(s: seq<T>, key: T -> int): T
    requires s != []
  {
    if |s| == 1 then s[0]
    else var rest := FirstLeast(s[1..], key); if key(s[0]) <= key(rest) then s[0] else rest
  }

  /** Among the elements with the greatest key, the one listed last. */
  function LastGreatest<T>(s: seq<T>, key: T -> int): T
    requires s != []
  {
    if |s| == 1 then s[0]
    else var rest := LastGreatest(s[1..], key); if key(s[0]) > key(rest) then s[0] else rest
  }

  lemma {:induction false} InsertContents<T>(x: T, s: seq<T>, key: T -> int)
    ensures multiset(Insert(x, s, key)) == multiset(s) + multiset{x}
  {
    if s != [] && key(x) > key(s[0]) {
      InsertContents(x, s[1..], key);
      assert s == [s[0]] + s[1..];
    }
  }

  lemma {:induction false} InsertSorted<T>(x: T, s: seq<T>, key: T -> int)
    requires Sorted(s, key)
    ensures Sorted(Insert(x, s, key), key)
  {
    if s != [] && key(x) > key(s[0]) {
      var tail := Insert(x, s[1..], key);
      InsertSorted(x, s[1..], key);
      forall i | 0 <= i < |tail| ensures key(s[0]) <= key(tail[i]) {
        InsertContents(x, s[1..], key);
        assert tail[i] in multiset(tail);
        assert tail[i] == x || tail[i] in s[1..];
      }
    }
  }

  lemma {:induction false} SortByIsSort<T>(s: seq<T>, key: T -> int)
    ensures Sorted(SortBy(s, key), key)
    ensures multiset(SortBy(s, key)) == multiset(s)
    ensures |SortBy(s, key)| == |s|
  {
    if s == [] {
    } else {
      SortByIsSort(s[1..], key);
      InsertSorted(s[0], SortBy(s[1..], key), key);
      InsertContents(s[0], SortBy(s[1..], key), key);
      assert s == [s[0]] + s[1..];
      assert |multiset(SortBy(s, key))| == |multiset(s)|;
    }
  }

  lemma SortIsSorted<T>(s: seq<T>, key: T -> int)
    ensures Sorted(SortBy(s, key), key)
  {
    SortByIsSort(s, key);
  }

  lemma TailContents<T>(s: seq<T>)
    requires s != []
    ensures multiset(s[1..]) == multiset(s) - multiset{s[0]} && s == [s[0]] + s[1..]
  {
    assert s == [s[0]] + s[1..];
  }

  lemma TailKeys<T>(s: seq<T>, key: T -> int)
    requires s != []
    ensures Sorted(s, key) ==> Sorted(s[1..], key)
    ensures DistinctKeys(s, key) ==> DistinctKeys(s[1..], key)
  {
  }

  lemma SameSize<T>(a: seq<T>, b: seq<T>)
    requires multiset(a) == multiset(b)
    ensures |a| == |b|
  {
    assert |multiset(a)| == |a|;
  }

  /** With distinct keys a multiset has one sorted arrangement only. */
  lemma {:induction false} SortedUnique<T>(a: seq<T>, b: seq<T>, key: T -> int)
    requires Sorted(a, key) && Sorted(b, key) && DistinctKeys(a, key)
    requires multiset(a) == multiset(b)
    ensures a == b
  {
    SameSize(a, b);
    if a == [] {
    } else {
      SameHead(a, b, key);
      TailContents(a);
      TailContents(b);
      TailKeys(a, key);
      TailKeys(b, key);
      SortedUnique(a[1..], b[1..], key);
    }
  }

  lemma SameHead<T>(a: seq<T>, b: seq<T>, key: T -> int)
    requires a != [] && b != []
    requires Sorted(a, key) && Sorted(b, key) && DistinctKeys(a, key)
    requires multiset(a) == multiset(b)
    ensures a[0] == b[0]
  {
    assert b[0] in multiset(a) && a[0] in multiset(b);
    var i :| 0 <= i < |a| && a[i] == b[0];
    var j :| 0 <= j < |b| && b[j] == a[0];
    assert key(b[0]) <= key(b[j]);
    assert key(a[0]) <= key(a[i]);
  }

  /** Distinctness of keys does not depend on the order of the list. */
  lemma DistinctPermutation<T>(a: seq<T>, b: seq<T>, key: T -> int)
    requires DistinctKeys(a, key) && multiset(a) == multiset(b)
    ensures DistinctKeys(b, key)
  {
    forall i, j | 0 <= i < j < |b| ensures key(b[i]) != key(b[j]) {
      DistinctOccursOnce(a, b[i], key);
      assert b == b[..j] + [b[j]] + b[j+1..];
      assert b[i] in b[..j];
      if key(b[i]) == key(b[j]) {
        assert b[i] in multiset(a) && b[j] in multiset(a);
        SameKeySameElement(a, b[i], b[j], key);
        assert false;
      }
    }
  }

  lemma SameKeySameElement<T>(a: seq<T>, x: T, y: T, key: T -> int)
    requires DistinctKeys(a, key) && x in a && y in a && key(x) == key(y)
    ensures x == y
  {
  }

  lemma {:induction false} DistinctOccursOnce<T>(a: seq<T>, x: T, key: T -> int)
    requires DistinctKeys(a, key)
    ensures multiset(a)[x] <= 1
  {
    if a == [] {
    } else {
      DistinctOccursOnce(a[1..], x, key);
      assert a == [a[0]] + a[1..];
      if a[0] == x {
        assert x !in a[1..];
      }
    }
  }

  /** Sorting after filtering and filtering after sorting give the same list, ties included. */
  lemma {:induction false} FilterInsert<T>(x: T, s: seq<T>, key: T -> int, p: T -> bool)
    requires Sorted(s, key)
    ensures Filter(Insert(x, s, key), p) == if p(x) then Insert(x, Filter(s, p), key) else Filter(s, p)
  {
    if s == [] {
    } else if key(x) <= key(s[0]) {
      FilterBelow(s, key, p, key(x));
      assert ([x] + s)[1..] == s;
    } else {
      FilterInsert(x, s[1..], key, p);
      assert ([s[0]] + Insert(x, s[1..], key))[1..] == Insert(x, s[1..], key);
      var r := [s[0]] + Insert(x, s[1..], key);
      assert r[0] == s[0] && r[1..] == Insert(x, s[1..], key);
      if p(s[0]) {
        assert Filter(s, p) == [s[0]] + Filter(s[1..], p);
        assert Filter(s, p)[1..] == Filter(s[1..], p);
      }
    }
  }

  lemma {:induction false} FilterBelow<T>(s: seq<T>, key: T -> int, p: T -> bool, bound: int)
    requires forall i | 0 <= i < |s| :: bound <= key(s[i])
    ensures forall i | 0 <= i < |Filter(s, p)| :: bound <= key(Filter(s, p)[i])
  {
    if s == [] {
    } else {
      FilterBelow(s[1..], key, p, bound);
    }
  }

  lemma {:induction false} FilterSort<T>(s: seq<T>, key: T -> int, p: T -> bool)
    ensures Filter(SortBy(s, key), p) == SortBy(Filter(s, p), key)
  {
    if s == [] {
    } else {
      FilterSort(s[1..], key, p);
      SortByIsSort(s[1..], key);
      FilterInsert(s[0], SortBy(s[1..], key), key, p);
      if p(s[0]) {
        var r := [s[0]] + Filter(s[1..], p);
        assert r[0] == s[0] && r[1..] == Filter(s[1..], p);
      }
    }
  }

  lemma {:induction false} SortOfSorted<T>(s: seq<T>, key: T -> int)
    requires Sorted(s, key)
    ensures SortBy(s, key) == s
  {
    if s == [] {
    } else {
      SortOfSorted(s[1..], key);
    }
  }

  lemma {:induction false} FilterContents<T>(s: seq<T>, p: T -> bool)
    ensures forall x :: x in Filter(s, p) <==> x in s && p(x)
  {
    if s == [] {
    } else {
      FilterContents(s[1..], p);
    }
  }

  lemma {:induction false} FilterAll<T>(s: seq<T>, p: T -> bool)
    requires forall x :: x in s ==> p(x)
    ensures Filter(s, p) == s
  {
    if s == [] {
    } else {
      FilterAll(s[1..], p);
    }
  }

  lemma {:induction false} FilterAppend<T>(a: seq<T>, b: seq<T>, p: T -> bool)
    ensures Filter(a + b, p) == Filter(a, p) + Filter(b, p)
  {
    if a == [] {
      assert a + b == b;
    } else {
      FilterAppend(a[1..], b, p);
      assert (a + b)[0] == a[0] && (a + b)[1..] == a[1..] + b;
    }
  }

  /** The head of a stable ascending sort is the first-listed least element. */
  lemma {:induction false} HeadOfSort<T>(s: seq<T>, key: T -> int)
    requires s != []
    ensures SortBy(s, key) != [] && SortBy(s, key)[0] == FirstLeast(s, key)
  {
    if |s| > 1 {
      HeadOfSort(s[1..], key);
    } else {
      assert s[1..] == [];
    }
  }

  lemma {:induction false} LastOfInsert<T>(x: T, s: seq<T>, key: T -> int)
    requires Sorted(s, key) && s != []
    ensures var r := Insert(x, s, key); r != [] && r[|r| - 1] == if key(x) <= key(s[|s| - 1]) then s[|s| - 1] else x
  {
    if key(x) > key(s[0]) && |s| > 1 {
      LastOfInsert(x, s[1..], key);
    }
  }

  /** The last element of a stable ascending sort is the last-listed greatest element. */
  lemma {:induction false} LastOfSort<T>(s: seq<T>, key: T -> int)
    requires s != []
    ensures SortBy(s, key) != [] && SortBy(s, key)[|SortBy(s, key)| - 1] == LastGreatest(s, key)
  {
    if |s| == 1 {
      assert s[1..] == [];
    } else {
      var tail := SortBy(s[1..], key);
      LastOfSort(s[1..], key);
      SortIsSorted(s[1..], key);
      LastOfInsert(s[0], tail, key);
      assert SortBy(s, key) == Insert(s[0], tail, key);
    }
  }

  ghost predicate Below<T(!new)>(a: seq<T>, b: seq<T>, key: T -> int) {
    forall x, y :: x in a && y in b ==> key(x) < key(y)
  }

  lemma SortedConcat<T(!new)>(x: seq<T>, y: seq<T>, key: T -> int)
    requires Sorted(x, key) && Sorted(y, key) && Below(x, y, key)
    ensures Sorted(x + y, key)
  {
    forall i, j | 0 <= i < j < |x + y| ensures key((x + y)[i]) <= key((x + y)[j]) {
      if i < |x| <= j {
        assert x[i] in x && y[j - |x|] in y;
      }
    }
  }

  lemma SortKeepsMembers<T>(s: seq<T>, key: T -> int)
    ensures |SortBy(s, key)| == |s|
    ensures forall x :: x in SortBy(s, key) <==> x in s
  {
    SortByIsSort(s, key);
    forall x ensures x in SortBy(s, key) <==> x in s {
      assert x in SortBy(s, key) <==> x in multiset(SortBy(s, key));
      assert x in s <==> x in multiset(s);
    }
  }

  lemma BelowAfterSort<T(!new)>(a: seq<T>, b: seq<T>, key: T -> int)
    requires Below(a, b, key)
    ensures Below(SortBy(a, key), SortBy(b, key), key)
  {
    SortKeepsMembers(a, key);
    SortKeepsMembers(b, key);
  }

  lemma SortContents<T>(s: seq<T>, key: T -> int)
    ensures multiset(SortBy(s, key)) == multiset(s) && |SortBy(s, key)| == |s|
  {
    SortByIsSort(s, key);
  }

  /** Sorting a list whose first part lies below the rest sorts the two parts. */
  lemma SortOfParts<T(!new)>(a: seq<T>, b: seq<T>, all: seq<T>, key: T -> int)
    requires DistinctKeys(all, key) && multiset(all) == multiset(a) + multiset(b) && Below(a, b, key)
    ensures |SortBy(a, key)| == |a| <= |SortBy(all, key)|
    ensures SortBy(all, key)[..|a|] == SortBy(a, key)
  {
    var x, y := SortBy(a, key), SortBy(b, key);
    BelowAfterSort(a, b, key);
    SortIsSorted(a, key);
    SortIsSorted(b, key);
    SortedConcat(x, y, key);
    SortContents(a, key);
    SortContents(b, key);
    SortContents(all, key);
    SortIsSorted(all, key);
    DistinctPermutation(all, x + y, key);
    SortedUnique(x + y, SortBy(all, key), key);
  }

  /** As many distinct elements as there are places fill all of them. */
  lemma SubsetFills<T>(a: seq<T>, b: seq<T>, key: T -> int)
    requires DistinctKeys(a, key) && |a| == |b| && forall x :: x in a ==> x in b
    ensures forall x :: x in b ==> x in a
  {
    forall x ensures multiset(a)[x] <= multiset(b)[x] {
      DistinctOccursOnce(a, x, key);
      if x in multiset(a) {
        assert x in a && x in b;
      }
    }
    assert multiset(a) <= multiset(b);
    assert |multiset(b) - multiset(a)| == |multiset(b)| - |multiset(a)| == 0;
    assert multiset(b) == multiset(a) + (multiset(b) - multiset(a));
    forall x | x in b ensures x in a {
      assert x in multiset(b);
    }
  }
}
