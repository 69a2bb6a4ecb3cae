/**
 * Python's `sorted(xs, key=k)` and `xs.sort()` for an integer key.
 * Both are stable sorts; the model uses the stable insertion order: elements
 * are taken from left to right and each one is inserted after every element
 * already placed whose key is not larger than its own.
 */
module Sorting {

  ghost predicate SortedBy<T>(s: seq<T>, key: T -> int)
  {
    forall i, j :: 0 <= i < j < |s| ==> key(s[i]) <= key(s[j])
  }

  /** Inserts `x` into `s` in front of the first element whose key is larger. */
  function InsertBy<T>(x: T, s: seq<T>, key: T -> int): (r: seq<T>)
    ensures |r| == |s| + 1
    ensures x in r
  {
    if |s| == 0 then [x]
    else if key(x) < key(s[0]) then [x] + s
    else [s[0]] + InsertBy(x, s[1..], key)
  }

  /** The stably sorted permutation of `s`. */
  function SortBy<T>(s: seq<T>, key: T -> int): (r: seq<T>)
    ensures |r| == |s|
  {
    if |s| == 0 then []
    else InsertBy(s[|s| - 1], SortBy(s[..|s| - 1], key), key)
  }

  /** Inserting adds exactly `x`. */
  lemma {:induction false} InsertByPermutes<T>(x: T, s: seq<T>, key: T -> int)
    ensures multiset(InsertBy(x, s, key)) == multiset(s) + multiset{x}
  {
    if |s| > 0 && key(x) >= key(s[0]) {
      assert s == [s[0]] + s[1..];
      InsertByPermutes(x, s[1..], key);
    }
  }

  /** Inserting into a sorted sequence keeps it sorted. */
  lemma {:induction false} InsertBySorted<T>(x: T, s: seq<T>, key: T -> int)
    requires SortedBy(s, key)
    ensures SortedBy(InsertBy(x, s, key), key)
  {
    if |s| > 0 && key(x) >= key(s[0]) {
      var rest := InsertBy(x, s[1..], key);
      InsertBySorted(x, s[1..], key);
      InsertByPermutes(x, s[1..], key);
      forall i | 0 <= i < |rest| ensures key(s[0]) <= key(rest[i]) {
        assert rest[i] in multiset(s[1..]) + multiset{x};
      }
    }
  }

  /** The result is sorted by the key and is a permutation of the input. */
  lemma {:induction false} SortByCorrect<T>(s: seq<T>, key: T -> int)
    ensures |SortBy(s, key)| == |s|
    ensures multiset(SortBy(s, key)) == multiset(s)
    ensures SortedBy(SortBy(s, key), key)
  {
    if |s| > 0 {
      assert s == s[..|s| - 1] + [s[|s| - 1]];
      SortByCorrect(s[..|s| - 1], key);
      InsertByPermutes(s[|s| - 1], SortBy(s[..|s| - 1], key), key);
      InsertBySorted(s[|s| - 1], SortBy(s[..|s| - 1], key), key);
    }
  }

  /** Every element of the sorted sequence comes from the input, and conversely. */
  lemma SortByMembers<T>(s: seq<T>, key: T -> int, x: T)
    ensures x in SortBy(s, key) <==> x in s
  {
    SortByCorrect(s, key);
    var r := SortBy(s, key);
    assert x in r <==> x in multiset(r);
    assert x in s <==> x in multiset(s);
  }

  // ---------------------------------------------------------------------
  // Stability

  /** The elements of `s` whose key is `v`, in their order in `s`. */
  ghost function Filter<T>(s: seq<T>, key: T -> int, v: int): seq<T>
  {
    if |s| == 0 then []
    else (if key(s[0]) == v then [s[0]] else []) + Filter(s[1..], key, v)
  }

  lemma {:induction false} FilterAppend<T>(a: seq<T>, b: seq<T>, key: T -> int, v: int)
    ensures Filter(a + b, key, v) == Filter(a, key, v) + Filter(b, key, v)
  {
    if |a| == 0 {
      assert a + b == b;
    } else {
      assert a == [a[0]] + a[1..];
      assert a + b == [a[0]] + (a[1..] + b);
      FilterCons(a[0], a[1..] + b, key, v);
      FilterCons(a[0], a[1..], key, v);
      FilterAppend(a[1..], b, key, v);
    }
  }

  /** No element whose key is below every key of `s` is kept from `s`. */
  lemma {:induction false} FilterAbove<T>(s: seq<T>, key: T -> int, v: int)
    requires forall i :: 0 <= i < |s| ==> v < key(s[i])
    ensures Filter(s, key, v) == []
  {
    if |s| > 0 {
      FilterAbove(s[1..], key, v);
    }
  }

  lemma FilterCons<T>(y: T, t: seq<T>, key: T -> int, v: int)
    ensures Filter([y] + t, key, v) == (if key(y) == v then [y] else []) + Filter(t, key, v)
  {
    assert ([y] + t)[0] == y;
    assert ([y] + t)[1..] == t;
  }

  /** The tail of a sorted sequence is sorted, and its head has the least key. */
  lemma SortedTail<T>(s: seq<T>, key: T -> int)
    requires |s| > 0 && SortedBy(s, key)
    ensures SortedBy(s[1..], key)
    ensures forall i :: 0 <= i < |s| ==> key(s[0]) <= key(s[i])
  {
    forall i, j | 0 <= i < j < |s[1..]| ensures key(s[1..][i]) <= key(s[1..][j]) {
      assert s[1..][i] == s[i + 1] && s[1..][j] == s[j + 1];
    }
  }

  /** Inserting into a sorted sequence puts `x` after every element with
      the same key. */
  lemma {:induction false} FilterInsert<T>(x: T, s: seq<T>, key: T -> int, v: int)
    requires SortedBy(s, key)
    ensures Filter(InsertBy(x, s, key), key, v)
            == Filter(s, key, v) + (if key(x) == v then [x] else [])
  {
    var own: seq<T> := if key(x) == v then [x] else [];
    if |s| == 0 {
      assert InsertBy(x, s, key) == [x] + [];
      FilterCons(x, [], key, v);
      assert own + [] == [] + own;
    } else if key(x) < key(s[0]) {
      assert InsertBy(x, s, key) == [x] + s;
      FilterCons(x, s, key, v);
      if key(x) == v {
        SortedTail(s, key);
        FilterAbove(s, key, v);
        assert own + [] == [] + own;
      } else {
        assert [] + Filter(s, key, v) == Filter(s, key, v) + [];
      }
    } else {
      var rest := InsertBy(x, s[1..], key);
      assert InsertBy(x, s, key) == [s[0]] + rest;
      SortedTail(s, key);
      FilterInsert(x, s[1..], key, v);
      FilterCons(s[0], rest, key, v);
      assert s == [s[0]] + s[1..];
      FilterCons(s[0], s[1..], key, v);
      var head: seq<T> := if key(s[0]) == v then [s[0]] else [];
      var tail := Filter(s[1..], key, v);
      assert head + (tail + own) == (head + tail) + own;
    }
  }

  /** Stability: the elements that share a key keep their input order. */
  lemma {:induction false} SortByStable<T>(s: seq<T>, key: T -> int, v: int)
    ensures Filter(SortBy(s, key), key, v) == Filter(s, key, v)
  {
    if |s| > 0 {
      var prefix, last := s[..|s| - 1], s[|s| - 1];
      var sortedPrefix := SortBy(prefix, key);
      assert SortBy(s, key) == InsertBy(last, sortedPrefix, key);
      SortByStable(prefix, key, v);
      SortByCorrect(prefix, key);
      FilterInsert(last, sortedPrefix, key, v);
      assert Filter([last], key, v) == (if key(last) == v then [last] else []) by {
        assert [last][1..] == [];
      }
      assert s == prefix + [last];
      FilterAppend(prefix, [last], key, v);
    }
  }
}
