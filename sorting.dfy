/**
 * Python's `list.sort(key=...)` for the two keys the scripts use: a `lastFetched`
 * string, and the `(prefix, number)` tuple of `sort_key`. Both are ordered as Python
 * orders a `(str, int)` tuple. `list.sort` is stable, so the result is the one
 * sorted permutation that keeps elements with equal keys in their original order;
 * `SortBy` builds it by insertion.
 */
module Sorting {
  import opened Text
  import opened Collections

  /** A `(str, int)` tuple key; a lone string key is `SortKey(s, 0)`. */
  datatype SortKey = SortKey(text: string, num: int)

  /** Python's `<` on `(str, int)` tuples: by the string first, then by the number. */
  predicate KeyLess(a: SortKey, b: SortKey)
  {
    Less(a.text, b.text) || (a.text == b.text && a.num < b.num)
  }

  lemma KeyLessIrreflexive(a: SortKey)
    ensures !KeyLess(a, a)
  {
    LessIrreflexive(a.text);
  }

  lemma KeyLessTransitive(a: SortKey, b: SortKey, c: SortKey)
    requires KeyLess(a, b) && KeyLess(b, c)
    ensures KeyLess(a, c)
  {
    if Less(a.text, b.text) && Less(b.text, c.text) {
      LessTransitive(a.text, b.text, c.text);
    }
  }

  /** Keys that are not ordered either way are equal: the order is total. */
  lemma KeyLessTotal(a: SortKey, b: SortKey)
    ensures a == b || KeyLess(a, b) || KeyLess(b, a)
  {
    LessTotal(a.text, b.text);
  }

  lemma KeyLessAsymmetric(a: SortKey, b: SortKey)
    requires KeyLess(a, b)
    ensures !KeyLess(b, a)
  {
    if KeyLess(b, a) {
      KeyLessTransitive(a, b, a);
      KeyLessIrreflexive(a);
    }
  }

  /** `a < b` and `b <= c` give `a < c`. */
  lemma KeyLessThenNotLess(a: SortKey, b: SortKey, c: SortKey)
    requires KeyLess(a, b) && !KeyLess(c, b)
    ensures KeyLess(a, c)
  {
    KeyLessTotal(b, c);
    if b != c {
      KeyLessTransitive(a, b, c);
    }
  }

  /** `a <= b` and `b <= c` give `a <= c`. */
  lemma KeyNotLessTransitive(a: SortKey, b: SortKey, c: SortKey)
    requires !KeyLess(b, a) && !KeyLess(c, b)
    ensures !KeyLess(c, a)
  {
    KeyLessTotal(a, b);
    if a != b {
      KeyLessThenNotLess(a, b, c);
      KeyLessAsymmetric(a, c);
    }
  }

  /** No element is strictly smaller than one before it. */
  ghost predicate SortedBy<T>(s: seq<T>, key: T -> SortKey)
  {
    forall i, j :: 0 <= i < j < |s| ==> !KeyLess(key(s[j]), key(s[i]))
  }

  /** The elements of `s` whose key is `k`, in their order in `s`. */
  function WithKey<T>(s: seq<T>, key: T -> SortKey, k: SortKey): seq<T>
  {
    if s == [] then [] else (if key(s[0]) == k then [s[0]] else []) + WithKey(s[1..], key, k)
  }

  /** Inserts `x` after every element whose key is not greater than its own. */
  function Insert<T>(x: T, s: seq<T>, key: T -> SortKey): seq<T>
  {
    if s == [] || KeyLess(key(x), key(s[0])) then [x] + s else [s[0]] + Insert(x, s[1..], key)
  }

  /** `sorted(s, key=key)`: the stable sort of `s`. */
  function SortBy<T>(s: seq<T>, key: T -> SortKey): seq<T>
  {
    if s == [] then [] else Insert(s[|s| - 1], SortBy(s[..|s| - 1], key), key)
  }

  lemma {:induction false} InsertMultiset<T>(x: T, s: seq<T>, key: T -> SortKey)
    ensures multiset(Insert(x, s, key)) == multiset(s) + multiset{x}
  {
    if s != [] && !KeyLess(key(x), key(s[0])) {
      InsertMultiset(x, s[1..], key);
      assert s == [s[0]] + s[1..];
    }
  }

  lemma {:induction false} InsertSorted<T>(x: T, s: seq<T>, key: T -> SortKey)
    requires SortedBy(s, key)
    ensures SortedBy(Insert(x, s, key), key)
  {
    if s == [] {
    } else if KeyLess(key(x), key(s[0])) {
      var r := [x] + s;
      forall j | 0 < j < |r|
        ensures !KeyLess(key(r[j]), key(x))
      {
        if j == 1 {
          KeyLessAsymmetric(key(x), key(s[0]));
        } else {
          KeyLessThenNotLess(key(x), key(s[0]), key(s[j - 1]));
          KeyLessAsymmetric(key(x), key(s[j - 1]));
        }
      }
    } else {
      InsertSorted(x, s[1..], key);
      var t := Insert(x, s[1..], key);
      InsertMultiset(x, s[1..], key);
      KeyLessTotal(key(x), key(s[0]));
      forall j | 0 <= j < |t|
        ensures !KeyLess(key(t[j]), key(s[0]))
      {
        assert t[j] in multiset(t);
        if t[j] != x {
          var m :| 1 <= m < |s| && s[m] == t[j];
        }
      }
    }
  }

  /** When `k` is below the first key of a sorted `s`, no element of `s` has key `k`. */
  lemma {:induction false} NoneWithKeyBelowFirst<T>(s: seq<T>, key: T -> SortKey, k: SortKey)
    requires SortedBy(s, key)
    requires s != [] ==> KeyLess(k, key(s[0]))
    ensures WithKey(s, key, k) == []
  {
    if s != [] {
      KeyLessAsymmetric(k, key(s[0]));
      if |s| > 1 {
        KeyLessThenNotLess(k, key(s[0]), key(s[1]));
      }
      NoneWithKeyBelowFirst(s[1..], key, k);
    }
  }

  /** Inserting into a sorted sequence puts `x` after every element with the same key. */
  lemma {:induction false} InsertWithKey<T>(x: T, s: seq<T>, key: T -> SortKey, k: SortKey)
    requires SortedBy(s, key)
    ensures WithKey(Insert(x, s, key), key, k)
         == WithKey(s, key, k) + (if key(x) == k then [x] else [])
  {
    if s == [] {
    } else if KeyLess(key(x), key(s[0])) {
      var r := [x] + s;
      assert r[1..] == s;
      if key(x) == k {
        NoneWithKeyBelowFirst(s, key, k);
      }
    } else {
      InsertWithKey(x, s[1..], key, k);
      var r := [s[0]] + Insert(x, s[1..], key);
      assert r[1..] == Insert(x, s[1..], key);
    }
  }

  lemma {:induction false} WithKeyAppend<T>(a: seq<T>, b: seq<T>, key: T -> SortKey, k: SortKey)
    ensures WithKey(a + b, key, k) == WithKey(a, key, k) + WithKey(b, key, k)
  {
    if a != [] {
      WithKeyAppend(a[1..], b, key, k);
      assert (a + b)[1..] == a[1..] + b;
    } else {
      assert a + b == b;
    }
  }

  /**
   * `SortBy` sorts, permutes, and is stable: for every key, the elements with that
   * key come out in the order they went in.
   */
  lemma {:induction false} SortByCorrect<T>(s: seq<T>, key: T -> SortKey)
    ensures SortedBy(SortBy(s, key), key)
    ensures multiset(SortBy(s, key)) == multiset(s)
    ensures forall k :: WithKey(SortBy(s, key), key, k) == WithKey(s, key, k)
  {
    if s != [] {
      var init, last := s[..|s| - 1], s[|s| - 1];
      SortByCorrect(init, key);
      InsertSorted(last, SortBy(init, key), key);
      InsertMultiset(last, SortBy(init, key), key);
      assert s == init + [last];
      forall k ensures WithKey(SortBy(s, key), key, k) == WithKey(s, key, k) {
        InsertWithKey(last, SortBy(init, key), key, k);
        WithKeyAppend(init, [last], key, k);
      }
    }
  }

  /** Sorting keeps the length and the elements. */
  lemma SortByPermutes<T>(s: seq<T>, key: T -> SortKey)
    ensures |SortBy(s, key)| == |s|
    ensures forall x :: x in SortBy(s, key) <==> x in s
  {
    SortByCorrect(s, key);
    assert |multiset(SortBy(s, key))| == |multiset(s)|;
    forall x ensures x in SortBy(s, key) <==> x in s {
      assert x in SortBy(s, key) <==> x in multiset(SortBy(s, key));
    }
  }

  lemma {:induction false} InsertDistinct<T>(x: T, s: seq<T>, key: T -> SortKey)
    requires Distinct(s) && x !in s
    ensures Distinct(Insert(x, s, key))
  {
    if s != [] && !KeyLess(key(x), key(s[0])) {
      InsertDistinct(x, s[1..], key);
      InsertMultiset(x, s[1..], key);
      var t := Insert(x, s[1..], key);
      assert s[0] !in multiset(t);
      var r := [s[0]] + t;
      forall i, j | 0 <= i < j < |r| ensures r[i] != r[j] {
        if i == 0 { assert r[j] == t[j - 1]; }
      }
    }
  }

  /** Sorting a sequence without repeats gives one without repeats. */
  lemma {:induction false} SortByDistinct<T>(s: seq<T>, key: T -> SortKey)
    requires Distinct(s)
    ensures Distinct(SortBy(s, key))
  {
    if s != [] {
      var init, last := s[..|s| - 1], s[|s| - 1];
      SortByDistinct(init, key);
      SortByPermutes(init, key);
      InsertDistinct(last, SortBy(init, key), key);
    }
  }
}
