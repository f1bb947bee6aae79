/** Ordering helpers: Python's ordering of `str` values (code point by code
    point) and stable insertion sorts by a string key or an integer key. */
module Sorting {

  /** Python's `a < b` on strings. */
  predicate StrLess(a: string, b: string)
    decreases |a|
  {
    if |a| == 0 then |b| > 0
    else if |b| == 0 then false
    else if a[0] != b[0] then a[0] < b[0]
    else StrLess(a[1..], b[1..])
  }

  predicate StrLeq(a: string, b: string)
  {
    a == b || StrLess(a, b)
  }

  lemma {:induction false} StrLessIrreflexive(a: string)
    ensures !StrLess(a, a)
    decreases |a|
  {
    if |a| > 0 {
      StrLessIrreflexive(a[1..]);
    }
  }

  lemma {:induction false} StrLessTransitive(a: string, b: string, c: string)
    requires StrLess(a, b) && StrLess(b, c)
    ensures StrLess(a, c)
    decreases |a|
  {
    if |a| > 0 && |b| > 0 && |c| > 0 && a[0] == b[0] == c[0] {
      StrLessTransitive(a[1..], b[1..], c[1..]);
    }
  }

  lemma {:induction false} StrLessTrichotomy(a: string, b: string)
    ensures a == b || StrLess(a, b) || StrLess(b, a)
    decreases |a|
  {
    if |a| > 0 && |b| > 0 && a[0] == b[0] {
      StrLessTrichotomy(a[1..], b[1..]);
      if a[1..] == b[1..] {
        assert a == [a[0]] + a[1..] && b == [b[0]] + b[1..];
      }
    }
  }

  lemma StrLessAsymmetric(a: string, b: string)
    requires StrLess(a, b)
    ensures !StrLess(b, a) && a != b
  {
    StrLessIrreflexive(a);
    if StrLess(b, a) {
      StrLessTransitive(a, b, a);
    }
  }

  lemma StrLeqTransitive(a: string, b: string, c: string)
    requires StrLeq(a, b) && StrLeq(b, c)
    ensures StrLeq(a, c)
  {
    if a != b && b != c {
      StrLessTransitive(a, b, c);
    }
  }

  lemma StrLeqAntisymmetric(a: string, b: string)
    requires StrLeq(a, b) && StrLeq(b, a)
    ensures a == b
  {
    if a != b {
      StrLessAsymmetric(a, b);
    }
  }

  // ---------------------------------------------------------------------
  // Sorting by a string key

  predicate SortedByStr<T>(s: seq<T>, key: T -> string)
  {
    forall i, j :: 0 <= i < j < |s| ==> StrLeq(key(s[i]), key(s[j]))
  }

  /** Inserts `x` before the first element whose key is not smaller. */
  function InsertByStr<T>(x: T, s: seq<T>, key: T -> string): (r: seq<T>)
    ensures multiset(r) == multiset(s) + multiset{x}
  {
    if |s| == 0 then [x]
    else if StrLeq(key(x), key(s[0])) then [x] + s
    else
      assert s == [s[0]] + s[1..];
      [s[0]] + InsertByStr(x, s[1..], key)
  }

  /** Stable insertion sort, the ordering `sorted(s, key=key)` produces. */
  function SortByStr<T>(s: seq<T>, key: T -> string): (r: seq<T>)
    ensures multiset(r) == multiset(s)
  {
    if |s| == 0 then []
    else
      assert s == [s[0]] + s[1..];
      InsertByStr(s[0], SortByStr(s[1..], key), key)
  }

  lemma {:induction false} InsertByStrSorted<T>(x: T, s: seq<T>, key: T -> string)
    requires SortedByStr(s, key)
    ensures SortedByStr(InsertByStr(x, s, key), key)
  {
    var r := InsertByStr(x, s, key);
    if |s| == 0 {
    } else if StrLeq(key(x), key(s[0])) {
      forall i, j | 0 <= i < j < |r|
        ensures StrLeq(key(r[i]), key(r[j]))
      {
        if i == 0 {
          StrLeqTransitive(key(x), key(s[0]), key(s[j - 1]));
        }
      }
    } else {
      StrLessTrichotomy(key(x), key(s[0]));
      var t := InsertByStr(x, s[1..], key);
      InsertByStrSorted(x, s[1..], key);
      assert r == [s[0]] + t;
      forall j | 0 <= j < |t|
        ensures StrLeq(key(s[0]), key(t[j]))
      {
        assert t[j] in multiset(t);
        if t[j] != x {
          assert t[j] in multiset(s[1..]);
          var k :| 0 <= k < |s[1..]| && s[1..][k] == t[j];
          assert s[k + 1] == t[j];
        }
      }
    }
  }

  lemma {:induction false} SortByStrSorted<T>(s: seq<T>, key: T -> string)
    ensures SortedByStr(SortByStr(s, key), key)
  {
    if |s| > 0 {
      SortByStrSorted(s[1..], key);
      InsertByStrSorted(s[0], SortByStr(s[1..], key), key);
    }
  }

  /** Elements with equal keys are equal. */
  ghost predicate KeyInjective<T>(a: seq<T>, key: T -> string)
  {
    forall i, j :: 0 <= i < |a| && 0 <= j < |a| && key(a[i]) == key(a[j]) ==> a[i] == a[j]
  }

  lemma KeyInjectiveTail<T>(a: seq<T>, key: T -> string)
    requires |a| > 0 && KeyInjective(a, key)
    ensures KeyInjective(a[1..], key)
  {
    forall i, j | 0 <= i < |a| - 1 && 0 <= j < |a| - 1 && key(a[1..][i]) == key(a[1..][j])
      ensures a[1..][i] == a[1..][j]
    {
      assert a[1..][i] == a[i + 1] && a[1..][j] == a[j + 1];
    }
  }

  lemma MultisetTail<T>(a: seq<T>)
    requires |a| > 0
    ensures multiset(a) == multiset{a[0]} + multiset(a[1..])
    ensures multiset(a[1..]) == multiset(a) - multiset{a[0]}
  {
    assert a == [a[0]] + a[1..];
  }

  lemma SortedByStrTail<T>(a: seq<T>, key: T -> string)
    requires |a| > 0 && SortedByStr(a, key)
    ensures SortedByStr(a[1..], key)
  {
    forall i, j | 0 <= i < j < |a| - 1
      ensures StrLeq(key(a[1..][i]), key(a[1..][j]))
    {
      assert a[1..][i] == a[i + 1] && a[1..][j] == a[j + 1];
    }
  }

  /** Sorted arrangements of the same elements start with the same element
      when the key tells elements apart. */
  lemma SortedByStrSameHead<T>(a: seq<T>, b: seq<T>, key: T -> string)
    requires |a| > 0 && |b| > 0
    requires SortedByStr(a, key) && SortedByStr(b, key)
    requires multiset(a) == multiset(b)
    requires KeyInjective(a, key)
    ensures a[0] == b[0]
  {
    assert a[0] in multiset(b) && b[0] in multiset(a);
    var i :| 0 <= i < |b| && b[i] == a[0];
    var j :| 0 <= j < |a| && a[j] == b[0];
    assert key(a[0]) == key(a[j]) ==> a[0] == a[j];
    assert StrLeq(key(b[0]), key(a[0])) by {
      if i > 0 { assert StrLeq(key(b[0]), key(b[i])); }
    }
    assert StrLeq(key(a[0]), key(b[0])) by {
      if j > 0 { assert StrLeq(key(a[0]), key(a[j])); }
    }
    StrLeqAntisymmetric(key(a[0]), key(b[0]));
  }

  /** Two sorted arrangements of the same elements coincide when the key
      tells elements apart. */
  lemma {:induction false} SortedByStrUnique<T>(a: seq<T>, b: seq<T>, key: T -> string)
    requires SortedByStr(a, key) && SortedByStr(b, key)
    requires multiset(a) == multiset(b)
    requires KeyInjective(a, key)
    ensures a == b
  {
    if |a| == 0 {
      assert |b| == |multiset(b)| == 0;
    } else {
      assert |b| == |a| by {
        assert |b| == |multiset(b)| == |multiset(a)| == |a|;
      }
      assert a[0] == b[0] by {
        SortedByStrSameHead(a, b, key);
      }
      assert multiset(a[1..]) == multiset(b[1..]) by {
        MultisetTail(a);
        MultisetTail(b);
      }
      SortedByStrTail(a, key);
      SortedByStrTail(b, key);
      KeyInjectiveTail(a, key);
      SortedByStrUnique(a[1..], b[1..], key);
      assert a == [a[0]] + a[1..] && b == [b[0]] + b[1..];
    }
  }

  /** Injectivity of the key carries over to any permutation. */
  lemma KeyInjectivePermutation<T>(a: seq<T>, b: seq<T>, key: T -> string)
    requires multiset(a) == multiset(b) && KeyInjective(a, key)
    ensures KeyInjective(b, key)
  {
    forall i, j | 0 <= i < |b| && 0 <= j < |b| && key(b[i]) == key(b[j])
      ensures b[i] == b[j]
    {
      assert b[i] in multiset(a) && b[j] in multiset(a);
      var i' :| 0 <= i' < |a| && a[i'] == b[i];
      var j' :| 0 <= j' < |a| && a[j'] == b[j];
    }
  }

  function MapSeq<T, U>(s: seq<T>, f: T -> U): (r: seq<U>)
    ensures |r| == |s|
  {
    if |s| == 0 then [] else [f(s[0])] + MapSeq(s[1..], f)
  }

  lemma {:induction false} MapSeqIndex<T, U>(s: seq<T>, f: T -> U, k: nat)
    requires k < |s|
    ensures MapSeq(s, f)[k] == f(s[k])
  {
    if k > 0 {
      MapSeqIndex(s[1..], f, k - 1);
    }
  }

  lemma {:induction false} MapSeqAppend<T, U>(x: seq<T>, y: seq<T>, f: T -> U)
    ensures MapSeq(x + y, f) == MapSeq(x, f) + MapSeq(y, f)
  {
    if |x| > 0 {
      assert (x + y)[1..] == x[1..] + y;
      MapSeqAppend(x[1..], y, f);
    } else {
      assert x + y == y;
    }
  }

  lemma MapSeqSnoc<T, U>(s: seq<T>, i: nat, f: T -> U)
    requires i < |s|
    ensures MapSeq(s[..i + 1], f) == MapSeq(s[..i], f) + [f(s[i])]
  {
    assert s[..i + 1] == s[..i] + [s[i]];
    MapSeqAppend(s[..i], [s[i]], f);
    assert MapSeq([s[i]], f) == [f(s[i])] + MapSeq([s[i]][1..], f);
  }

  lemma {:induction false} MapSeqCompose<T, U, V>(s: seq<T>, f: T -> U, g: U -> V, h: T -> V)
    requires forall x :: h(x) == g(f(x))
    ensures MapSeq(MapSeq(s, f), g) == MapSeq(s, h)
  {
    if |s| > 0 {
      assert MapSeq(s, f)[1..] == MapSeq(s[1..], f);
      MapSeqCompose(s[1..], f, g, h);
    }
  }

  lemma MapSeqPair<T, U>(x: T, y: T, f: T -> U)
    ensures MapSeq([x, y], f) == [f(x), f(y)]
  {
    assert [x, y][1..] == [y];
    assert [y][1..] == [];
  }

  lemma MultisetRemoveAt<T>(b: seq<T>, j: nat)
    requires j < |b|
    ensures b == b[..j] + [b[j]] + b[j + 1..]
    ensures multiset(b[..j] + b[j + 1..]) == multiset(b) - multiset{b[j]}
  {
    assert b == b[..j] + [b[j]] + b[j + 1..];
  }

  lemma MultisetMiddle<U>(l: seq<U>, x: U, r: seq<U>)
    ensures multiset(l + ([x] + r)) == multiset{x} + multiset(l + r)
  {
  }

  lemma SplitAround<T>(b: seq<T>, j: nat)
    requires j < |b|
    ensures b == b[..j] + ([b[j]] + b[j + 1..])
  {
    assert b[j..] == [b[j]] + b[j + 1..];
    assert b == b[..j] + b[j..];
  }

  lemma MapSeqRemoveAt<T, U>(b: seq<T>, j: nat, f: T -> U)
    requires j < |b|
    ensures multiset(MapSeq(b, f)) == multiset{f(b[j])} + multiset(MapSeq(b[..j] + b[j + 1..], f))
  {
    var left, right := b[..j], b[j + 1..];
    var ml, mr := MapSeq(left, f), MapSeq(right, f);
    assert MapSeq(b, f) == ml + ([f(b[j])] + mr) by {
      SplitAround(b, j);
      MapSeqAppend(left, [b[j]] + right, f);
      MapSeqAppend([b[j]], right, f);
      assert [b[j]][1..] == [];
    }
    assert MapSeq(left + right, f) == ml + mr by {
      MapSeqAppend(left, right, f);
    }
    MultisetMiddle(ml, f(b[j]), mr);
  }

  /** Applying a function to every element of two permutations of each
      other gives two permutations of each other. */
  lemma {:induction false} MapSeqPermutation<T, U>(a: seq<T>, b: seq<T>, f: T -> U)
    requires multiset(a) == multiset(b)
    ensures multiset(MapSeq(a, f)) == multiset(MapSeq(b, f))
    decreases |a|
  {
    if |a| == 0 {
      assert |b| == |multiset(b)|;
    } else {
      assert a[0] in multiset(b);
      var j :| 0 <= j < |b| && b[j] == a[0];
      MultisetRemoveAt(b, j);
      MultisetTail(a);
      MapSeqPermutation(a[1..], b[..j] + b[j + 1..], f);
      MapSeqRemoveAt(b, j, f);
      assert MapSeq(a, f) == [f(a[0])] + MapSeq(a[1..], f);
    }
  }

  lemma {:induction false} InsertCommutesWithMap<T, U>(x: T, s: seq<T>, f: T -> U, k1: T -> string, k2: U -> string)
    requires forall y :: k2(f(y)) == k1(y)
    ensures InsertByStr(f(x), MapSeq(s, f), k2) == MapSeq(InsertByStr(x, s, k1), f)
  {
    if |s| > 0 {
      assert MapSeq(s, f)[1..] == MapSeq(s[1..], f);
      if !StrLeq(k1(x), k1(s[0])) {
        InsertCommutesWithMap(x, s[1..], f, k1, k2);
      }
    }
  }

  /** Sorting by a key and then transforming each element is transforming
      and then sorting, when the transformation keeps the key. */
  lemma {:induction false} SortCommutesWithMap<T, U>(s: seq<T>, f: T -> U, k1: T -> string, k2: U -> string)
    requires forall y :: k2(f(y)) == k1(y)
    ensures SortByStr(MapSeq(s, f), k2) == MapSeq(SortByStr(s, k1), f)
  {
    if |s| > 0 {
      assert MapSeq(s, f)[1..] == MapSeq(s[1..], f);
      SortCommutesWithMap(s[1..], f, k1, k2);
      InsertCommutesWithMap(s[0], SortByStr(s[1..], k1), f, k1, k2);
    }
  }

  function Identity(s: string): string
  {
    s
  }

  /** `sorted(xs)` for a list of strings. */
  function SortStrings(xs: seq<string>): (r: seq<string>)
    ensures multiset(r) == multiset(xs)
    ensures SortedByStr(r, Identity)
  {
    SortByStrSorted(xs, Identity);
    SortByStr(xs, Identity)
  }

  /** The sorted list depends only on the multiset of its elements. */
  lemma SortStringsPermutationInvariant(xs: seq<string>, ys: seq<string>)
    requires multiset(xs) == multiset(ys)
    ensures SortStrings(xs) == SortStrings(ys)
  {
    SortedByStrUnique(SortStrings(xs), SortStrings(ys), Identity);
  }

  // ---------------------------------------------------------------------
  // Sorting by an integer key

  predicate SortedByInt<T>(s: seq<T>, key: T -> int)
  {
    forall i, j :: 0 <= i < j < |s| ==> key(s[i]) <= key(s[j])
  }

  function InsertByInt<T>(x: T, s: seq<T>, key: T -> int): (r: seq<T>)
    ensures multiset(r) == multiset(s) + multiset{x}
  {
    if |s| == 0 then [x]
    else if key(x) <= key(s[0]) then [x] + s
    else
      assert s == [s[0]] + s[1..];
      [s[0]] + InsertByInt(x, s[1..], key)
  }

  /** Stable insertion sort by an integer key. */
  function SortByInt<T>(s: seq<T>, key: T -> int): (r: seq<T>)
    ensures multiset(r) == multiset(s)
  {
    if |s| == 0 then []
    else
      assert s == [s[0]] + s[1..];
      InsertByInt(s[0], SortByInt(s[1..], key), key)
  }

  lemma {:induction false} InsertByIntSorted<T>(x: T, s: seq<T>, key: T -> int)
    requires SortedByInt(s, key)
    ensures SortedByInt(InsertByInt(x, s, key), key)
  {
    if |s| > 0 && key(s[0]) < key(x) {
      var t := InsertByInt(x, s[1..], key);
      InsertByIntSorted(x, s[1..], key);
      forall j | 0 <= j < |t|
        ensures key(s[0]) <= key(t[j])
      {
        assert t[j] in multiset(t);
        if t[j] != x {
          assert t[j] in multiset(s[1..]);
          var k :| 0 <= k < |s[1..]| && s[1..][k] == t[j];
          assert s[k + 1] == t[j];
        }
      }
    }
  }

  lemma {:induction false} SortByIntSorted<T>(s: seq<T>, key: T -> int)
    ensures SortedByInt(SortByInt(s, key), key)
  {
    if |s| > 0 {
      SortByIntSorted(s[1..], key);
      InsertByIntSorted(s[0], SortByInt(s[1..], key), key);
    }
  }

  /** Splitting a sorted list: nothing in the tail sorts before anything in
      the head. */
  lemma SortedSplit<T>(s: seq<T>, key: T -> int, n: nat)
    requires SortedByInt(s, key) && n <= |s|
    ensures SortedByInt(s[..n], key)
    ensures forall d, k :: d in s[n..] && k in s[..n] ==> key(k) <= key(d)
  {
    forall d, k | d in s[n..] && k in s[..n]
      ensures key(k) <= key(d)
    {
      var a :| 0 <= a < n && s[..n][a] == k;
      var b :| 0 <= b < |s| - n && s[n..][b] == d;
      assert s[a] == k && s[n + b] == d;
    }
  }

  /** The first `n` elements: `s[:n]`. */
  function Take<T>(s: seq<T>, n: nat): (r: seq<T>)
    ensures |r| == if |s| <= n then |s| else n
    ensures forall k :: 0 <= k < |r| ==> r[k] == s[k]
  {
    if |s| <= n then s else s[..n]
  }
}
