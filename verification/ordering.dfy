/**
 * Python's ordering of strings (code point by code point, a proper prefix
 * first) and the stable `sorted(..., key=...)` built on it.
 */
module Ordering {

  /** `a < b` on Python strings. */
  predicate Less(a: string, b: string)
    decreases |a|
  {
    if |a| == 0 then |b| > 0
    else if |b| == 0 then false
    else if a[0] != b[0] then a[0] < b[0]
    else Less(a[1..], b[1..])
  }

  predicate LessEq(a: string, b: string) {
    a == b || Less(a, b)
  }

  lemma {:induction false} LessIrreflexive(a: string)
    ensures !Less(a, a)
    decreases |a|
  {
    if |a| > 0 {
      LessIrreflexive(a[1..]);
    }
  }

  lemma {:induction false} LessTransitive(a: string, b: string, c: string)
    requires Less(a, b) && Less(b, c)
    ensures Less(a, c)
    decreases |a|
  {
    if |a| > 0 && a[0] == b[0] && b[0] == c[0] {
      LessTransitive(a[1..], b[1..], c[1..]);
    }
  }

  lemma {:induction false} LessTotal(a: string, b: string)
    ensures a == b || Less(a, b) || Less(b, a)
    decreases |a|
  {
    if |a| > 0 && |b| > 0 && a[0] == b[0] {
      LessTotal(a[1..], b[1..]);
      if a[1..] == b[1..] {
        assert a == [a[0]] + a[1..];
        assert b == [b[0]] + b[1..];
      }
    }
  }

  lemma LessAsymmetric(a: string, b: string)
    requires Less(a, b)
    ensures !Less(b, a)
  {
    if Less(b, a) {
      LessTransitive(a, b, a);
      LessIrreflexive(a);
    }
  }

  // ---------------------------------------------------------------- sorting

  predicate SortedBy<T>(s: seq<T>, key: T -> string) {
    forall i, j :: 0 <= i < j < |s| ==> LessEq(key(s[i]), key(s[j]))
  }

  predicate StrictlySortedBy<T>(s: seq<T>, key: T -> string) {
    forall i, j :: 0 <= i < j < |s| ==> Less(key(s[i]), key(s[j]))
  }

  /** Keys pairwise distinct: what sorting a dictionary's items relies on. */
  predicate DistinctKeys<T>(s: seq<T>, key: T -> string) {
    forall i, j :: 0 <= i < j < |s| ==> key(s[i]) != key(s[j])
  }

  /** Put `x` before the first element whose key is not smaller. */
  function Insert<T>(x: T, s: seq<T>, key: T -> string): (r: seq<T>)
    ensures multiset(r) == multiset(s) + multiset{x}
    ensures |r| == |s| + 1
  {
    if |s| == 0 || LessEq(key(x), key(s[0])) then [x] + s
    else
      assert s == [s[0]] + s[1..];
      [s[0]] + Insert(x, s[1..], key)
  }

  /** Python's stable `sorted(s, key=key)`. */
  function SortBy<T>(s: seq<T>, key: T -> string): (r: seq<T>)
    ensures multiset(r) == multiset(s)
    ensures |r| == |s|
  {
    if |s| == 0 then []
    else
      assert s == [s[0]] + s[1..];
      Insert(s[0], SortBy(s[1..], key), key)
  }

  lemma {:induction false} InsertSorted<T>(x: T, s: seq<T>, key: T -> string)
    requires SortedBy(s, key)
    ensures SortedBy(Insert(x, s, key), key)
    decreases |s|
  {
    if |s| == 0 || LessEq(key(x), key(s[0])) {
      var r := [x] + s;
      forall i, j | 0 <= i < j < |r|
        ensures LessEq(key(r[i]), key(r[j]))
      {
        if i == 0 && j > 1 {
          LessEqTransitive(key(x), key(s[0]), key(s[j - 1]));
        }
      }
    } else {
      InsertSorted(x, s[1..], key);
      var tail := Insert(x, s[1..], key);
      var r := [s[0]] + tail;
      LessTotal(key(x), key(s[0]));
      forall i, j | 0 <= i < j < |r|
        ensures LessEq(key(r[i]), key(r[j]))
      {
        if i == 0 {
          // every element of the tail is `x` or an element of `s[1..]`
          assert r[j] in multiset(tail);
          assert r[j] in multiset(s[1..]) + multiset{x};
          if r[j] in multiset(s[1..]) {
            var k :| 0 <= k < |s[1..]| && s[1..][k] == r[j];
            assert s[k + 1] == r[j];
          }
        }
      }
    }
  }

  lemma LessEqTransitive(a: string, b: string, c: string)
    requires LessEq(a, b) && LessEq(b, c)
    ensures LessEq(a, c)
  {
    if a != b && b != c {
      LessTransitive(a, b, c);
    }
  }

  lemma {:induction false} SortBySorted<T>(s: seq<T>, key: T -> string)
    ensures SortedBy(SortBy(s, key), key)
    decreases |s|
  {
    if |s| > 0 {
      SortBySorted(s[1..], key);
      InsertSorted(s[0], SortBy(s[1..], key), key);
    }
  }

  /** Sorted with distinct keys is strictly sorted. */
  lemma SortedDistinctIsStrict<T>(s: seq<T>, key: T -> string)
    requires SortedBy(s, key)
    requires DistinctKeys(s, key)
    ensures StrictlySortedBy(s, key)
  {
  }

  /**
   * A strictly sorted arrangement of a multiset is unique: sorting a
   * collection with distinct keys does not depend on the order it came in.
   */
  lemma {:induction false} StrictlySortedUnique<T>(a: seq<T>, b: seq<T>, key: T -> string)
    requires StrictlySortedBy(a, key) && StrictlySortedBy(b, key)
    requires multiset(a) == multiset(b)
    ensures a == b
    decreases |a|
  {
    if |a| > 0 {
      SortedHeadsEqual(a, b, key);
      TailMultiset(a, b);
      assert StrictlySortedBy(a[1..], key) by {
        forall i, j | 0 <= i < j < |a[1..]| ensures Less(key(a[1..][i]), key(a[1..][j])) {
          assert a[1..][i] == a[i + 1] && a[1..][j] == a[j + 1];
        }
      }
      assert StrictlySortedBy(b[1..], key) by {
        forall i, j | 0 <= i < j < |b[1..]| ensures Less(key(b[1..][i]), key(b[1..][j])) {
          assert b[1..][i] == b[i + 1] && b[1..][j] == b[j + 1];
        }
      }
      StrictlySortedUnique(a[1..], b[1..], key);
      assert a == [a[0]] + a[1..];
      assert b == [b[0]] + b[1..];
    }
  }

  /** Two strictly sorted arrangements of one multiset start with the same element. */
  lemma SortedHeadsEqual<T>(a: seq<T>, b: seq<T>, key: T -> string)
    requires StrictlySortedBy(a, key) && StrictlySortedBy(b, key)
    requires multiset(a) == multiset(b) && |a| > 0
    ensures |b| > 0 && a[0] == b[0]
  {
    assert |b| == |multiset(b)| == |multiset(a)| == |a|;
    assert a[0] in multiset(b);
    var j :| 0 <= j < |b| && b[j] == a[0];
    assert b[0] in multiset(a);
    var i :| 0 <= i < |a| && a[i] == b[0];
    if j > 0 {
      if i > 0 {
        // key(a[0]) < key(b[0]) < key(b[j]) = key(a[0])
        LessTransitive(key(a[0]), key(a[i]), key(b[j]));
        LessIrreflexive(key(a[0]));
      } else {
        LessIrreflexive(key(b[0]));
      }
    }
  }

  lemma TailMultiset<T>(a: seq<T>, b: seq<T>)
    requires multiset(a) == multiset(b) && |a| > 0 && |b| > 0 && a[0] == b[0]
    ensures multiset(a[1..]) == multiset(b[1..])
  {
    assert a == [a[0]] + a[1..];
    assert b == [b[0]] + b[1..];
    assert multiset(a) == multiset{a[0]} + multiset(a[1..]);
    assert multiset(b) == multiset{b[0]} + multiset(b[1..]);
    assert multiset(a[1..]) == multiset(a) - multiset{a[0]};
    assert multiset(b[1..]) == multiset(b) - multiset{b[0]};
  }

  /**
   * Sorting a collection with distinct keys gives the same sequence whatever
   * order the collection was listed in.
   */
  lemma SortByOrderIndependent<T>(a: seq<T>, b: seq<T>, key: T -> string)
    requires multiset(a) == multiset(b)
    requires DistinctKeys(a, key)
    ensures SortBy(a, key) == SortBy(b, key)
  {
    var sa, sb := SortBy(a, key), SortBy(b, key);
    SortBySorted(a, key);
    SortBySorted(b, key);
    DistinctKeysPermutation(a, sa, key);
    DistinctKeysPermutation(a, sb, key);
    StrictlySortedUnique(sa, sb, key);
  }

  lemma DistinctKeysPermutation<T>(a: seq<T>, b: seq<T>, key: T -> string)
    requires multiset(a) == multiset(b)
    requires DistinctKeys(a, key)
    ensures DistinctKeys(b, key)
  {
    forall i, j | 0 <= i < j < |b|
      ensures key(b[i]) != key(b[j])
    {
      assert b[i] in multiset(a);
      assert b[j] in multiset(a);
      var p :| 0 <= p < |a| && a[p] == b[i];
      var q :| 0 <= q < |a| && a[q] == b[j];
      if p == q {
        // b[i] == b[j] would have to occur twice in `a`
        assert b[i] == b[j];
        var m := multiset(b);
        assert multiset(b[..j]) + multiset(b[j..]) == m by {
          assert b == b[..j] + b[j..];
        }
        assert b[i] in multiset(b[..j]);
        assert b[j] in multiset(b[j..]);
        assert m[b[i]] >= 2;
        CountOneIfDistinct(a, p, key);
      }
    }
  }

  lemma {:induction false} CountOneIfDistinct<T>(a: seq<T>, p: nat, key: T -> string)
    requires p < |a|
    requires DistinctKeys(a, key)
    ensures multiset(a)[a[p]] == 1
    decreases |a|
  {
    assert a == [a[0]] + a[1..];
    if p == 0 {
      assert a[0] !in a[1..];
      assert multiset(a[1..])[a[0]] == 0;
    } else {
      CountOneIfDistinct(a[1..], p - 1, key);
      assert a[0] != a[p];
    }
  }

  // ---------------------------------------------------------------- maximum

  /**
   * Index of the first element with the greatest key: the head of Python's
   * stable `sorted(s, key=key, reverse=True)`.
   */
  function FirstMaxBy<T>(s: seq<T>, key: T -> string): (i: nat)
    requires |s| > 0
    ensures i < |s|
    ensures forall j :: 0 <= j < |s| ==> LessEq(key(s[j]), key(s[i]))
    ensures forall j :: 0 <= j < i ==> Less(key(s[j]), key(s[i]))
    decreases |s|
  {
    if |s| == 1 then 0
    else
      var k := FirstMaxBy(s[..|s| - 1], key);
      assert forall j :: 0 <= j < |s| - 1 ==> s[..|s| - 1][j] == s[j];
      if Less(key(s[k]), key(s[|s| - 1])) then
        LessUpTo(s, key, k);
        |s| - 1
      else
        LessTotal(key(s[k]), key(s[|s| - 1]));
        k
  }

  lemma LessUpTo<T>(s: seq<T>, key: T -> string, k: nat)
    requires k < |s| - 1
    requires Less(key(s[k]), key(s[|s| - 1]))
    requires forall j :: 0 <= j < |s| - 1 ==> LessEq(key(s[j]), key(s[k]))
    ensures forall j :: 0 <= j < |s| ==> LessEq(key(s[j]), key(s[|s| - 1]))
    ensures forall j :: 0 <= j < |s| - 1 ==> Less(key(s[j]), key(s[|s| - 1]))
  {
    forall j | 0 <= j < |s| - 1
      ensures Less(key(s[j]), key(s[|s| - 1]))
    {
      if key(s[j]) != key(s[k]) {
        LessTransitive(key(s[j]), key(s[k]), key(s[|s| - 1]));
      }
    }
  }
}
