/** Go's string order and the stable sort (`sort.SliceStable`, `sort.Slice`,
    `sort.Strings`) that every digest and every pair list goes through. */
module Ordering {

  /** `a < b` on Go strings; comparing UTF-8 bytes and comparing code points agree. */
  predicate StringLess(a: string, b: string) {
    if b == "" then false
    else if a == "" then true
    else if a[0] != b[0] then a[0] < b[0]
    else StringLess(a[1..], b[1..])
  }

  /** The field-by-field comparators of the source: the first differing field decides. */
  predicate KeyLess(a: seq<string>, b: seq<string>) {
    if b == [] then false
    else if a == [] then true
    else if a[0] != b[0] then StringLess(a[0], b[0])
    else KeyLess(a[1..], b[1..])
  }

  /** `a < b` exactly when, after a common start, `a` ends or has the smaller character. */
  lemma {:induction false} StringLessExactly(a: string, b: string)
    ensures StringLess(a, b) <==>
            exists k :: 0 <= k <= |a| && k < |b| && a[..k] == b[..k] && (k == |a| || a[k] < b[k])
  {
    if a != "" && b != "" && a[0] == b[0] {
      StringLessExactly(a[1..], b[1..]);
      if StringLess(a, b) {
        var k :| 0 <= k <= |a[1..]| && k < |b[1..]| && a[1..][..k] == b[1..][..k] &&
                 (k == |a[1..]| || a[1..][k] < b[1..][k]);
        assert a[..k + 1] == [a[0]] + a[1..][..k] && b[..k + 1] == [b[0]] + b[1..][..k];
      }
      forall k | 0 <= k <= |a| && k < |b| && a[..k] == b[..k] && (k == |a| || a[k] < b[k]) ensures StringLess(a, b) {
        assert k > 0;
        assert a[1..][..k - 1] == a[..k][1..] && b[1..][..k - 1] == b[..k][1..];
      }
    } else if a != "" && b != "" {
      assert a[..0] == b[..0];
      forall k | 0 < k <= |a| && k < |b| ensures a[..k] != b[..k] {
        assert a[..k][0] != b[..k][0];
      }
    } else {
      assert a[..0] == b[..0];
    }
  }

  lemma {:induction false} StringLessTotal(a: string, b: string)
    ensures a == b ==> !StringLess(a, b)
    ensures a != b ==> StringLess(a, b) != StringLess(b, a)
  {
    if a != "" && b != "" && a[0] == b[0] {
      StringLessTotal(a[1..], b[1..]);
      assert a == [a[0]] + a[1..] && b == [b[0]] + b[1..];
    }
  }

  lemma {:induction false} StringLessTransitive(a: string, b: string, c: string)
    requires StringLess(a, b) && StringLess(b, c)
    ensures StringLess(a, c)
  {
    if a != "" && a[0] == b[0] && b[0] == c[0] {
      StringLessTransitive(a[1..], b[1..], c[1..]);
    }
  }

  lemma {:induction false} KeyLessTotal(a: seq<string>, b: seq<string>)
    ensures a == b ==> !KeyLess(a, b)
    ensures a != b ==> KeyLess(a, b) != KeyLess(b, a)
  {
    if a != [] && b != [] {
      StringLessTotal(a[0], b[0]);
      if a[0] == b[0] {
        KeyLessTotal(a[1..], b[1..]);
        assert a == [a[0]] + a[1..] && b == [b[0]] + b[1..];
      }
    }
  }

  lemma {:induction false} KeyLessTransitive(a: seq<string>, b: seq<string>, c: seq<string>)
    requires KeyLess(a, b) && KeyLess(b, c)
    ensures KeyLess(a, c)
  {
    if a != [] {
      StringLessTotal(a[0], b[0]);
      StringLessTotal(b[0], c[0]);
      if a[0] == b[0] && b[0] == c[0] {
        KeyLessTransitive(a[1..], b[1..], c[1..]);
      } else if a[0] != b[0] && b[0] != c[0] {
        StringLessTransitive(a[0], b[0], c[0]);
        StringLessTotal(a[0], c[0]);
      }
    }
  }

  /** No later element has a smaller key. */
  ghost predicate Sorted<T>(s: seq<T>, key: T -> seq<string>) {
    forall i, j :: 0 <= i < j < |s| ==> !KeyLess(key(s[j]), key(s[i]))
  }

  /** Puts `x` behind every element whose key is not larger. */
  function Insert<T>(s: seq<T>, x: T, key: T -> seq<string>): seq<T> {
    if s == [] || !KeyLess(key(x), key(s[|s| - 1])) then s + [x]
    else Insert(s[..|s| - 1], x, key) + [s[|s| - 1]]
  }

  function StableSort<T>(s: seq<T>, key: T -> seq<string>): seq<T> {
    if s == [] then [] else Insert(StableSort(s[..|s| - 1], key), s[|s| - 1], key)
  }

  /** The elements with one key, in the order they stand in. */
  ghost function WithKey<T>(s: seq<T>, key: T -> seq<string>, k: seq<string>): seq<T> {
    if s == [] then []
    else WithKey(s[..|s| - 1], key, k) + (if key(s[|s| - 1]) == k then [s[|s| - 1]] else [])
  }

  lemma {:induction false} InsertMultiset<T>(s: seq<T>, x: T, key: T -> seq<string>)
    ensures multiset(Insert(s, x, key)) == multiset(s) + multiset{x}
  {
    if s != [] && KeyLess(key(x), key(s[|s| - 1])) {
      InsertMultiset(s[..|s| - 1], x, key);
      assert s == s[..|s| - 1] + [s[|s| - 1]];
    }
  }

  lemma {:induction false} InsertSorted<T>(s: seq<T>, x: T, key: T -> seq<string>)
    requires Sorted(s, key)
    ensures Sorted(Insert(s, x, key), key)
  {
    if s == [] {
    } else if !KeyLess(key(x), key(s[|s| - 1])) {
      var r := s + [x];
      forall i, j | 0 <= i < j < |r| ensures !KeyLess(key(r[j]), key(r[i])) {
        if j == |s| && i < |s| - 1 && KeyLess(key(x), key(s[i])) {
          KeyLessTotal(key(s[i]), key(s[|s| - 1]));
          KeyLessTotal(key(x), key(s[i]));
          if key(s[i]) != key(s[|s| - 1]) {
            KeyLessTransitive(key(x), key(s[i]), key(s[|s| - 1]));
          }
        }
      }
    } else {
      var p, z := s[..|s| - 1], s[|s| - 1];
      InsertSorted(p, x, key);
      InsertMultiset(p, x, key);
      KeyLessTotal(key(x), key(z));
      var q := Insert(p, x, key);
      forall i | 0 <= i < |q| ensures !KeyLess(key(z), key(q[i])) {
        assert q[i] in multiset(q);
        assert q[i] in p || q[i] == x;
      }
    }
  }

  lemma {:induction false} InsertWithKey<T>(s: seq<T>, x: T, key: T -> seq<string>, k: seq<string>)
    requires Sorted(s, key)
    ensures WithKey(Insert(s, x, key), key, k) == WithKey(s, key, k) + (if key(x) == k then [x] else [])
  {
    if s == [] || !KeyLess(key(x), key(s[|s| - 1])) {
      assert (s + [x])[..|s|] == s;
    } else {
      var p, z := s[..|s| - 1], s[|s| - 1];
      InsertWithKey(p, x, key, k);
      var q := Insert(p, x, key);
      assert (q + [z])[..|q|] == q;
      KeyLessTotal(key(x), key(z));
    }
  }

  /** The sort returns the same elements, in order, keeping the order of ties. */
  lemma {:induction false} StableSortCorrect<T>(s: seq<T>, key: T -> seq<string>)
    ensures multiset(StableSort(s, key)) == multiset(s)
    ensures |StableSort(s, key)| == |s|
    ensures Sorted(StableSort(s, key), key)
    ensures forall k :: WithKey(StableSort(s, key), key, k) == WithKey(s, key, k)
  {
    if s != [] {
      var p, x := s[..|s| - 1], s[|s| - 1];
      StableSortCorrect(p, key);
      InsertMultiset(StableSort(p, key), x, key);
      InsertSorted(StableSort(p, key), x, key);
      assert s == p + [x];
      forall k ensures WithKey(StableSort(s, key), key, k) == WithKey(s, key, k) {
        InsertWithKey(StableSort(p, key), x, key, k);
      }
    }
    assert |multiset(StableSort(s, key))| == |multiset(s)|;
  }

  /** Ties are identical elements. */
  ghost predicate KeyDecides<T>(s: seq<T>, key: T -> seq<string>) {
    forall x, y :: x in s && y in s && key(x) == key(y) ==> x == y
  }

  /** The last element of a sorted list has the largest key. */
  lemma SortedLast<T>(s: seq<T>, x: T, key: T -> seq<string>)
    requires Sorted(s, key) && x in s
    ensures !KeyLess(key(s[|s| - 1]), key(x))
  {
    var i :| 0 <= i < |s| && s[i] == x;
    KeyLessTotal(key(x), key(x));
  }

  lemma SortedSameLast<T>(a: seq<T>, b: seq<T>, key: T -> seq<string>)
    requires a != [] && b != [] && Sorted(a, key) && Sorted(b, key) && multiset(a) == multiset(b)
    requires KeyDecides(a, key)
    ensures a[|a| - 1] == b[|b| - 1]
  {
    var x, y := a[|a| - 1], b[|b| - 1];
    assert x in multiset(a) && y in multiset(b);
    SortedLast(a, y, key);
    SortedLast(b, x, key);
    KeyLessTotal(key(x), key(y));
  }

  lemma SameButLast<T>(p: seq<T>, q: seq<T>, x: T, a: seq<T>, b: seq<T>)
    requires a == p + [x] && b == q + [x] && multiset(a) == multiset(b)
    ensures multiset(p) == multiset(q)
  {
    assert multiset(p) == multiset(a) - multiset{x} && multiset(q) == multiset(b) - multiset{x};
  }

  lemma {:induction false} SortedUnique<T>(a: seq<T>, b: seq<T>, key: T -> seq<string>)
    requires Sorted(a, key) && Sorted(b, key) && multiset(a) == multiset(b)
    requires KeyDecides(a, key)
    ensures a == b
  {
    assert |a| == |b| by { assert |multiset(a)| == |multiset(b)|; }
    if a != [] {
      var x, p, q := a[|a| - 1], a[..|a| - 1], b[..|b| - 1];
      assert x == b[|b| - 1] by { SortedSameLast(a, b, key); }
      SameButLast(p, q, x, a, b);
      SortedUnique(p, q, key);
      assert a == p + [x] && b == q + [x];
    }
  }

  /** Sorting forgets the input order as soon as ties are identical. */
  lemma SortForgetsOrder<T>(a: seq<T>, b: seq<T>, key: T -> seq<string>)
    requires multiset(a) == multiset(b) && KeyDecides(a, key)
    ensures StableSort(a, key) == StableSort(b, key)
  {
    StableSortCorrect(a, key);
    StableSortCorrect(b, key);
    forall x | x in StableSort(a, key) ensures x in a {
      assert x in multiset(StableSort(a, key));
    }
    SortedUnique(StableSort(a, key), StableSort(b, key), key);
  }

  /** Two lists with the same key at every place and the same ties are the same list. */
  lemma {:induction false} WithKeyDetermines<T>(a: seq<T>, b: seq<T>, key: T -> seq<string>, k: seq<string>)
    requires |a| == |b| && forall i :: 0 <= i < |a| ==> key(a[i]) == key(b[i])
    requires WithKey(a, key, k) == WithKey(b, key, k)
    ensures forall i :: 0 <= i < |a| && key(a[i]) == k ==> a[i] == b[i]
  {
    if a != [] {
      var n := |a| - 1;
      assert forall i :: 0 <= i < n ==> a[..n][i] == a[i] && b[..n][i] == b[i];
      var p, q := WithKey(a[..n], key, k), WithKey(b[..n], key, k);
      if key(a[n]) == k {
        assert p == (p + [a[n]])[..|p|] && q == (q + [b[n]])[..|q|];
        assert (p + [a[n]])[|p|] == a[n] && (q + [b[n]])[|q|] == b[n];
      } else {
        assert p + [] == p && q + [] == q;
      }
      WithKeyDetermines(a[..n], b[..n], key, k);
    }
  }

  // Strictly increasing lists

  ghost predicate StrictlySorted<T>(s: seq<T>, key: T -> seq<string>) {
    forall i, j :: 0 <= i < j < |s| ==> KeyLess(key(s[i]), key(s[j]))
  }

  ghost predicate DistinctKeys<T>(s: seq<T>, key: T -> seq<string>) {
    forall i, j :: 0 <= i < j < |s| ==> key(s[i]) != key(s[j])
  }

  lemma {:induction false} DistinctCounts<T>(s: seq<T>, key: T -> seq<string>, x: T)
    requires DistinctKeys(s, key)
    ensures multiset(s)[x] == if x in s then 1 else 0
  {
    if s != [] {
      var n := |s| - 1;
      DistinctCounts(s[..n], key, x);
      assert s == s[..n] + [s[n]];
    }
  }

  lemma SameElements<T>(a: seq<T>, b: seq<T>)
    requires multiset(a) == multiset(b)
    ensures forall x :: x in a <==> x in b
  {
    forall x ensures x in a <==> x in b {
      assert x in a <==> x in multiset(a);
      assert x in b <==> x in multiset(b);
    }
  }

  lemma TwiceInOne<T>(s: seq<T>, i: nat, j: nat)
    requires i < j < |s| && s[i] == s[j]
    ensures multiset(s)[s[i]] >= 2
  {
    assert s == s[..i] + [s[i]] + s[i + 1..j] + [s[j]] + s[j + 1..];
  }

  lemma DistinctDecides<T>(s: seq<T>, key: T -> seq<string>)
    requires DistinctKeys(s, key)
    ensures KeyDecides(s, key)
  {
  }

  /** A list without ties sorts to a strictly increasing list of the same elements. */
  lemma SortStrict<T>(s: seq<T>, key: T -> seq<string>)
    requires DistinctKeys(s, key)
    ensures StrictlySorted(StableSort(s, key), key)
    ensures forall x :: x in StableSort(s, key) <==> x in s
  {
    hide StableSort;
    StableSortCorrect(s, key);
    var r := StableSort(s, key);
    SameElements(r, s);
    forall i, j | 0 <= i < j < |r| ensures KeyLess(key(r[i]), key(r[j])) {
      KeyLessTotal(key(r[i]), key(r[j]));
      if key(r[i]) == key(r[j]) {
        assert r[i] in multiset(r) && r[j] in multiset(r);
        assert r[i] in s && r[j] in s;
        DistinctDecides(s, key);
        TwiceInOne(r, i, j);
        DistinctCounts(s, key, r[i]);
      }
    }
  }

  /** A strictly increasing list is determined by its elements. */
  lemma StrictUnique<T>(a: seq<T>, b: seq<T>, key: T -> seq<string>)
    requires StrictlySorted(a, key) && StrictlySorted(b, key) && forall x :: x in a <==> x in b
    ensures a == b
  {
    StrictIsSorted(a, key);
    StrictIsSorted(b, key);
    forall x ensures multiset(a)[x] == multiset(b)[x] {
      DistinctCounts(a, key, x);
      DistinctCounts(b, key, x);
    }
    assert multiset(a) == multiset(b);
    SortedUnique(a, b, key);
  }

  lemma StrictIsSorted<T>(s: seq<T>, key: T -> seq<string>)
    requires StrictlySorted(s, key)
    ensures Sorted(s, key) && DistinctKeys(s, key) && KeyDecides(s, key)
  {
    forall i, j | 0 <= i < j < |s| ensures !KeyLess(key(s[j]), key(s[i])) && key(s[i]) != key(s[j]) {
      KeyLessTotal(key(s[i]), key(s[j]));
    }
  }
}
