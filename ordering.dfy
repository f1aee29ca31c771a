/**
 * Python's `sorted(items, key=..., reverse=...)`: a stable sort. It is
 * modelled by insertion sort, where `le(a, b)` says that key `a` may come
 * before key `b`; `reverse=True` is sorting with the converse order, which
 * Python keeps stable.
 */
module Ordering {
  import opened Layout

  /** Insert `x` before the first element whose key it may precede. */
  function Insert<K>(x: Category, t: seq<Category>, key: Category -> K, le: (K, K) -> bool): (r: seq<Category>)
    ensures |r| == |t| + 1
    ensures multiset(r) == multiset(t) + multiset{x}
    ensures forall y :: y in r <==> y == x || y in t
  {
    if t == [] then [x]
    else if le(key(x), key(t[0])) then [x] + t
    else
      assert t == [t[0]] + t[1..];
      [t[0]] + Insert(x, t[1..], key, le)
  }

  /** `sorted(s, key=key)` under the order `le`. */
  function SortBy<K>(s: seq<Category>, key: Category -> K, le: (K, K) -> bool): (r: seq<Category>)
    ensures |r| == |s|
    ensures multiset(r) == multiset(s)
  {
    if s == [] then []
    else
      assert s == [s[0]] + s[1..];
      Insert(s[0], SortBy(s[1..], key, le), key, le)
  }

  ghost predicate Reflexive<K(!new)>(le: (K, K) -> bool) {
    forall a :: le(a, a)
  }

  ghost predicate TotalPreorder<K(!new)>(le: (K, K) -> bool) {
    (forall a, b :: le(a, b) || le(b, a)) &&
    (forall a, b, c :: le(a, b) && le(b, c) ==> le(a, c))
  }

  ghost predicate SortedBy<K>(s: seq<Category>, key: Category -> K, le: (K, K) -> bool) {
    forall i, j :: 0 <= i < j < |s| ==> le(key(s[i]), key(s[j]))
  }

  /** The elements of `s` whose key is `k`, in the order of `s`. */
  function WithKey<K(==)>(s: seq<Category>, key: Category -> K, k: K): (r: seq<Category>)
    ensures |r| <= |s|
  {
    if s == [] then []
    else if key(s[0]) == k then [s[0]] + WithKey(s[1..], key, k)
    else WithKey(s[1..], key, k)
  }

  lemma {:induction false} InsertSorted<K(!new)>(x: Category, t: seq<Category>, key: Category -> K, le: (K, K) -> bool)
    requires TotalPreorder(le)
    requires SortedBy(t, key, le)
    ensures SortedBy(Insert(x, t, key, le), key, le)
  {
    if t == [] {
    } else if le(key(x), key(t[0])) {
      var r := [x] + t;
      forall i, j | 0 <= i < j < |r| ensures le(key(r[i]), key(r[j])) {
        if i > 0 {
          assert r[i] == t[i - 1] && r[j] == t[j - 1];
        } else {
          assert r[j] == t[j - 1];
          assert le(key(t[0]), key(t[j - 1])) || j - 1 == 0;
        }
      }
    } else {
      var t' := t[1..];
      assert SortedBy(t', key, le) by {
        forall i, j | 0 <= i < j < |t'| ensures le(key(t'[i]), key(t'[j])) {
          assert t'[i] == t[i + 1] && t'[j] == t[j + 1];
        }
      }
      InsertSorted(x, t', key, le);
      var ins := Insert(x, t', key, le);
      var r := [t[0]] + ins;
      assert le(key(t[0]), key(x));
      forall y | y in ins ensures le(key(t[0]), key(y)) {
        if y != x {
          var m :| 0 <= m < |t'| && t'[m] == y;
          assert t[m + 1] == y;
        }
      }
      forall i, j | 0 <= i < j < |r| ensures le(key(r[i]), key(r[j])) {
        if i == 0 {
          assert r[j] in ins;
        } else {
          assert r[i] == ins[i - 1] && r[j] == ins[j - 1];
        }
      }
    }
  }

  /** Under a total preorder the result of SortBy is in order. */
  lemma {:induction false} SortBySorted<K(!new)>(s: seq<Category>, key: Category -> K, le: (K, K) -> bool)
    requires TotalPreorder(le)
    ensures SortedBy(SortBy(s, key, le), key, le)
  {
    if s != [] {
      SortBySorted(s[1..], key, le);
      InsertSorted(s[0], SortBy(s[1..], key, le), key, le);
    }
  }

  lemma {:induction false} InsertWithKey<K(!new)>(x: Category, t: seq<Category>, key: Category -> K, le: (K, K) -> bool, k: K)
    requires Reflexive(le)
    ensures WithKey(Insert(x, t, key, le), key, k) == WithKey([x] + t, key, k)
  {
    if t == [] {
    } else if le(key(x), key(t[0])) {
    } else {
      InsertWithKey(x, t[1..], key, le, k);
      assert [t[0]] + Insert(x, t[1..], key, le) == Insert(x, t, key, le);
      assert ([x] + t)[1..] == t;
      assert ([x] + t[1..])[1..] == t[1..];
      assert t == [t[0]] + t[1..];
      if key(x) == k {
        assert key(t[0]) != k;
      }
    }
  }

  lemma {:induction false} WithKeyConcat<K(!new)>(a: seq<Category>, b: seq<Category>, key: Category -> K, k: K)
    ensures WithKey(a + b, key, k) == WithKey(a, key, k) + WithKey(b, key, k)
  {
    if a == [] {
      assert a + b == b;
    } else {
      WithKeyConcat(a[1..], b, key, k);
      assert (a + b)[0] == a[0];
      assert (a + b)[1..] == a[1..] + b;
    }
  }

  /** Stability: the categories sharing one key keep their relative input order. */
  lemma {:induction false} SortByStable<K(!new)>(s: seq<Category>, key: Category -> K, le: (K, K) -> bool, k: K)
    requires Reflexive(le)
    ensures WithKey(SortBy(s, key, le), key, k) == WithKey(s, key, k)
  {
    if s != [] {
      SortByStable(s[1..], key, le, k);
      InsertWithKey(s[0], SortBy(s[1..], key, le), key, le, k);
      WithKeyConcat([s[0]], SortBy(s[1..], key, le), key, k);
      WithKeyConcat([s[0]], s[1..], key, k);
      assert s == [s[0]] + s[1..];
    }
  }

  /** Input already in order (adjacent keys in `le`) is left as it is. */
  lemma {:induction false} SortByOfOrdered<K>(s: seq<Category>, key: Category -> K, le: (K, K) -> bool)
    requires forall i :: 0 <= i < |s| - 1 ==> le(key(s[i]), key(s[i + 1]))
    ensures SortBy(s, key, le) == s
  {
    if s != [] {
      SortByOfOrdered(s[1..], key, le);
      assert SortBy(s, key, le) == Insert(s[0], s[1..], key, le);
      if |s| > 1 {
        assert s[1..][0] == s[1];
        assert Insert(s[0], s[1..], key, le) == [s[0]] + s[1..];
      }
      assert s == [s[0]] + s[1..];
    }
  }

  /** The orders the strategies use. */
  predicate AtLeast(a: real, b: real) { a >= b }
  predicate AtMost(a: real, b: real) { a <= b }
  predicate IntAtMost(a: int, b: int) { a <= b }

  /** Python's `str` comparison `a <= b`: lexicographic by code point. */
  predicate StrLe(a: string, b: string) {
    if a == [] then true
    else if b == [] then false
    else if a[0] != b[0] then a[0] < b[0]
    else StrLe(a[1..], b[1..])
  }

  lemma {:induction false} StrLeReflexive(a: string)
    ensures StrLe(a, a)
  {
    if a != [] { StrLeReflexive(a[1..]); }
  }

  lemma {:induction false} StrLeTotal(a: string, b: string)
    ensures StrLe(a, b) || StrLe(b, a)
  {
    if a != [] && b != [] && a[0] == b[0] { StrLeTotal(a[1..], b[1..]); }
  }

  lemma {:induction false} StrLeTransitive(a: string, b: string, c: string)
    requires StrLe(a, b) && StrLe(b, c)
    ensures StrLe(a, c)
  {
    if a != [] && b != [] && c != [] && a[0] == b[0] && b[0] == c[0] {
      StrLeTransitive(a[1..], b[1..], c[1..]);
    }
  }

  lemma StrLeTotalPreorder()
    ensures TotalPreorder(StrLe)
  {
    forall a, b ensures StrLe(a, b) || StrLe(b, a) { StrLeTotal(a, b); }
    forall a, b, c | StrLe(a, b) && StrLe(b, c) ensures StrLe(a, c) { StrLeTransitive(a, b, c); }
  }
}
