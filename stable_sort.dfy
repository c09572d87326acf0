/**
 * The ordering LINQ's `OrderBy(...).ThenBy(...)` produces: a stable sort on
 * a key. Keys are sequences of integers compared lexicographically, so a
 * chain of `OrderBy`/`ThenBy`/`ThenByDescending` becomes one key whose
 * components are the successive criteria (a descending criterion is negated).
 */
module StableSort {

  /** Lexicographic order on integer keys. */
  predicate KeyLe(a: seq<int>, b: seq<int>) {
    if a == [] then true
    else if b == [] then false
    else a[0] < b[0] || (a[0] == b[0] && KeyLe(a[1..], b[1..]))
  }

  lemma {:induction false} KeyLeTotal(a: seq<int>, b: seq<int>)
    ensures KeyLe(a, b) || KeyLe(b, a)
  {
    if a != [] && b != [] && a[0] == b[0] {
      KeyLeTotal(a[1..], b[1..]);
    }
  }

  lemma {:induction false} KeyLeReflexive(a: seq<int>)
    ensures KeyLe(a, a)
  {
    if a != [] {
      KeyLeReflexive(a[1..]);
    }
  }

  lemma {:induction false} KeyLeTransitive(a: seq<int>, b: seq<int>, c: seq<int>)
    requires KeyLe(a, b) && KeyLe(b, c)
    ensures KeyLe(a, c)
  {
    if a != [] && b != [] && c != [] && a[0] == b[0] && b[0] == c[0] {
      KeyLeTransitive(a[1..], b[1..], c[1..]);
    }
  }

  lemma {:induction false} KeyLeAntisymmetric(a: seq<int>, b: seq<int>)
    requires KeyLe(a, b) && KeyLe(b, a)
    ensures a == b
  {
    if a != [] && b != [] {
      KeyLeAntisymmetric(a[1..], b[1..]);
      assert a == [a[0]] + a[1..] && b == [b[0]] + b[1..];
    }
  }

  /** Ascending by key. */
  predicate SortedBy<T>(s: seq<T>, key: T -> seq<int>) {
    forall i, j :: 0 <= i < j < |s| ==> KeyLe(key(s[i]), key(s[j]))
  }

  /** The elements whose key is `k`, in their order in `s`. */
  function WithKey<T>(s: seq<T>, key: T -> seq<int>, k: seq<int>): seq<T> {
    if s == [] then []
    else (if key(s[0]) == k then [s[0]] else []) + WithKey(s[1..], key, k)
  }

  /** Inserts `x` before the first element whose key is not below its own. */
  function Insert<T>(x: T, s: seq<T>, key: T -> seq<int>): seq<T> {
    if s == [] then [x]
    else if KeyLe(key(x), key(s[0])) then [x] + s
    else [s[0]] + Insert(x, s[1..], key)
  }

  /** The stable sort of `s` by `key`. */
  function SortBy<T>(s: seq<T>, key: T -> seq<int>): seq<T> {
    if s == [] then [] else Insert(s[0], SortBy(s[1..], key), key)
  }

  lemma {:induction false} InsertPermutes<T>(x: T, s: seq<T>, key: T -> seq<int>)
    ensures multiset(Insert(x, s, key)) == multiset(s) + multiset{x}
  {
    if s != [] && !KeyLe(key(x), key(s[0])) {
      InsertPermutes(x, s[1..], key);
      assert s == [s[0]] + s[1..];
    }
  }

  lemma {:induction false} InsertSorted<T>(x: T, s: seq<T>, key: T -> seq<int>)
    requires SortedBy(s, key)
    ensures SortedBy(Insert(x, s, key), key)
  {
    if s == [] {
    } else if KeyLe(key(x), key(s[0])) {
      ConsSorted(x, s, key);
    } else {
      InsertSorted(x, s[1..], key);
      HeadBelowInsert(x, s, key);
      ConsSorted(s[0], Insert(x, s[1..], key), key);
    }
  }

  /** A head no greater than the first element of a sorted sequence keeps it sorted. */
  lemma ConsSorted<T>(h: T, s: seq<T>, key: T -> seq<int>)
    requires SortedBy(s, key) && (s != [] ==> KeyLe(key(h), key(s[0])))
    ensures SortedBy([h] + s, key)
  {
    var r := [h] + s;
    forall i, j | 0 <= i < j < |r| ensures KeyLe(key(r[i]), key(r[j])) {
      if i == 0 && j > 1 {
        KeyLeTransitive(key(h), key(s[0]), key(s[j - 1]));
      }
    }
  }

  /** When `x` goes after the head, the head stays below everything the insertion yields. */
  lemma HeadBelowInsert<T>(x: T, s: seq<T>, key: T -> seq<int>)
    requires SortedBy(s, key) && s != [] && !KeyLe(key(x), key(s[0]))
    ensures var rest := Insert(x, s[1..], key);
      rest != [] && KeyLe(key(s[0]), key(rest[0]))
  {
    var rest := Insert(x, s[1..], key);
    InsertPermutes(x, s[1..], key);
    KeyLeTotal(key(x), key(s[0]));
    assert rest[0] in multiset(rest);
    if rest[0] != x {
      assert rest[0] in multiset(s[1..]);
      var k :| 0 <= k < |s[1..]| && s[1..][k] == rest[0];
      assert s[k + 1] == rest[0];
    }
  }

  /** Inserting `x` adds it to its key class ahead of the elements already there. */
  lemma {:induction false} InsertWithKey<T>(x: T, s: seq<T>, key: T -> seq<int>, k: seq<int>)
    ensures WithKey(Insert(x, s, key), key, k)
         == (if key(x) == k then [x] else []) + WithKey(s, key, k)
  {
    if s == [] {
      WithKeyCons(x, [], key, k);
    } else if KeyLe(key(x), key(s[0])) {
      WithKeyCons(x, s, key, k);
    } else {
      var rest := Insert(x, s[1..], key);
      InsertWithKey(x, s[1..], key, k);
      KeyLeReflexive(key(x));
      InsertLaterWithKey(x, s, rest, key, k);
    }
  }

  /** The step of `InsertWithKey` where `x` goes after the head, whose key differs from x's. */
  lemma InsertLaterWithKey<T>(x: T, s: seq<T>, rest: seq<T>, key: T -> seq<int>, k: seq<int>)
    requires s != [] && key(s[0]) != key(x)
    requires WithKey(rest, key, k) == (if key(x) == k then [x] else []) + WithKey(s[1..], key, k)
    ensures WithKey([s[0]] + rest, key, k) == (if key(x) == k then [x] else []) + WithKey(s, key, k)
  {
    WithKeyCons(s[0], rest, key, k);
    WithKeyCons(s[0], s[1..], key, k);
    assert [s[0]] + s[1..] == s;
  }

  lemma WithKeyCons<T>(h: T, t: seq<T>, key: T -> seq<int>, k: seq<int>)
    ensures WithKey([h] + t, key, k) == (if key(h) == k then [h] else []) + WithKey(t, key, k)
  {
    assert ([h] + t)[1..] == t;
  }

  /** `SortBy` orders by key. */
  lemma {:induction false} SortBySorted<T>(s: seq<T>, key: T -> seq<int>)
    ensures SortedBy(SortBy(s, key), key)
  {
    if s != [] {
      SortBySorted(s[1..], key);
      InsertSorted(s[0], SortBy(s[1..], key), key);
    }
  }

  /** `SortBy` keeps every element, as often as it occurs. */
  lemma {:induction false} SortByPermutes<T>(s: seq<T>, key: T -> seq<int>)
    ensures multiset(SortBy(s, key)) == multiset(s)
    ensures |SortBy(s, key)| == |s|
  {
    if s != [] {
      SortByPermutes(s[1..], key);
      InsertPermutes(s[0], SortBy(s[1..], key), key);
      assert s == [s[0]] + s[1..];
      assert |multiset(SortBy(s, key))| == |multiset(s)|;
    }
  }

  /** `SortBy` is stable: elements with equal keys keep their relative order. */
  lemma {:induction false} SortByStable<T>(s: seq<T>, key: T -> seq<int>, k: seq<int>)
    ensures WithKey(SortBy(s, key), key, k) == WithKey(s, key, k)
  {
    if s != [] {
      SortByStable(s[1..], key, k);
      InsertWithKey(s[0], SortBy(s[1..], key), key, k);
    }
  }

  /** A sequence already in key order is left as it is. */
  lemma {:induction false} SortBySortedInput<T>(s: seq<T>, key: T -> seq<int>)
    requires SortedBy(s, key)
    ensures SortBy(s, key) == s
  {
    if s != [] {
      SortBySortedInput(s[1..], key);
      if |s| > 1 {
        assert KeyLe(key(s[0]), key(s[1]));
      }
    }
  }

  // ---------------------------------------------------------------------
  // Sorting positions instead of values
  // ---------------------------------------------------------------------

  /** `f` applied to every element. */
  function MapSeq<A, B>(f: A -> B, s: seq<A>): (r: seq<B>)
    ensures |r| == |s|
    ensures forall i :: 0 <= i < |s| ==> r[i] == f(s[i])
  {
    seq(|s|, i requires 0 <= i < |s| => f(s[i]))
  }

  lemma MapSeqConcat<A, B>(f: A -> B, a: seq<A>, b: seq<A>)
    ensures MapSeq(f, a + b) == MapSeq(f, a) + MapSeq(f, b)
  {
    var r := MapSeq(f, a + b);
    forall i | |a| <= i < |a| + |b| ensures r[i] == MapSeq(f, b)[i - |a|] {
      assert (a + b)[i] == b[i - |a|];
    }
  }

  lemma MapSeqAppend<A, B>(f: A -> B, s: seq<A>, x: A)
    ensures MapSeq(f, s + [x]) == MapSeq(f, s) + [f(x)]
  {
    assert MapSeq(f, s + [x])[|s|] == f(x);
  }

  /** The positions 0 .. n-1 of a list of `n`, in order. */
  function Range(n: nat): (r: seq<nat>)
    ensures |r| == n
    ensures forall i :: 0 <= i < n ==> r[i] == i
  {
    seq(n, i => i)
  }

  /** No element occurs twice. */
  predicate Distinct<T(==)>(s: seq<T>) {
    forall i, j :: 0 <= i < j < |s| ==> s[i] != s[j]
  }

  /** Inserting into mapped values or mapping after inserting agree, when the key reads through the map. */
  lemma {:induction false} InsertMap<A, B>(x: A, s: seq<A>, f: A -> B, key: B -> seq<int>, keyF: A -> seq<int>)
    requires forall a :: keyF(a) == key(f(a))
    ensures MapSeq(f, Insert(x, s, keyF)) == Insert(f(x), MapSeq(f, s), key)
  {
    if s == [] {
    } else if KeyLe(keyF(x), keyF(s[0])) {
      assert MapSeq(f, [x] + s) == [f(x)] + MapSeq(f, s);
    } else {
      InsertMap(x, s[1..], f, key, keyF);
      assert MapSeq(f, s)[1..] == MapSeq(f, s[1..]);
      assert MapSeq(f, [s[0]] + Insert(x, s[1..], keyF)) == [f(s[0])] + MapSeq(f, Insert(x, s[1..], keyF));
    }
  }

  /** Sorting values, or sorting what they are images of by the key of the image, agree. */
  lemma {:induction false} SortByMap<A, B>(s: seq<A>, f: A -> B, key: B -> seq<int>, keyF: A -> seq<int>)
    requires forall a :: keyF(a) == key(f(a))
    ensures MapSeq(f, SortBy(s, keyF)) == SortBy(MapSeq(f, s), key)
  {
    if s != [] {
      SortByMap(s[1..], f, key, keyF);
      InsertMap(s[0], SortBy(s[1..], keyF), f, key, keyF);
      assert MapSeq(f, s)[1..] == MapSeq(f, s[1..]);
    }
  }

  lemma {:induction false} DistinctCount<T>(s: seq<T>, x: T)
    requires Distinct(s)
    ensures multiset(s)[x] <= 1
  {
    if s != [] {
      assert s == [s[0]] + s[1..];
      DistinctCount(s[1..], x);
      if s[0] == x {
        assert x !in s[1..];
      }
    }
  }

  /** A rearrangement of a sequence without repetitions has none either. */
  lemma PermutationDistinct<T>(a: seq<T>, b: seq<T>)
    requires multiset(a) == multiset(b) && Distinct(b)
    ensures Distinct(a)
  {
    forall i, j | 0 <= i < j < |a| ensures a[i] != a[j] {
      if a[i] == a[j] {
        var x := a[i];
        assert a == a[..i] + [x] + a[i + 1..j] + [x] + a[j + 1..];
        assert multiset(a)[x] >= 2;
        DistinctCount(b, x);
      }
    }
  }

  /** `p` lists each of the positions 0 .. n-1 exactly once. */
  predicate Rearranges(p: seq<nat>, n: nat) {
    |p| == n && (forall i :: 0 <= i < n ==> p[i] < n) && Distinct(p)
  }

  /**
   * Two sequences holding the same elements, each as often, are one
   * rearrangement of the other: `p` says where each element of `a` sits in `b`.
   */
  lemma {:induction false} MultisetRearranges<T>(a: seq<T>, b: seq<T>) returns (p: seq<nat>)
    requires multiset(a) == multiset(b)
    ensures |a| == |b| && Rearranges(p, |b|)
    ensures forall i :: 0 <= i < |a| ==> a[i] == b[p[i]]
    decreases |a|
  {
    assert |multiset(a)| == |a| && |multiset(b)| == |b|;
    if a == [] {
      p := [];
    } else {
      assert a == [a[0]] + a[1..];
      assert a[0] in multiset(b);
      var k :| 0 <= k < |b| && b[k] == a[0];
      var rest := RemoveAt(b, k);
      var q := MultisetRearranges(a[1..], rest);
      p := LiftPast(a, b, k, q);
    }
  }

  /** `b` without its element at `k`, and what that does to its multiset. */
  function RemoveAt<T>(b: seq<T>, k: nat): (r: seq<T>)
    requires k < |b|
    ensures |r| == |b| - 1 && multiset(r) == multiset(b) - multiset{b[k]}
    ensures forall i :: 0 <= i < |r| ==> r[i] == b[if i < k then i else i + 1]
  {
    assert b == b[..k] + [b[k]] + b[k + 1..];
    b[..k] + b[k + 1..]
  }

  /** A rearrangement of the rest of `a` onto `b` without `k`, with `a[0]` sent to `k`. */
  lemma LiftPast<T>(a: seq<T>, b: seq<T>, k: nat, q: seq<nat>) returns (p: seq<nat>)
    requires a != [] && k < |b| && b[k] == a[0]
    requires |a| == |b| && Rearranges(q, |b| - 1)
    requires forall i :: 0 <= i < |a| - 1 ==> a[1..][i] == RemoveAt(b, k)[q[i]]
    ensures Rearranges(p, |b|)
    ensures forall i :: 0 <= i < |a| ==> a[i] == b[p[i]]
  {
    var rest := RemoveAt(b, k);
    p := [k] + seq(|q|, i requires 0 <= i < |q| => if q[i] < k then q[i] else q[i] + 1);
    forall i | 0 < i < |a| ensures a[i] == b[p[i]] {
      assert a[i] == a[1..][i - 1] == rest[q[i - 1]];
    }
    forall i, j | 0 <= i < j < |p| ensures p[i] != p[j] {
      if i > 0 {
        assert q[i - 1] != q[j - 1];
      }
    }
  }

}
