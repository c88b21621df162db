/**
 * `Array.prototype.sort` with a descending numeric comparator (`(a, b) => key(b) - key(a)`).
 * The ECMAScript sort is stable, so its result is fully determined: elements ordered by key,
 * largest first, and elements with equal keys kept in their input order. The model is an
 * in-place insertion sort on an array, specified by the functional insertion sort `SortedDesc`.
 */
module Sorting {
  import opened Seqs

  /** Inserts `x` into `t` after every element whose key is at least `x`'s. */
  function Insert<T>(t: seq<T>, x: T, key: T -> real): seq<T>
  {
    if t == [] || key(t[|t| - 1]) >= key(x) then t + [x]
    else Insert(t[..|t| - 1], x, key) + [t[|t| - 1]]
  }

  /** The stable descending sort of `s`: each element inserted in turn, as the insertion sort does. */
  function SortedDesc<T>(s: seq<T>, key: T -> real): seq<T>
  {
    if s == [] then [] else Insert(SortedDesc(s[..|s| - 1], key), s[|s| - 1], key)
  }

  /** Keys never increase from left to right. */
  ghost predicate Descending<T>(s: seq<T>, key: T -> real) {
    forall i, j :: 0 <= i < j < |s| ==> key(s[i]) >= key(s[j])
  }

  /** The elements of `s` whose key is `k`, in their order in `s`. */
  function WithKey<T>(s: seq<T>, key: T -> real, k: real): seq<T>
  {
    if s == [] then []
    else WithKey(s[..|s| - 1], key, k) + (if key(s[|s| - 1]) == k then [s[|s| - 1]] else [])
  }

  lemma {:induction false} InsertFacts<T>(t: seq<T>, x: T, key: T -> real)
    requires Descending(t, key)
    ensures |Insert(t, x, key)| == |t| + 1
    ensures multiset(Insert(t, x, key)) == multiset(t) + multiset{x}
    ensures Descending(Insert(t, x, key), key)
  {
    if t == [] || key(t[|t| - 1]) >= key(x) {
      assert Insert(t, x, key) == t + [x];
    } else {
      var init, last := t[..|t| - 1], t[|t| - 1];
      assert t == init + [last];
      assert Descending(init, key);
      InsertFacts(init, x, key);
      var u := Insert(init, x, key);
      assert Insert(t, x, key) == u + [last];
      // every element of u is an element of init or x, so none has a key below last's
      forall i | 0 <= i < |u| ensures key(u[i]) >= key(last) {
        assert u[i] in multiset(u);
        assert u[i] in multiset(init) || u[i] == x;
        if u[i] != x {
          var j :| 0 <= j < |init| && init[j] == u[i];
          assert t[j] == init[j];
        }
      }
      DescendingSnoc(u, last, key);
    }
  }

  lemma DescendingSnoc<T>(u: seq<T>, last: T, key: T -> real)
    requires Descending(u, key)
    requires forall i :: 0 <= i < |u| ==> key(u[i]) >= key(last)
    ensures Descending(u + [last], key)
  {
    var v := u + [last];
    forall i, j | 0 <= i < j < |v| ensures key(v[i]) >= key(v[j]) {
      assert v[i] == u[i];
      if j < |u| {
        assert v[j] == u[j];
      }
    }
  }

  lemma {:induction false} SortedDescFacts<T>(s: seq<T>, key: T -> real)
    ensures |SortedDesc(s, key)| == |s|
    ensures multiset(SortedDesc(s, key)) == multiset(s)
    ensures Descending(SortedDesc(s, key), key)
  {
    if s != [] {
      var init := s[..|s| - 1];
      SortedDescFacts(init, key);
      InsertFacts(SortedDesc(init, key), s[|s| - 1], key);
      assert s == init + [s[|s| - 1]];
    }
  }

  lemma {:induction false} WithKeyConcat<T>(a: seq<T>, b: seq<T>, key: T -> real, k: real)
    ensures WithKey(a + b, key, k) == WithKey(a, key, k) + WithKey(b, key, k)
  {
    if b != [] {
      var binit := b[..|b| - 1];
      WithKeyConcat(a, binit, key, k);
      assert (a + b)[..|a + b| - 1] == a + binit;
    } else {
      assert a + b == a;
    }
  }

  lemma WithKeySingle<T>(x: T, key: T -> real, k: real)
    ensures WithKey([x], key, k) == if key(x) == k then [x] else []
  {
    assert [x][..0] == [];
  }

  lemma {:induction false} InsertStable<T>(t: seq<T>, x: T, key: T -> real, k: real)
    ensures WithKey(Insert(t, x, key), key, k) == WithKey(t, key, k) + WithKey([x], key, k)
  {
    if t == [] || key(t[|t| - 1]) >= key(x) {
      assert Insert(t, x, key) == t + [x];
      WithKeyConcat(t, [x], key, k);
    } else {
      var init, last := t[..|t| - 1], t[|t| - 1];
      var u := Insert(init, x, key);
      assert Insert(t, x, key) == u + [last];
      InsertStable(init, x, key, k);
      WithKeyConcat(u, [last], key, k);
      WithKeySingle(x, key, k);
      WithKeySingle(last, key, k);
      var wi, wx, wl := WithKey(init, key, k), WithKey([x], key, k), WithKey([last], key, k);
      assert WithKey(t, key, k) == wi + wl;
      // key(last) < key(x): at most one of x and last has key k, so their order does not matter
      assert wx == [] || wl == [];
      assert wi + wx + wl == wi + wl + wx;
    }
  }

  /** Stability: for every key value, the elements carrying it keep their relative input order. */
  lemma {:induction false} SortedDescStable<T>(s: seq<T>, key: T -> real, k: real)
    ensures WithKey(SortedDesc(s, key), key, k) == WithKey(s, key, k)
  {
    if s != [] {
      var init, last := s[..|s| - 1], s[|s| - 1];
      SortedDescStable(init, key, k);
      InsertStable(SortedDesc(init, key), last, key, k);
      assert WithKey([last], key, k) == (if key(last) == k then [last] else []) by {
        assert [last][..0] == [];
      }
    }
  }

  /** The three facts that determine a stable sort: a permutation, in descending key order, stable. */
  lemma SortedDescSpec<T>(s: seq<T>, key: T -> real)
    ensures multiset(SortedDesc(s, key)) == multiset(s)
    ensures Descending(SortedDesc(s, key), key)
    ensures forall k :: WithKey(SortedDesc(s, key), key, k) == WithKey(s, key, k)
  {
    SortedDescFacts(s, key);
    forall k ensures WithKey(SortedDesc(s, key), key, k) == WithKey(s, key, k) {
      SortedDescStable(s, key, k);
    }
  }

  /** `Insert` puts `x` right after the last element whose key is at least `x`'s. */
  lemma {:induction false} InsertPosition<T>(t: seq<T>, j: nat, x: T, key: T -> real)
    requires j <= |t| && (j == 0 || key(t[j - 1]) >= key(x))
    requires forall k :: j <= k < |t| ==> key(t[k]) < key(x)
    ensures Insert(t, x, key) == t[..j] + [x] + t[j..]
  {
    if j < |t| {
      var init, last := t[..|t| - 1], t[|t| - 1];
      InsertPosition(init, j, x, key);
      assert init[..j] == t[..j];
      assert init[j..] + [last] == t[j..];
    }
  }

  /** One step of the insertion sort: moves `a[i]` into place within the sorted prefix `a[..i]`. */
  method InsertAt<T>(a: array<T>, i: nat, key: T -> real)
    requires i < a.Length
    modifies a
    ensures a[..i + 1] == Insert(old(a[..i]), old(a[i]), key)
    ensures forall k :: i < k < a.Length ==> a[k] == old(a[k])
  {
    var x := a[i];
    ghost var t := a[..i];
    var j := i;
    while j > 0 && key(a[j - 1]) < key(x)
      invariant 0 <= j <= i
      invariant forall k :: 0 <= k < j ==> a[k] == t[k]
      invariant forall k :: j < k <= i ==> a[k] == t[k - 1]
      invariant forall k :: i < k < a.Length ==> a[k] == old(a[k])
      invariant forall k :: j <= k < i ==> key(t[k]) < key(x)
    {
      a[j] := a[j - 1];
      j := j - 1;
    }
    a[j] := x;
    InsertPosition(t, j, x, key);
    ghost var r := t[..j] + [x] + t[j..];
    forall k | 0 <= k <= i ensures a[k] == r[k] {
      if k > j {
        assert r[k] == t[k - 1];
      }
    }
    assert a[..i + 1] == r;
  }

  /** Sorts `a` in place, largest key first, equal keys in their original order. */
  method SortDescending<T>(a: array<T>, key: T -> real)
    modifies a
    ensures a[..] == SortedDesc(old(a[..]), key)
  {
    ghost var orig := a[..];
    var i := 0;
    while i < a.Length
      invariant 0 <= i <= a.Length
      invariant a[..i] == SortedDesc(orig[..i], key)
      invariant forall k :: i <= k < a.Length ==> a[k] == orig[k]
    {
      InsertAt(a, i, key);
      assert orig[..i + 1][..i] == orig[..i];
      assert orig[..i + 1][i] == orig[i];
      i := i + 1;
    }
    assert orig[..a.Length] == orig;
  }
}
