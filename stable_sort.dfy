/**
 * The stable sort `Array.prototype.sort` performs with a numeric comparator
 * `(a, b) => key(a) - key(b)`: elements end up in non-decreasing key order and
 * elements with equal keys keep their original relative order.
 *
 * The specification is insertion sort on sequences (`Sort`); `SortInPlace`
 * is the same algorithm on an array, proved to produce exactly `Sort`.
 */
module StableSort {

  predicate Sorted<T>(s: seq<T>, key: T -> int) {
    forall i, j :: 0 <= i < j < |s| ==> key(s[i]) <= key(s[j])
  }

  /** The elements of `s` whose key is `k`, in the order `s` has them. */
  function WithKey<T>(s: seq<T>, key: T -> int, k: int): seq<T> {
    if s == [] then []
    else WithKey(s[..|s| - 1], key, k) + (if key(s[|s| - 1]) == k then [s[|s| - 1]] else [])
  }

  /**
   * Inserting `x` behind a sorted run: `x` moves left past every element whose
   * key is strictly greater (the comparator is positive) and stops behind the
   * first one that is not.
   */
  function Insert<T>(t: seq<T>, x: T, key: T -> int): seq<T> {
    if t == [] then [x]
    else if key(t[|t| - 1]) <= key(x) then t + [x]
    else Insert(t[..|t| - 1], x, key) + [t[|t| - 1]]
  }

  function Sort<T>(s: seq<T>, key: T -> int): seq<T> {
    if s == [] then [] else Insert(Sort(s[..|s| - 1], key), s[|s| - 1], key)
  }

  lemma {:induction false} InsertPermutes<T>(t: seq<T>, x: T, key: T -> int)
    ensures multiset(Insert(t, x, key)) == multiset(t) + multiset{x}
    decreases |t|
  {
    if t != [] && key(t[|t| - 1]) > key(x) {
      var t', last := t[..|t| - 1], t[|t| - 1];
      assert t == t' + [last];
      InsertPermutes(t', x, key);
    }
  }

  lemma {:induction false} InsertSorted<T>(t: seq<T>, x: T, key: T -> int)
    requires Sorted(t, key)
    ensures Sorted(Insert(t, x, key), key)
    decreases |t|
  {
    if t != [] && key(t[|t| - 1]) > key(x) {
      var t', last := t[..|t| - 1], t[|t| - 1];
      assert t == t' + [last];
      InsertSorted(t', x, key);
      InsertPermutes(t', x, key);
      var u := Insert(t', x, key);
      forall i | 0 <= i < |u| ensures key(u[i]) <= key(last) {
        assert u[i] in multiset(u);
        if u[i] != x {
          assert u[i] in multiset(t');
        }
      }
    }
  }

  lemma {:induction false} InsertStable<T>(t: seq<T>, x: T, key: T -> int, k: int)
    ensures WithKey(Insert(t, x, key), key, k) == WithKey(t, key, k) + (if key(x) == k then [x] else [])
    decreases |t|
  {
    if t == [] {
      assert WithKey([x], key, k) == WithKey([], key, k) + (if key(x) == k then [x] else []);
    } else if key(t[|t| - 1]) <= key(x) {
      assert (t + [x])[..|t|] == t;
    } else {
      var t', last := t[..|t| - 1], t[|t| - 1];
      InsertStable(t', x, key, k);
      var u := Insert(t', x, key);
      assert (u + [last])[..|u|] == u;
    }
  }

  /**
   * The sort result is in non-decreasing key order, is a permutation of its
   * input, and lists the elements of each key in their input order.
   */
  lemma {:induction false} SortProperties<T>(s: seq<T>, key: T -> int)
    ensures Sorted(Sort(s, key), key)
    ensures multiset(Sort(s, key)) == multiset(s)
    ensures forall k :: WithKey(Sort(s, key), key, k) == WithKey(s, key, k)
    decreases |s|
  {
    if s != [] {
      var s', last := s[..|s| - 1], s[|s| - 1];
      assert s == s' + [last];
      SortProperties(s', key);
      InsertPermutes(Sort(s', key), last, key);
      InsertSorted(Sort(s', key), last, key);
      forall k ensures WithKey(Sort(s, key), key, k) == WithKey(s, key, k) {
        InsertStable(Sort(s', key), last, key, k);
      }
    }
  }

  /** Sorting a sorted sequence changes nothing; in particular sorting twice is sorting once. */
  lemma {:induction false} SortOfSorted<T>(s: seq<T>, key: T -> int)
    requires Sorted(s, key)
    ensures Sort(s, key) == s
    decreases |s|
  {
    if s != [] {
      var s' := s[..|s| - 1];
      assert Sorted(s', key);
      SortOfSorted(s', key);
      assert s' + [s[|s| - 1]] == s;
    }
  }

  lemma SortIdempotent<T>(s: seq<T>, key: T -> int)
    ensures Sort(Sort(s, key), key) == Sort(s, key)
  {
    SortProperties(s, key);
    SortOfSorted(Sort(s, key), key);
  }

  /**
   * Where `Insert` puts `x`: right behind position `j` when everything from
   * `j` on has a greater key and the element before `j` (if any) does not.
   */
  lemma {:induction false} InsertSplit<T>(run: seq<T>, x: T, j: nat, key: T -> int)
    requires j <= |run| && (j == 0 || key(run[j - 1]) <= key(x))
    requires forall m :: j <= m < |run| ==> key(run[m]) > key(x)
    ensures Insert(run, x, key) == run[..j] + [x] + run[j..]
    decreases |run|
  {
    if |run| == j {
      assert run[..j] == run && run[j..] == [];
    } else {
      var run', last := run[..|run| - 1], run[|run| - 1];
      InsertSplit(run', x, j, key);
      assert run'[..j] == run[..j];
      assert run'[j..] + [last] == run[j..];
    }
  }

  /** Moves `a[i]` left into the sorted run `a[..i]`, shifting later-keyed elements right. */
  method InsertInPlace<T>(a: array<T>, i: nat, key: T -> int)
    requires i < a.Length
    modifies a
    ensures a[..i + 1] == Insert(old(a[..i]), old(a[i]), key)
    ensures a[i + 1..] == old(a[i + 1..])
  {
    ghost var run := a[..i];
    var x := a[i];
    var j := i;
    while j > 0 && key(a[j - 1]) > key(x)
      invariant 0 <= j <= i
      invariant forall m :: 0 <= m < j ==> a[m] == run[m]
      invariant forall m :: j < m <= i ==> a[m] == run[m - 1]
      invariant forall m :: i < m < a.Length ==> a[m] == old(a[m])
      invariant forall m :: j <= m < i ==> key(run[m]) > key(x)
    {
      a[j] := a[j - 1];
      j := j - 1;
    }
    InsertSplit(run, x, j, key);
    a[j] := x;
    ghost var want := run[..j] + [x] + run[j..];
    assert |want| == i + 1;
    forall m | 0 <= m <= i ensures a[m] == want[m] {
      if m > j {
        assert want[m] == run[j..][m - j - 1];
      }
    }
    assert a[..i + 1] == want;
  }

  /** Insertion sort in place; the result is `Sort` of the original contents. */
  method SortInPlace<T>(a: array<T>, key: T -> int)
    modifies a
    ensures a[..] == Sort(old(a[..]), key)
  {
    var i := 0;
    while i < a.Length
      invariant 0 <= i <= a.Length
      invariant a[..i] == Sort(old(a[..])[..i], key)
      invariant a[i..] == old(a[..])[i..]
    {
      ghost var before := a[..];
      InsertInPlace(a, i, key);
      assert old(a[..])[..i + 1][..i] == old(a[..])[..i];
      assert before[i] == old(a[..])[i];
      i := i + 1;
    }
    assert old(a[..])[..a.Length] == old(a[..]);
  }
}
