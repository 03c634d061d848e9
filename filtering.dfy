/**
 * `Array.prototype.filter` on sequences: the elements that satisfy a
 * predicate, in their original order, each as often as it occurs.
 */
module Filtering {
  import opened StableSort

  function Filter<T>(s: seq<T>, p: T -> bool): (r: seq<T>)
    ensures |r| <= |s|
  {
    if s == [] then [] else (if p(s[0]) then [s[0]] else []) + Filter(s[1..], p)
  }

  /**
   * The filter keeps each element that satisfies `p` exactly as often as `s`
   * has it, and no other element.
   */
  lemma {:induction false} FilterCount<T(!new)>(s: seq<T>, p: T -> bool)
    ensures forall x :: multiset(Filter(s, p))[x] == if p(x) then multiset(s)[x] else 0
    ensures forall x :: x in Filter(s, p) <==> x in s && p(x)
    decreases |s|
  {
    if s != [] {
      assert s == [s[0]] + s[1..];
      FilterCount(s[1..], p);
      forall x ensures x in Filter(s, p) <==> x in s && p(x) {
        assert x in Filter(s, p) <==> x in multiset(Filter(s, p));
        assert x in s <==> x in multiset(s);
      }
    }
  }

  /** The predicate decides each element on its own: an element added at the end is kept at the end or dropped. */
  lemma {:induction false} FilterAppend<T>(s: seq<T>, x: T, p: T -> bool)
    ensures Filter(s + [x], p) == Filter(s, p) + (if p(x) then [x] else [])
    decreases |s|
  {
    if s == [] {
      assert ([] + [x])[1..] == [];
    } else {
      var head, tail := if p(s[0]) then [s[0]] else [], if p(x) then [x] else [];
      assert (s + [x])[0] == s[0] && (s + [x])[1..] == s[1..] + [x];
      FilterAppend(s[1..], x, p);
      assert Filter(s + [x], p) == head + (Filter(s[1..], p) + tail);
      assert Filter(s, p) == head + Filter(s[1..], p);
    }
  }

  /** Adding an element at the end adds it to its own key's elements only. */
  lemma WithKeyAppend<T>(s: seq<T>, x: T, key: T -> int, k: int)
    ensures WithKey(s + [x], key, k) == WithKey(s, key, k) + (if key(x) == k then [x] else [])
  {
    assert (s + [x])[..|s|] == s;
  }

  /** Taking the elements of one key commutes with filtering: both keep the original order. */
  lemma {:induction false} FilterWithKey<T>(s: seq<T>, p: T -> bool, key: T -> int, k: int)
    ensures WithKey(Filter(s, p), key, k) == Filter(WithKey(s, key, k), p)
    decreases |s|
  {
    if s != [] {
      var init, x := s[..|s| - 1], s[|s| - 1];
      assert s == init + [x];
      FilterWithKey(init, p, key, k);
      var f, w := Filter(init, p), WithKey(init, key, k);
      FilterAppend(init, x, p);
      if p(x) {
        assert Filter(s, p) == f + [x];
        WithKeyAppend(f, x, key, k);
      } else {
        assert Filter(s, p) == f;
      }
      WithKeyAppend(init, x, key, k);
      if key(x) == k {
        assert WithKey(s, key, k) == w + [x];
        FilterAppend(w, x, p);
      } else {
        assert WithKey(s, key, k) == w;
      }
    }
  }

  /** A sequence whose multiset is a single element is that one element. */
  lemma OnlyElement<T>(r: seq<T>, e: T)
    requires multiset(r) == multiset{e}
    ensures r == [e]
  {
    assert |r| == |multiset(r)| == 1;
    assert r[0] in multiset(r);
  }
}
