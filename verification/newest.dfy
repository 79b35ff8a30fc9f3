/**
 * Newest-first ordering of releases, as done by
 * `list.sort((a, b) => new Date(b.published_at) - new Date(a.published_at))`.
 * `key` gives an element's publication time in milliseconds. JavaScript's
 * sort is stable, so elements with equal keys keep their relative order:
 * `SortNewestFirst` is the stable insertion sort that specifies the result,
 * and `SortInPlace` is the in-place array version proved equal to it.
 */
module Newest {
  import opened Options
  import opened Seqs

  /** Non-increasing by key: every element is at least as new as any later one. */
  predicate NewestFirst<T>(s: seq<T>, key: T -> int) {
    forall i, j :: 0 <= i < j < |s| ==> key(s[i]) >= key(s[j])
  }

  /**
   * Inserts `x` into the newest-first list `t`, after every element at least
   * as new as it (so an equal key keeps `x` after the elements already there).
   */
  function Insert<T>(x: T, t: seq<T>, key: T -> int): (r: seq<T>)
    ensures |r| == |t| + 1
    decreases |t|
  {
    if t == [] || key(t[|t| - 1]) >= key(x) then t + [x]
    else Insert(x, t[..|t| - 1], key) + [t[|t| - 1]]
  }

  function SortNewestFirst<T>(s: seq<T>, key: T -> int): (r: seq<T>)
    ensures |r| == |s|
    decreases |s|
  {
    if s == [] then [] else Insert(s[|s| - 1], SortNewestFirst(s[..|s| - 1], key), key)
  }

  lemma {:induction false} InsertPermutes<T>(x: T, t: seq<T>, key: T -> int)
    ensures multiset(Insert(x, t, key)) == multiset(t) + multiset{x}
    decreases |t|
  {
    if !(t == [] || key(t[|t| - 1]) >= key(x)) {
      InsertPermutes(x, t[..|t| - 1], key);
      assert t == t[..|t| - 1] + [t[|t| - 1]];
    }
  }

  /**
   * Where the insertion lands: right after the last element at least as new
   * as `x`, so every later element is strictly older and an element with an
   * equal key stays ahead of `x`. This is what keeps the sort stable.
   */
  lemma {:induction false} InsertPosition<T>(x: T, t: seq<T>, key: T -> int)
    ensures exists p :: 0 <= p <= |t| && Insert(x, t, key) == t[..p] + [x] + t[p..]
                        && (p > 0 ==> key(t[p - 1]) >= key(x))
                        && forall i :: p <= i < |t| ==> key(t[i]) < key(x)
    decreases |t|
  {
    if t == [] || key(t[|t| - 1]) >= key(x) {
      assert Insert(x, t, key) == t[..|t|] + [x] + t[|t|..];
    } else {
      var init, last := t[..|t| - 1], t[|t| - 1];
      InsertPosition(x, init, key);
      var p :| 0 <= p <= |init| && Insert(x, init, key) == init[..p] + [x] + init[p..]
               && (p > 0 ==> key(init[p - 1]) >= key(x))
               && forall i :: p <= i < |init| ==> key(init[i]) < key(x);
      assert t[..p] == init[..p] && t[p..] == init[p..] + [last];
      assert Insert(x, t, key) == t[..p] + [x] + t[p..];
    }
  }

  lemma {:induction false} InsertKeepsOrder<T>(x: T, t: seq<T>, key: T -> int)
    requires NewestFirst(t, key)
    ensures NewestFirst(Insert(x, t, key), key)
    decreases |t|
  {
    if !(t == [] || key(t[|t| - 1]) >= key(x)) {
      var init, last := t[..|t| - 1], t[|t| - 1];
      InsertKeepsOrder(x, init, key);
      InsertPermutes(x, init, key);
      var r := Insert(x, init, key);
      forall i | 0 <= i < |r|
        ensures key(r[i]) >= key(last)
      {
        assert r[i] in multiset(init) + multiset{x};
        if r[i] != x {
          var k :| 0 <= k < |init| && init[k] == r[i];
        }
      }
    }
  }

  /** The sorted list is ordered newest first. */
  lemma {:induction false} SortOrders<T>(s: seq<T>, key: T -> int)
    ensures NewestFirst(SortNewestFirst(s, key), key)
    decreases |s|
  {
    if s != [] {
      SortOrders(s[..|s| - 1], key);
      InsertKeepsOrder(s[|s| - 1], SortNewestFirst(s[..|s| - 1], key), key);
    }
  }

  /** The sorted list is a permutation of the input. */
  lemma {:induction false} SortPermutes<T>(s: seq<T>, key: T -> int)
    ensures multiset(SortNewestFirst(s, key)) == multiset(s)
    decreases |s|
  {
    if s != [] {
      SortPermutes(s[..|s| - 1], key);
      InsertPermutes(s[|s| - 1], SortNewestFirst(s[..|s| - 1], key), key);
      assert s == s[..|s| - 1] + [s[|s| - 1]];
    }
  }

  /**
   * After sorting, the first element satisfying `p` is at least as new as
   * every element of the input that satisfies `p`: `sorted.find(p)` picks a
   * newest match.
   */
  lemma FirstMatchIsNewest<T>(s: seq<T>, key: T -> int, p: T -> bool, y: T)
    requires y in s && p(y)
    ensures FindIndex(SortNewestFirst(s, key), p).Some?
    ensures key(SortNewestFirst(s, key)[FindIndex(SortNewestFirst(s, key), p).value]) >= key(y)
  {
    var sorted := SortNewestFirst(s, key);
    SortPermutes(s, key);
    SortOrders(s, key);
    assert y in multiset(sorted);
    var m :| 0 <= m < |sorted| && sorted[m] == y;
  }

  /**
   * `array.sort(...)` on the array itself, by insertion: each element is
   * moved left past the strictly older ones.
   */
  method SortInPlace<T>(a: array<T>, key: T -> int)
    modifies a
    ensures a[..] == SortNewestFirst(old(a[..]), key)
  {
    ghost var s := a[..];
    var i := 0;
    while i < a.Length
      invariant 0 <= i <= a.Length
      invariant a[..i] == SortNewestFirst(s[..i], key)
      invariant a[i..] == s[i..]
    {
      assert a[i] == s[i] && a[i + 1..] == s[i + 1..] by {
        assert a[i..][0] == a[i] && a[i..][1..] == a[i + 1..];
      }
      SortStep(s, i, key);
      InsertLast(a, i, key);
      i := i + 1;
    }
    assert s[..a.Length] == s;
  }

  /** Sorting one more element is inserting it into the sorted prefix. */
  lemma SortStep<T>(s: seq<T>, i: nat, key: T -> int)
    requires i < |s|
    ensures SortNewestFirst(s[..i + 1], key) == Insert(s[i], SortNewestFirst(s[..i], key), key)
  {
    assert s[..i + 1][..i] == s[..i] && s[..i + 1][i] == s[i];
  }

  /** One step of the sort: inserts `a[i]` into the newest-first prefix `a[..i]`. */
  method InsertLast<T>(a: array<T>, i: nat, key: T -> int)
    requires i < a.Length
    modifies a
    ensures a[..i + 1] == Insert(old(a[i]), old(a[..i]), key)
    ensures a[i + 1..] == old(a[i + 1..])
  {
    var x := a[i];
    ghost var t, rest := a[..i], a[i + 1..];
    assert a[..] == t + [x] + rest by {
      assert a[..] == a[..i] + [a[i]] + a[i + 1..];
    }
    assert t[..i] == t && t[i..] == [];
    var j := i;
    while j > 0 && key(a[j - 1]) < key(x)
      invariant 0 <= j <= i
      invariant a[..] == t[..j] + [a[j]] + t[j..] + rest
      invariant Insert(x, t, key) == Insert(x, t[..j], key) + t[j..]
    {
      InsertStep(x, t, j, key);
      Shift(t, j, a[j], rest);
      a[j] := a[j - 1];
      j := j - 1;
    }
    InsertStops(x, t, j, key);
    a[j] := x;
    assert a[..] == Insert(x, t, key) + rest;
    assert a[..][..i + 1] == a[..i + 1] && a[..][i + 1..] == a[i + 1..];
  }

  /** Copying `t[j - 1]` into the hole at `j` moves the hole one cell left. */
  lemma Shift<T>(t: seq<T>, j: nat, h: T, rest: seq<T>)
    requires 0 < j <= |t|
    ensures (t[..j] + [h] + t[j..] + rest)[j := t[j - 1]]
            == t[..j - 1] + [t[j - 1]] + t[j - 1..] + rest
  {
  }

  /** The insertion stops in front of an element at least as new as `x`. */
  lemma InsertStops<T>(x: T, t: seq<T>, j: nat, key: T -> int)
    requires j <= |t| && (j == 0 || key(t[j - 1]) >= key(x))
    ensures Insert(x, t[..j], key) == t[..j] + [x]
  {
  }

  /** Moving `x` left past an older element `t[j - 1]`. */
  lemma InsertStep<T>(x: T, t: seq<T>, j: nat, key: T -> int)
    requires 0 < j <= |t| && key(t[j - 1]) < key(x)
    ensures Insert(x, t[..j], key) + t[j..] == Insert(x, t[..j - 1], key) + t[j - 1..]
  {
    assert t[..j][..j - 1] == t[..j - 1] && t[..j][j - 1] == t[j - 1];
    assert [t[j - 1]] + t[j..] == t[j - 1..];
  }
}
