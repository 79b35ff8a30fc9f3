/**
 * A plain JavaScript object used as a dictionary from strings to values.
 * Its keys come back from `Object.keys` / `Object.values` in insertion
 * order, so it is modelled as a list of (key, value) entries.
 */
module Dict {
  import opened Options

  function Keys<V>(d: seq<(string, V)>): (ks: seq<string>)
    ensures |ks| == |d|
    ensures forall i :: 0 <= i < |d| ==> ks[i] == d[i].0
  {
    seq(|d|, i requires 0 <= i < |d| => d[i].0)
  }

  function Values<V>(d: seq<(string, V)>): (vs: seq<V>)
    ensures |vs| == |d|
    ensures forall i :: 0 <= i < |d| ==> vs[i] == d[i].1
  {
    seq(|d|, i requires 0 <= i < |d| => d[i].1)
  }

  /** No key appears twice, as in any JavaScript object. */
  predicate DistinctKeys<V>(d: seq<(string, V)>) {
    forall i, j :: 0 <= i < j < |d| ==> d[i].0 != d[j].0
  }

  /** `d[k]`, with `undefined` as `None`. */
  function Get<V>(d: seq<(string, V)>, k: string): (r: Option<V>)
    ensures r.None? <==> k !in Keys(d)
    ensures r.Some? ==> exists i :: 0 <= i < |d| && d[i] == (k, r.value)
    decreases |d|
  {
    if d == [] then None
    else if d[0].0 == k then Some(d[0].1)
    else
      assert Keys(d[1..]) == Keys(d)[1..];
      Get(d[1..], k)
  }

  /** Looking up an entry's key gives its value when no earlier entry has that key. */
  lemma {:induction false} GetFirst<V>(d: seq<(string, V)>, i: nat)
    requires i < |d| && forall j :: 0 <= j < i ==> d[j].0 != d[i].0
    ensures Get(d, d[i].0) == Some(d[i].1)
    decreases |d|
  {
    if i > 0 {
      GetFirst(d[1..], i - 1);
    }
  }

  /** With distinct keys, looking up an entry's key gives that entry's value. */
  lemma GetEntry<V>(d: seq<(string, V)>, i: nat)
    requires DistinctKeys(d) && i < |d|
    ensures Get(d, d[i].0) == Some(d[i].1)
  {
    GetFirst(d, i);
  }

  /** `Object.values(d).reduce((sum, v) => sum + v, 0)`. */
  function Total(d: seq<(string, nat)>): nat
    decreases |d|
  {
    if d == [] then 0 else Total(d[..|d| - 1]) + d[|d| - 1].1
  }

  /** The total splits over a concatenation of entry lists. */
  lemma {:induction false} TotalAppend(a: seq<(string, nat)>, b: seq<(string, nat)>)
    ensures Total(a + b) == Total(a) + Total(b)
    decreases |b|
  {
    if b == [] {
      assert a + b == a;
    } else {
      assert (a + b)[..|a + b| - 1] == a + b[..|b| - 1];
      assert (a + b)[|a + b| - 1] == b[|b| - 1];
      TotalAppend(a, b[..|b| - 1]);
    }
  }

  /** `d[k] || 0` for a table of counts. */
  function GetOrZero(d: seq<(string, nat)>, k: string): nat {
    match Get(d, k)
    case Some(n) => n
    case None => 0
  }

  /**
   * `d[k] = v`: an existing key keeps its place and takes the new value; a
   * new key is added at the end.
   */
  function Set<V>(d: seq<(string, V)>, k: string, v: V): (r: seq<(string, V)>)
    ensures Keys(r) == if k in Keys(d) then Keys(d) else Keys(d) + [k]
    decreases |d|
  {
    if d == [] then [(k, v)]
    else if d[0].0 == k then
      assert Keys([(k, v)] + d[1..]) == Keys(d);
      [(k, v)] + d[1..]
    else
      var rest := Set(d[1..], k, v);
      assert Keys(d[1..]) == Keys(d)[1..];
      assert Keys([d[0]] + rest) == [d[0].0] + Keys(rest);
      [d[0]] + rest
  }

  /** After `d[k] = v`, `k` reads `v` and every other key reads as before. */
  lemma {:induction false} SetGet<V>(d: seq<(string, V)>, k: string, v: V, k': string)
    ensures Get(Set(d, k, v), k') == if k' == k then Some(v) else Get(d, k')
    decreases |d|
  {
    if d != [] && d[0].0 != k {
      SetGet(d[1..], k, v, k');
      assert ([d[0]] + Set(d[1..], k, v))[1..] == Set(d[1..], k, v);
    } else if d != [] {
      assert ([(k, v)] + d[1..])[1..] == d[1..];
    }
  }

  /** Assignment keeps the keys distinct. */
  lemma SetDistinct<V>(d: seq<(string, V)>, k: string, v: V)
    requires DistinctKeys(d)
    ensures DistinctKeys(Set(d, k, v))
  {
    var r := Set(d, k, v);
    assert forall i :: 0 <= i < |r| ==> r[i].0 == Keys(r)[i];
    assert forall i :: 0 <= i < |d| ==> d[i].0 == Keys(d)[i];
  }

  /** Assigning `v` to `k` changes the total by `v` minus the old count of `k`. */
  lemma {:induction false} TotalSet(d: seq<(string, nat)>, k: string, v: nat)
    requires DistinctKeys(d)
    ensures Total(Set(d, k, v)) + GetOrZero(d, k) == Total(d) + v
    decreases |d|
  {
    assert d == [] || d == [d[0]] + d[1..];
    if d == [] {
      assert Total([(k, v)]) == Total([]) + v;
    } else if d[0].0 == k {
      TotalAppend([(k, v)], d[1..]);
      TotalAppend([d[0]], d[1..]);
      assert Total([(k, v)]) == Total([]) + v;
      assert Total([d[0]]) == Total([]) + d[0].1;
    } else {
      TotalSet(d[1..], k, v);
      TotalAppend([d[0]], Set(d[1..], k, v));
      TotalAppend([d[0]], d[1..]);
      assert Total([d[0]]) == Total([]) + d[0].1;
      assert Keys(d[1..]) == Keys(d)[1..];
    }
  }

  /** A list with no repeated key has as many keys as distinct keys. */
  lemma {:induction false} DistinctCard(ks: seq<string>)
    requires forall i, j :: 0 <= i < j < |ks| ==> ks[i] != ks[j]
    ensures |set k | k in ks| == |ks|
    decreases |ks|
  {
    if ks != [] {
      var init := ks[..|ks| - 1];
      DistinctCard(init);
      assert (set k | k in ks) == (set k | k in init) + {ks[|ks| - 1]};
      assert ks[|ks| - 1] !in (set k | k in init);
    }
  }
}
