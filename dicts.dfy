/** Python's insertion-ordered `dict` with string keys, as an association list.
    Assigning to an existing key keeps its position; a new key goes to the end. */
module Dicts {

  datatype Option<T> = None | Some(value: T)

  type Dict<V> = seq<(string, V)>

  function Keys<V>(d: Dict<V>): (ks: seq<string>)
    ensures |ks| == |d|
    ensures forall i :: 0 <= i < |d| ==> ks[i] == d[i].0
  {
    if d == [] then [] else [d[0].0] + Keys(d[1..])
  }

  predicate HasKey<V>(d: Dict<V>, k: string) {
    exists i :: 0 <= i < |d| && d[i].0 == k
  }

  predicate DistinctKeys<V>(d: Dict<V>) {
    forall i, j :: 0 <= i < j < |d| ==> d[i].0 != d[j].0
  }

  /** `d.get(k)`. */
  function Get<V>(d: Dict<V>, k: string): Option<V>
  {
    if d == [] then None else if d[0].0 == k then Some(d[0].1) else Get(d[1..], k)
  }

  /** `d[k] = v`. */
  function Put<V>(d: Dict<V>, k: string, v: V): Dict<V>
  {
    if d == [] then [(k, v)]
    else if d[0].0 == k then [(k, v)] + d[1..]
    else [d[0]] + Put(d[1..], k, v)
  }

  /** Assigning each pair in turn, as `for k, v in pairs: d[k] = v` does. */
  function PutAll<V>(d: Dict<V>, pairs: seq<(string, V)>): Dict<V>
  {
    if pairs == [] then d
    else
      var last := pairs[|pairs| - 1];
      Put(PutAll(d, pairs[..|pairs| - 1]), last.0, last.1)
  }

  /** One more pair assigned after the others. */
  lemma PutAllSnoc<V>(d: Dict<V>, pairs: seq<(string, V)>, x: (string, V))
    ensures PutAll(d, pairs + [x]) == Put(PutAll(d, pairs), x.0, x.1)
  {
    assert (pairs + [x])[..|pairs|] == pairs;
  }

  /** After `d[k] = v`, `k` maps to `v` and every other key keeps its value. */
  lemma {:induction false} GetPut<V>(d: Dict<V>, k: string, v: V, k': string)
    ensures Get(Put(d, k, v), k') == if k' == k then Some(v) else Get(d, k')
  {
    if d != [] && d[0].0 != k {
      GetPut(d[1..], k, v, k');
    }
  }

  /** `d[k] = v` adds `k` to the keys (at the end, if it is new) and leaves the others in place. */
  lemma {:induction false} PutShape<V>(d: Dict<V>, k: string, v: V)
    ensures HasKey(d, k) ==> |Put(d, k, v)| == |d| && Keys(Put(d, k, v)) == Keys(d)
    ensures !HasKey(d, k) ==> Put(d, k, v) == d + [(k, v)]
  {
    if d != [] && d[0].0 != k {
      PutShape(d[1..], k, v);
      if HasKey(d, k) {
        var i :| 0 <= i < |d| && d[i].0 == k;
        assert d[1..][i - 1].0 == k;
      }
      if !HasKey(d, k) {
        assert !HasKey(d[1..], k) by {
          forall i | 0 <= i < |d[1..]| ensures d[1..][i].0 != k {
            assert d[1..][i] == d[i + 1];
          }
        }
      }
    }
  }

  lemma HasKeyAppend<V>(d: Dict<V>, k: string, v: V, k': string)
    ensures HasKey(d + [(k, v)], k') <==> HasKey(d, k') || k' == k
  {
    var e := d + [(k, v)];
    if HasKey(d, k') {
      var i :| 0 <= i < |d| && d[i].0 == k';
      assert e[i] == d[i];
    }
    if HasKey(e, k') && k' != k {
      var i :| 0 <= i < |e| && e[i].0 == k';
      assert i < |d| && d[i] == e[i];
    }
    assert e[|d|].0 == k;
  }

  /** Assigning pairs whose keys are all different to an empty dict gives exactly those pairs, in
      that order. */
  lemma {:induction false} PutAllDistinct<V>(pairs: seq<(string, V)>)
    requires DistinctKeys(pairs)
    ensures PutAll([], pairs) == pairs
  {
    if pairs != [] {
      var init := pairs[..|pairs| - 1];
      var last := pairs[|pairs| - 1];
      PutAllDistinct(init);
      assert !HasKey(init, last.0) by {
        forall i | 0 <= i < |init| ensures init[i].0 != last.0 {
          assert init[i] == pairs[i];
        }
      }
      PutShape(init, last.0, last.1);
      assert init + [last] == pairs;
    }
  }

  /** The value `PutAll` leaves at a key is the one of the last pair with that key. */
  lemma {:induction false} GetPutAll<V>(d: Dict<V>, pairs: seq<(string, V)>, k: string)
    ensures Get(PutAll(d, pairs), k) == LastValue(d, pairs, k)
  {
    if pairs != [] {
      var last := pairs[|pairs| - 1];
      GetPutAll(d, pairs[..|pairs| - 1], k);
      GetPut(PutAll(d, pairs[..|pairs| - 1]), last.0, last.1, k);
    }
  }

  /** The value of the last pair for `k`, or the one `d` had. */
  function LastValue<V>(d: Dict<V>, pairs: seq<(string, V)>, k: string): Option<V>
  {
    if pairs == [] then Get(d, k)
    else if pairs[|pairs| - 1].0 == k then Some(pairs[|pairs| - 1].1)
    else LastValue(d, pairs[..|pairs| - 1], k)
  }

  /** Keys of `PutAll` are the old keys and the keys of the pairs. */
  lemma {:induction false} HasKeyPutAll<V>(d: Dict<V>, pairs: seq<(string, V)>, k: string)
    ensures HasKey(PutAll(d, pairs), k) <==> HasKey(d, k) || HasKey(pairs, k)
  {
    if pairs != [] {
      var init := pairs[..|pairs| - 1];
      var last := pairs[|pairs| - 1];
      HasKeyPutAll(d, init, k);
      HasKeyPut(PutAll(d, init), last.0, last.1, k);
      HasKeyAppend(init, last.0, last.1, k);
      assert init + [last] == pairs;
    }
  }

  lemma HasKeyPut<V>(d: Dict<V>, k: string, v: V, k': string)
    ensures HasKey(Put(d, k, v), k') <==> HasKey(d, k') || k' == k
  {
    PutShape(d, k, v);
    if HasKey(d, k) {
      var e := Put(d, k, v);
      var ka, kb := Keys(d), Keys(e);
      if HasKey(d, k') {
        var i :| 0 <= i < |d| && d[i].0 == k';
        assert e[i].0 == kb[i] == ka[i];
      }
      if HasKey(e, k') {
        var i :| 0 <= i < |e| && e[i].0 == k';
        assert d[i].0 == ka[i] == kb[i];
      }
    } else {
      HasKeyAppend(d, k, v, k');
    }
  }

  lemma HasKeyGet<V>(d: Dict<V>, k: string)
    ensures HasKey(d, k) <==> Get(d, k).Some?
  {
    if d != [] && d[0].0 != k {
      HasKeyGet(d[1..], k);
      if HasKey(d, k) {
        var i :| 0 <= i < |d| && d[i].0 == k;
        assert d[1..][i - 1].0 == k;
      }
      if HasKey(d[1..], k) {
        var i :| 0 <= i < |d[1..]| && d[1..][i].0 == k;
        assert d[i + 1].0 == k;
      }
    }
  }

  /** `d[k] = v` keeps the keys distinct. */
  lemma PutKeepsDistinct<V>(d: Dict<V>, k: string, v: V)
    requires DistinctKeys(d)
    ensures DistinctKeys(Put(d, k, v))
  {
    PutShape(d, k, v);
    var e := Put(d, k, v);
    if HasKey(d, k) {
      assert Keys(e) == Keys(d);
      forall i, j | 0 <= i < j < |e| ensures e[i].0 != e[j].0 {
        assert e[i].0 == Keys(e)[i] == Keys(d)[i] == d[i].0;
        assert e[j].0 == Keys(e)[j] == Keys(d)[j] == d[j].0;
      }
    }
  }

  /** In a dict with distinct keys, assigning the key at position `j` changes only that value. */
  lemma {:induction false} PutAt<V>(d: Dict<V>, j: nat, v: V)
    requires DistinctKeys(d) && j < |d|
    ensures Put(d, d[j].0, v) == d[..j] + [(d[j].0, v)] + d[j + 1..]
  {
    if j > 0 {
      assert d[1..][j - 1] == d[j];
      PutAt(d[1..], j - 1, v);
      assert d[1..][..j - 1] == d[1..j];
      assert d[1..][j..] == d[j + 1..];
      assert [d[0]] + d[1..j] == d[..j];
    }
  }

  /** Two lists holding the same pairs, in any order, have the same keys. */
  lemma HasKeyPermutation<V>(s: Dict<V>, t: Dict<V>, k: string)
    requires multiset(s) == multiset(t)
    ensures HasKey(s, k) <==> HasKey(t, k)
  {
    if HasKey(s, k) {
      var i :| 0 <= i < |s| && s[i].0 == k;
      assert s[i] in multiset(t);
      var j :| 0 <= j < |t| && t[j] == s[i];
    }
    if HasKey(t, k) {
      var i :| 0 <= i < |t| && t[i].0 == k;
      assert t[i] in multiset(s);
      var j :| 0 <= j < |s| && s[j] == t[i];
    }
  }

  /** Every value is the one `f` gives its key. */
  ghost predicate ValuesFollow<V>(d: Dict<V>, f: string -> V) {
    forall i :: 0 <= i < |d| ==> d[i].1 == f(d[i].0)
  }

  lemma {:induction false} PutFollows<V>(d: Dict<V>, k: string, v: V, f: string -> V)
    requires ValuesFollow(d, f) && v == f(k)
    ensures ValuesFollow(Put(d, k, v), f)
  {
    if d != [] && d[0].0 != k {
      assert ValuesFollow(d[1..], f) by {
        forall i | 0 <= i < |d[1..]| ensures d[1..][i].1 == f(d[1..][i].0) {
          assert d[1..][i] == d[i + 1];
        }
      }
      PutFollows(d[1..], k, v, f);
      var e := Put(d[1..], k, v);
      forall i | 0 <= i < |[d[0]] + e| ensures ([d[0]] + e)[i].1 == f(([d[0]] + e)[i].0) {
        if i > 0 { assert ([d[0]] + e)[i] == e[i - 1]; }
      }
    } else if d != [] {
      var e := [(k, v)] + d[1..];
      forall i | 0 <= i < |e| ensures e[i].1 == f(e[i].0) {
        if i > 0 { assert e[i] == d[i]; }
      }
    }
  }

  /** When every pair's value is a function of its key, so is every value of the dict the
      pairs build, whatever the duplicates among them. */
  lemma {:induction false} PutAllFollows<V>(d: Dict<V>, pairs: seq<(string, V)>, f: string -> V)
    requires ValuesFollow(d, f) && ValuesFollow(pairs, f)
    ensures ValuesFollow(PutAll(d, pairs), f)
  {
    if pairs != [] {
      var init := pairs[..|pairs| - 1];
      var last := pairs[|pairs| - 1];
      assert ValuesFollow(init, f) by {
        forall i | 0 <= i < |init| ensures init[i].1 == f(init[i].0) {
          assert init[i] == pairs[i];
        }
      }
      PutAllFollows(d, init, f);
      PutFollows(PutAll(d, init), last.0, last.1, f);
    }
  }

  /** `for k, v in pairs: d[k] = v` */
  method PutEach<V>(d: Dict<V>, pairs: seq<(string, V)>) returns (r: Dict<V>)
    ensures r == PutAll(d, pairs)
  {
    r := d;
    for i := 0 to |pairs|
      invariant r == PutAll(d, pairs[..i])
    {
      assert pairs[..i + 1][..i] == pairs[..i];
      r := Put(r, pairs[i].0, pairs[i].1);
    }
    assert pairs[..|pairs|] == pairs;
  }

  /** Assigning any pairs keeps the keys distinct. */
  lemma {:induction false} PutAllKeepsDistinct<V>(d: Dict<V>, pairs: seq<(string, V)>)
    requires DistinctKeys(d)
    ensures DistinctKeys(PutAll(d, pairs))
  {
    if pairs != [] {
      var last := pairs[|pairs| - 1];
      PutAllKeepsDistinct(d, pairs[..|pairs| - 1]);
      PutKeepsDistinct(PutAll(d, pairs[..|pairs| - 1]), last.0, last.1);
    }
  }

  lemma {:induction false} DistinctOnce<V>(s: Dict<V>, x: (string, V))
    requires DistinctKeys(s)
    ensures multiset(s)[x] <= 1
  {
    if s != [] {
      assert DistinctKeys(s[1..]) by {
        forall i, j | 0 <= i < j < |s[1..]| ensures s[1..][i].0 != s[1..][j].0 {
          assert s[1..][i] == s[i + 1] && s[1..][j] == s[j + 1];
        }
      }
      DistinctOnce(s[1..], x);
      assert s == [s[0]] + s[1..];
      assert s[0] !in s[1..] by {
        forall k | 0 <= k < |s[1..]| ensures s[1..][k] != s[0] {
          assert s[1..][k] == s[k + 1];
        }
      }
    }
  }

  lemma TwoOccurrences<T>(t: seq<T>, i: nat, j: nat)
    requires i < j < |t|
    ensures multiset(t)[t[i]] >= (if t[i] == t[j] then 2 else 1)
  {
    assert t == t[..i] + [t[i]] + t[i + 1..j] + [t[j]] + t[j + 1..];
  }

  /** Reordering pairs with distinct keys keeps them distinct. */
  lemma DistinctPermutation<V>(s: Dict<V>, t: Dict<V>)
    requires DistinctKeys(s) && multiset(s) == multiset(t)
    ensures DistinctKeys(t)
  {
    forall i, j | 0 <= i < j < |t| ensures t[i].0 != t[j].0 {
      TwoOccurrences(t, i, j);
      DistinctOnce(s, t[i]);
      assert t[i] != t[j];
      assert t[i] in multiset(s) && t[j] in multiset(s);
      var a :| 0 <= a < |s| && s[a] == t[i];
      var b :| 0 <= b < |s| && s[b] == t[j];
      assert a != b;
    }
  }

  /** With distinct keys, `Get` finds the value at the key's position. */
  lemma {:induction false} GetAt<V>(d: Dict<V>, i: nat)
    requires DistinctKeys(d) && i < |d|
    ensures Get(d, d[i].0) == Some(d[i].1)
  {
    if i > 0 {
      assert DistinctKeys(d[1..]) by {
        forall a, b | 0 <= a < b < |d[1..]| ensures d[1..][a].0 != d[1..][b].0 {
          assert d[1..][a] == d[a + 1] && d[1..][b] == d[b + 1];
        }
      }
      assert d[1..][i - 1] == d[i];
      GetAt(d[1..], i - 1);
    }
  }

  /** For pairs with distinct keys, the last pair with key `k` is the only one. */
  lemma {:induction false} LastValueOfKey<V>(d: Dict<V>, pairs: seq<(string, V)>, k: string)
    requires DistinctKeys(pairs) && HasKey(pairs, k)
    ensures LastValue(d, pairs, k) == Get(pairs, k)
  {
    var i :| 0 <= i < |pairs| && pairs[i].0 == k;
    GetAt(pairs, i);
    var init := pairs[..|pairs| - 1];
    if i < |pairs| - 1 {
      assert pairs[|pairs| - 1].0 != k;
      assert DistinctKeys(init) by {
        forall a, b | 0 <= a < b < |init| ensures init[a].0 != init[b].0 {
          assert init[a] == pairs[a] && init[b] == pairs[b];
        }
      }
      assert init[i] == pairs[i];
      LastValueOfKey(d, init, k);
      GetAt(init, i);
    }
  }
}
