/** The result of Python's stable `list.sort` / `sorted`, as a stable insertion sort.
    `before(a, b)` says that `a` may come before `b` in the sorted order. */
module Sorting {

  predicate SortedBy<T>(s: seq<T>, before: (T, T) -> bool) {
    forall i, j :: 0 <= i < j < |s| ==> before(s[i], s[j])
  }

  /** `before` is total and transitive. */
  ghost predicate TotalPreorder<T(!new)>(before: (T, T) -> bool) {
    && (forall a, b :: before(a, b) || before(b, a))
    && (forall a, b, c :: before(a, b) && before(b, c) ==> before(a, c))
  }

  /** Puts `x` in front of the first element it may precede, so that `x` goes before the
      elements it ties with. */
  function Insert<T(==)>(x: T, s: seq<T>, before: (T, T) -> bool): (r: seq<T>)
    ensures multiset(r) == multiset(s) + multiset{x}
  {
    if s == [] || before(x, s[0]) then [x] + s
    else
      assert s == [s[0]] + s[1..];
      [s[0]] + Insert(x, s[1..], before)
  }

  function Sort<T(==)>(s: seq<T>, before: (T, T) -> bool): (r: seq<T>)
    ensures multiset(r) == multiset(s)
  {
    if s == [] then []
    else
      assert s == [s[0]] + s[1..];
      Insert(s[0], Sort(s[1..], before), before)
  }

  function Filter<T>(s: seq<T>, keep: T -> bool): (r: seq<T>)
    ensures |r| <= |s|
  {
    if s == [] then [] else (if keep(s[0]) then [s[0]] else []) + Filter(s[1..], keep)
  }

  lemma {:induction false} InsertSorted<T(!new)>(x: T, s: seq<T>, before: (T, T) -> bool)
    requires TotalPreorder(before) && SortedBy(s, before)
    ensures SortedBy(Insert(x, s, before), before)
  {
    var r := Insert(x, s, before);
    if s == [] || before(x, s[0]) {
      forall i, j | 0 <= i < j < |r| ensures before(r[i], r[j]) {
        if i == 0 && j > 1 {
          assert before(x, s[0]) && before(s[0], s[j - 1]);
        }
      }
    } else {
      var rest := Insert(x, s[1..], before);
      InsertSorted(x, s[1..], before);
      assert multiset(rest) == multiset(s[1..]) + multiset{x};
      forall j | 0 <= j < |rest| ensures before(s[0], rest[j]) {
        assert rest[j] in multiset(rest);
        if rest[j] != x {
          assert rest[j] in multiset(s[1..]);
          var k :| 0 <= k < |s[1..]| && s[1..][k] == rest[j];
          assert s[k + 1] == rest[j];
        }
      }
    }
  }

  /** The sort orders its input. */
  lemma {:induction false} SortSorted<T(!new)>(s: seq<T>, before: (T, T) -> bool)
    requires TotalPreorder(before)
    ensures SortedBy(Sort(s, before), before)
  {
    if s != [] {
      SortSorted(s[1..], before);
      InsertSorted(s[0], Sort(s[1..], before), before);
    }
  }

  lemma {:induction false} InsertFilter<T>(x: T, s: seq<T>, before: (T, T) -> bool, keep: T -> bool)
    requires forall a, b :: keep(a) && keep(b) ==> before(a, b)
    ensures Filter(Insert(x, s, before), keep) == (if keep(x) then [x] else []) + Filter(s, keep)
  {
    if s == [] || before(x, s[0]) {
      assert ([x] + s)[1..] == s;
    } else {
      InsertFilter(x, s[1..], before, keep);
      var r := [s[0]] + Insert(x, s[1..], before);
      assert r[1..] == Insert(x, s[1..], before);
      assert !(keep(x) && keep(s[0]));
      calc {
        Filter(r, keep);
        (if keep(s[0]) then [s[0]] else []) + ((if keep(x) then [x] else []) + Filter(s[1..], keep));
        (if keep(x) then [x] else []) + ((if keep(s[0]) then [s[0]] else []) + Filter(s[1..], keep));
      }
    }
  }

  /** Stability: elements that tie with each other keep their relative order. */
  lemma {:induction false} SortStable<T>(s: seq<T>, before: (T, T) -> bool, keep: T -> bool)
    requires forall a, b :: keep(a) && keep(b) ==> before(a, b)
    ensures Filter(Sort(s, before), keep) == Filter(s, keep)
  {
    if s != [] {
      SortStable(s[1..], before, keep);
      InsertFilter(s[0], Sort(s[1..], before), before, keep);
    }
  }

  /** `Filter` picks exactly the elements that pass, in order. */
  lemma {:induction false} FilterAppend<T>(a: seq<T>, b: seq<T>, keep: T -> bool)
    ensures Filter(a + b, keep) == Filter(a, keep) + Filter(b, keep)
  {
    if a == [] {
      assert a + b == b;
    } else {
      var ab := a + b;
      assert ab[0] == a[0] && ab[1..] == a[1..] + b;
      FilterAppend(a[1..], b, keep);
      var head := if keep(a[0]) then [a[0]] else [];
      calc {
        Filter(ab, keep);
        head + Filter(a[1..] + b, keep);
        head + (Filter(a[1..], keep) + Filter(b, keep));
        (head + Filter(a[1..], keep)) + Filter(b, keep);
      }
    }
  }
}
