/** Python's stable sort, by integer keys: what is sorted, what stays in order, and why a
    stable sort is determined by that. */
module StableSort {

  function Insert<T>(x: T, s: seq<T>, key: T -> int): seq<T> {
    if s == [] then [x]
    else if key(s[|s| - 1]) <= key(x) then s + [x]
    else Insert(x, s[..|s| - 1], key) + [s[|s| - 1]]
  }

  /** Each element is inserted after those not greater, so equal keys keep their order. */
  function Sort<T>(s: seq<T>, key: T -> int): seq<T> {
    if s == [] then [] else Insert(s[|s| - 1], Sort(s[..|s| - 1], key), key)
  }

  ghost predicate Sorted<T>(s: seq<T>, key: T -> int) {
    forall i, j :: 0 <= i < j < |s| ==> key(s[i]) <= key(s[j])
  }

  ghost predicate AllAtMost<T>(s: seq<T>, key: T -> int, k: int) {
    forall i :: 0 <= i < |s| ==> key(s[i]) <= k
  }

  function Filter<T>(s: seq<T>, p: T -> bool): seq<T> {
    if s == [] then []
    else
      var rest := Filter(s[..|s| - 1], p);
      if p(s[|s| - 1]) then rest + [s[|s| - 1]] else rest
  }

  lemma {:induction false} FilterAppend<T>(s: seq<T>, x: T, p: T -> bool)
    ensures Filter(s + [x], p) == if p(x) then Filter(s, p) + [x] else Filter(s, p)
  {
    assert (s + [x])[..|s|] == s;
  }

  lemma {:induction false} InsertAtMost<T>(x: T, s: seq<T>, key: T -> int, k: int)
    requires AllAtMost(s, key, k) && key(x) <= k
    ensures AllAtMost(Insert(x, s, key), key, k)
    decreases |s|
  {
    if s != [] && key(s[|s| - 1]) > key(x) { InsertAtMost(x, s[..|s| - 1], key, k); }
  }

  lemma {:induction false} InsertSorts<T>(x: T, s: seq<T>, key: T -> int)
    requires Sorted(s, key)
    ensures Sorted(Insert(x, s, key), key)
    decreases |s|
  {
    if s != [] && key(s[|s| - 1]) > key(x) {
      InsertSorts(x, s[..|s| - 1], key);
      InsertAtMost(x, s[..|s| - 1], key, key(s[|s| - 1]));
    }
  }

  lemma {:induction false} InsertKeeps<T>(x: T, s: seq<T>, key: T -> int)
    ensures multiset(Insert(x, s, key)) == multiset(s) + multiset{x}
    decreases |s|
  {
    if s != [] {
      assert s == s[..|s| - 1] + [s[|s| - 1]];
      if key(s[|s| - 1]) > key(x) { InsertKeeps(x, s[..|s| - 1], key); }
    }
  }

  lemma {:induction false} SortSorts<T>(s: seq<T>, key: T -> int)
    ensures Sorted(Sort(s, key), key)
  {
    if s != [] {
      SortSorts(s[..|s| - 1], key);
      InsertSorts(s[|s| - 1], Sort(s[..|s| - 1], key), key);
    }
  }

  lemma {:induction false} SortPermutes<T>(s: seq<T>, key: T -> int)
    ensures multiset(Sort(s, key)) == multiset(s)
  {
    hide Insert;
    if s != [] {
      SortPermutes(s[..|s| - 1], key);
      InsertKeeps(s[|s| - 1], Sort(s[..|s| - 1], key), key);
      assert s == s[..|s| - 1] + [s[|s| - 1]];
    }
  }

  lemma {:induction false} FilterAtMost<T>(s: seq<T>, p: T -> bool, key: T -> int, k: int)
    requires AllAtMost(s, key, k)
    ensures AllAtMost(Filter(s, p), key, k)
  {
    if s != [] { FilterAtMost(s[..|s| - 1], p, key, k); }
  }

  lemma {:induction false} FilterSorted<T>(s: seq<T>, p: T -> bool, key: T -> int)
    requires Sorted(s, key)
    ensures Sorted(Filter(s, p), key)
  {
    if s != [] {
      FilterSorted(s[..|s| - 1], p, key);
      FilterAtMost(s[..|s| - 1], p, key, key(s[|s| - 1]));
    }
  }

  lemma {:induction false} FilterHolds<T>(s: seq<T>, p: T -> bool)
    ensures forall i :: 0 <= i < |Filter(s, p)| ==> p(Filter(s, p)[i])
  {
    if s != [] { FilterHolds(s[..|s| - 1], p); }
  }

  lemma InsertAtEnd<T>(x: T, s: seq<T>, key: T -> int)
    requires AllAtMost(s, key, key(x))
    ensures Insert(x, s, key) == s + [x]
  {
  }

  lemma {:induction false} InsertFilter<T>(x: T, s: seq<T>, p: T -> bool, key: T -> int)
    requires Sorted(s, key)
    ensures Filter(Insert(x, s, key), p) == if p(x) then Insert(x, Filter(s, p), key) else Filter(s, p)
    decreases |s|
  {
    if s == [] {
      FilterAppend([], x, p);
      assert [] + [x] == [x];
    } else {
      var front, last := s[..|s| - 1], s[|s| - 1];
      if key(last) <= key(x) {
        FilterAppend(s, x, p);
        FilterAtMost(s, p, key, key(x));
        InsertAtEnd(x, Filter(s, p), key);
      } else {
        InsertFilter(x, front, p, key);
        FilterAppend(Insert(x, front, key), last, p);
        if p(x) && p(last) { InsertBefore(x, Filter(front, p), last, key); }
      }
    }
  }

  lemma InsertBefore<T>(x: T, s: seq<T>, last: T, key: T -> int)
    requires key(last) > key(x)
    ensures Insert(x, s + [last], key) == Insert(x, s, key) + [last]
  {
    assert (s + [last])[..|s|] == s;
  }

  /** Sorting commutes with filtering. */
  lemma {:induction false} SortFilter<T>(s: seq<T>, p: T -> bool, key: T -> int)
    ensures Filter(Sort(s, key), p) == Sort(Filter(s, p), key)
  {
    if s != [] {
      var front, last := s[..|s| - 1], s[|s| - 1];
      SortFilter(front, p, key);
      SortSorts(front, key);
      InsertFilter(last, Sort(front, key), p, key);
      if p(last) { assert (Filter(front, p) + [last])[..|Filter(front, p)|] == Filter(front, p); }
    }
  }

  lemma {:induction false} SortedIsFixed<T>(s: seq<T>, key: T -> int)
    requires Sorted(s, key)
    ensures Sort(s, key) == s
  {
    if s != [] {
      SortedIsFixed(s[..|s| - 1], key);
      InsertAtEnd(s[|s| - 1], s[..|s| - 1], key);
      assert s == s[..|s| - 1] + [s[|s| - 1]];
    }
  }

  /** The elements with one key, in order. */
  function Class<T>(s: seq<T>, key: T -> int, k: int): seq<T> { Filter(s, x => key(x) == k) }

  /** Stability: the elements of any one key come out in the order they went in. */
  lemma {:induction false} SortIsStable<T>(s: seq<T>, key: T -> int, k: int)
    ensures Class(Sort(s, key), key, k) == Class(s, key, k)
  {
    var p := x => key(x) == k;
    SortFilter(s, p, key);
    FilterHolds(s, p);
    SortedIsFixed(Filter(s, p), key);
  }

  lemma {:induction false} ClassSort<T>(s: seq<T>, key: T -> int, k: int, other: T -> int)
    ensures Class(Sort(s, other), key, k) == Sort(Class(s, key, k), other)
  {
    var p := x => key(x) == k;
    SortFilter(s, p, other);
  }

  lemma {:induction false} ClassSorted<T>(s: seq<T>, key: T -> int, k: int, other: T -> int)
    requires Sorted(s, other)
    ensures Sorted(Class(s, key, k), other)
  {
    var p := x => key(x) == k;
    FilterSorted(s, p, other);
  }

  lemma {:induction false} ClassNone<T>(s: seq<T>, key: T -> int, k: int)
    requires forall i :: 0 <= i < |s| ==> key(s[i]) < k
    ensures Class(s, key, k) == []
  {
    if s != [] { ClassNone(s[..|s| - 1], key, k); }
  }

  lemma {:induction false} LastNotBelow<T>(s: seq<T>, t: seq<T>, key: T -> int)
    requires s != [] && Sorted(t, key) && Class(s, key, key(s[|s| - 1])) == Class(t, key, key(s[|s| - 1]))
    ensures t != [] && key(t[|t| - 1]) >= key(s[|s| - 1])
  {
    var k := key(s[|s| - 1]);
    assert Class(s, key, k) != [];
    if t == [] || key(t[|t| - 1]) < k { ClassNone(t, key, k); }
  }

  /** A sorted sequence is determined by the order inside each key. */
  lemma {:induction false} SortedIsUnique<T>(s: seq<T>, t: seq<T>, key: T -> int)
    requires Sorted(s, key) && Sorted(t, key) && forall k :: Class(s, key, k) == Class(t, key, k)
    ensures s == t
  {
    if s != [] { LastNotBelow(s, t, key); }
    if t != [] { LastNotBelow(t, s, key); }
    if s != [] {
      var k, s0, t0 := key(s[|s| - 1]), s[..|s| - 1], t[..|t| - 1];
      assert Class(s, key, k) == Class(s0, key, k) + [s[|s| - 1]];
      assert Class(t, key, k) == Class(t0, key, k) + [t[|t| - 1]];
      forall c ensures Class(s0, key, c) == Class(t0, key, c) {
        assert Class(s, key, c) == Class(t, key, c);
        if c == k {
          assert Class(s0, key, c) == Class(s, key, c)[..|Class(s, key, c)| - 1];
          assert Class(t0, key, c) == Class(t, key, c)[..|Class(t, key, c)| - 1];
        }
      }
      SortedIsUnique(s0, t0, key);
      assert Class(s, key, k)[|Class(s, key, k)| - 1] == s[|s| - 1];
      assert Class(t, key, k)[|Class(t, key, k)| - 1] == t[|t| - 1];
      assert s == s0 + [s[|s| - 1]] && t == t0 + [t[|t| - 1]];
    }
  }
}
