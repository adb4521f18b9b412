/**
 * In-memory stand-ins for the queryset operations the source relies on:
 * `filter(...)`, `count()`, `order_by(...)` (a stable insertion sort on an
 * integer key) and slicing.
 */
module Query {

  /** `queryset.filter(p)`: the elements satisfying `p`, in their original order. */
  function Filter<T(!new)>(s: seq<T>, p: T -> bool): (r: seq<T>)
    ensures |r| <= |s|
    ensures forall x :: x in r <==> x in s && p(x)
  {
    if s == [] then []
    else if p(s[0]) then [s[0]] + Filter(s[1..], p)
    else Filter(s[1..], p)
  }

  /** Filtering distributes over concatenation, so a filter keeps the input's order. */
  lemma {:induction false} FilterAppend<T(!new)>(a: seq<T>, b: seq<T>, p: T -> bool)
    ensures Filter(a + b, p) == Filter(a, p) + Filter(b, p)
  {
    if a == [] {
      assert a + b == b;
    } else {
      assert (a + b)[1..] == a[1..] + b;
      FilterAppend(a[1..], b, p);
    }
  }

  /** Two filters in a row are one filter by both tests. */
  lemma {:induction false} FilterConj<T(!new)>(s: seq<T>, p: T -> bool, q: T -> bool, r: T -> bool)
    requires forall x :: r(x) == (p(x) && q(x))
    ensures Filter(Filter(s, p), q) == Filter(s, r)
  {
    if s != [] {
      FilterConj(s[1..], p, q, r);
    }
  }

  /** A step `if given: qs = qs.filter(step)` after a filter by `acc` is one filter by `acc` and, when given, `step`. */
  lemma FilterIf<T(!new)>(s: seq<T>, acc: T -> bool, given: bool, step: T -> bool, next: T -> bool)
    requires forall x :: next(x) == (acc(x) && (given ==> step(x)))
    ensures (if given then Filter(Filter(s, acc), step) else Filter(s, acc)) == Filter(s, next)
  {
    if given {
      FilterConj(s, acc, step, next);
    } else {
      FilterExt(s, acc, next);
    }
  }

  /** Filters by tests that agree everywhere agree. */
  lemma {:induction false} FilterExt<T(!new)>(s: seq<T>, p: T -> bool, q: T -> bool)
    requires forall x :: p(x) == q(x)
    ensures Filter(s, p) == Filter(s, q)
  {
    if s != [] {
      FilterExt(s[1..], p, q);
    }
  }

  /** A test every element passes keeps the whole sequence. */
  lemma {:induction false} FilterAll<T(!new)>(s: seq<T>, p: T -> bool)
    requires forall x :: p(x)
    ensures Filter(s, p) == s
  {
    if s != [] {
      FilterAll(s[1..], p);
    }
  }

  /** Filtering twice with the same test is filtering once. */
  lemma {:induction false} FilterIdempotent<T(!new)>(s: seq<T>, p: T -> bool)
    ensures Filter(Filter(s, p), p) == Filter(s, p)
  {
    if s != [] {
      FilterIdempotent(s[1..], p);
    }
  }

  /** `queryset.filter(p).count()`. */
  function Count<T>(s: seq<T>, p: T -> bool): (n: nat)
    ensures n <= |s|
    ensures n == 0 <==> forall i :: 0 <= i < |s| ==> !p(s[i])
  {
    if s == [] then 0
    else (if p(s[0]) then 1 else 0) + Count(s[1..], p)
  }

  /** A count is the length of the corresponding filter. */
  lemma {:induction false} CountIsFilterLength<T(!new)>(s: seq<T>, p: T -> bool)
    ensures Count(s, p) == |Filter(s, p)|
  {
    if s != [] {
      CountIsFilterLength(s[1..], p);
    }
  }

  /** The elements that pass a test and those that fail it add up to all elements. */
  lemma {:induction false} CountSplit<T>(s: seq<T>, p: T -> bool, q: T -> bool)
    requires forall x :: q(x) == !p(x)
    ensures Count(s, p) + Count(s, q) == |s|
  {
    if s != [] {
      CountSplit(s[1..], p, q);
    }
  }

  predicate SortedBy<T>(s: seq<T>, key: T -> int) {
    forall i, j :: 0 <= i < j < |s| ==> key(s[i]) <= key(s[j])
  }

  /** Insert `x` in front of the first element whose key is not smaller. */
  function InsertBy<T>(x: T, s: seq<T>, key: T -> int): (r: seq<T>)
    ensures multiset(r) == multiset(s) + multiset{x}
    ensures |r| == |s| + 1
  {
    if s == [] || key(x) <= key(s[0]) then [x] + s
    else
      assert s == [s[0]] + s[1..];
      [s[0]] + InsertBy(x, s[1..], key)
  }

  /** Inserting into a sorted sequence keeps it sorted; the head is `x` or the old head, whichever key is smaller. */
  lemma {:induction false} InsertBySorted<T>(x: T, s: seq<T>, key: T -> int)
    requires SortedBy(s, key)
    ensures SortedBy(InsertBy(x, s, key), key)
    ensures key(InsertBy(x, s, key)[0]) == if s == [] || key(x) <= key(s[0]) then key(x) else key(s[0])
  {
    if s != [] && key(x) > key(s[0]) {
      var tail := s[1..];
      assert SortedBy(tail, key) by {
        forall i, j | 0 <= i < j < |tail| ensures key(tail[i]) <= key(tail[j]) {
          assert tail[i] == s[i + 1] && tail[j] == s[j + 1];
        }
      }
      InsertBySorted(x, tail, key);
      var rest := InsertBy(x, tail, key);
      assert key(s[0]) <= key(rest[0]) by {
        if tail != [] {
          assert tail[0] == s[1];
        }
      }
      var r := [s[0]] + rest;
      forall i, j | 0 <= i < j < |r| ensures key(r[i]) <= key(r[j]) {
        assert r[j] == rest[j - 1];
        if i == 0 {
          if j > 1 {
            assert key(rest[0]) <= key(rest[j - 1]);
          }
        } else {
          assert r[i] == rest[i - 1];
        }
      }
      assert r == InsertBy(x, s, key);
    }
  }

  /** `sorted(s, key=key)`: ascending by key, ties in their original order. */
  function SortBy<T>(s: seq<T>, key: T -> int): (r: seq<T>)
    ensures multiset(r) == multiset(s)
    ensures SortedBy(r, key)
  {
    if s == [] then []
    else
      assert s == [s[0]] + s[1..];
      InsertBySorted(s[0], SortBy(s[1..], key), key);
      InsertBy(s[0], SortBy(s[1..], key), key)
  }

  /** `queryset[:n]`. */
  function Take<T>(s: seq<T>, n: nat): (r: seq<T>)
    ensures |r| == if |s| < n then |s| else n
    ensures r == s[..|r|]
  {
    if |s| <= n then s else s[..n]
  }

  /**
   * `queryset.order_by(key)[:n]`: the `n` elements with the smallest keys, ascending;
   * every element cut off has a key no smaller than any element kept.
   */
  function FirstByKey<T>(s: seq<T>, key: T -> int, n: nat): (r: seq<T>)
    ensures |r| == if |s| < n then |s| else n
    ensures SortedBy(r, key)
    ensures multiset(r) <= multiset(s)
    ensures |s| <= n ==> multiset(r) == multiset(s)
    ensures forall x :: x in multiset(s) - multiset(r) ==>
              forall i :: 0 <= i < |r| ==> key(r[i]) <= key(x)
  {
    var sorted := SortBy(s, key);
    TakeSortedKeepsSmallest(sorted, n, key);
    Take(sorted, n)
  }

  /** The first `n` of a sorted sequence are sorted and a sub-multiset, and every element cut off has a key no smaller than any kept. */
  lemma TakeSortedKeepsSmallest<T>(s: seq<T>, n: nat, key: T -> int)
    requires SortedBy(s, key)
    ensures SortedBy(Take(s, n), key)
    ensures multiset(Take(s, n)) <= multiset(s)
    ensures forall x :: x in multiset(s) - multiset(Take(s, n)) ==>
              forall i :: 0 <= i < |Take(s, n)| ==> key(Take(s, n)[i]) <= key(x)
  {
    var up := Take(s, n);
    var rest := s[|up|..];
    assert s == up + rest;
    assert multiset(s) - multiset(up) == multiset(rest);
    forall x | x in multiset(rest) ensures forall i :: 0 <= i < |up| ==> key(up[i]) <= key(x) {
      var j :| 0 <= j < |rest| && rest[j] == x;
      assert x == s[|up| + j];
      forall i | 0 <= i < |up| ensures key(up[i]) <= key(x) {
        assert up[i] == s[i];
      }
    }
    assert SortedBy(up, key) by {
      forall i, j | 0 <= i < j < |up| ensures key(up[i]) <= key(up[j]) {
        assert up[i] == s[i] && up[j] == s[j];
      }
    }
  }

  /** Sorting keeps exactly the elements of the input. */
  lemma SortByMembers<T>(s: seq<T>, key: T -> int, x: T)
    ensures x in SortBy(s, key) <==> x in s
  {
    var r := SortBy(s, key);
    assert multiset(r) == multiset(s);
    assert x in r <==> x in multiset(r);
    assert x in s <==> x in multiset(s);
  }
}
