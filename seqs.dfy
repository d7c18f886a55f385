/**
 * Sequence utilities shared by the aggregation code: duplicate removal in
 * first-seen order (what a JavaScript `Set` or an insertion-ordered object
 * keeps), filtering, sums, per-key counts and a stable sort.
 */
module Seqs {

  /** No element occurs twice. */
  predicate Distinct<T(==)>(s: seq<T>) {
    forall i, j :: 0 <= i < j < |s| ==> s[i] != s[j]
  }

  /** The distinct elements of `s`, each at the position of its first occurrence. */
  function Dedup<T(==)>(s: seq<T>): (r: seq<T>)
    ensures Distinct(r)
    ensures forall x :: x in r ==> x in s
    ensures forall x :: x in s ==> x in r
    ensures |r| <= |s|
  {
    if |s| == 0 then []
    else
      var d := Dedup(s[..|s| - 1]);
      if s[|s| - 1] in d then d else d + [s[|s| - 1]]
  }

  /** Extending the input by one element extends the de-duplicated list only by a new element. */
  lemma DedupSnoc<T>(s: seq<T>, x: T)
    ensures Dedup(s + [x]) == if x in Dedup(s) then Dedup(s) else Dedup(s) + [x]
  {
    assert (s + [x])[..|s + [x]| - 1] == s;
  }

  /**
   * First-seen order: the i-th distinct element occurs in `s` before any
   * occurrence of the j-th distinct element, for i < j.
   */
  lemma {:induction false} DedupFirstSeen<T>(s: seq<T>, i: nat, j: nat, q: nat)
    requires i < j < |Dedup(s)| && q < |s| && s[q] == Dedup(s)[j]
    ensures exists p :: 0 <= p < q && s[p] == Dedup(s)[i]
  {
    var n := |s| - 1;
    var d := Dedup(s[..n]);
    assert s == s[..n] + [s[n]];
    if q == n {
      if s[n] in d {
        var k :| 0 <= k < |d| && d[k] == s[n];
        assert Dedup(s) == d;
        assert k == j;
        DedupFirstSeenIn(s[..n], i);
      } else {
        assert Dedup(s) == d + [s[n]];
        assert i < |d|;
        DedupFirstSeenIn(s[..n], i);
      }
      var p :| 0 <= p < n && s[..n][p] == d[i];
      assert s[p] == Dedup(s)[i];
    } else {
      assert s[..n][q] == s[q];
      assert Dedup(s) == d || Dedup(s) == d + [s[n]];
      if j < |d| {
        assert Dedup(s)[j] == d[j] && Dedup(s)[i] == d[i];
        DedupFirstSeen(s[..n], i, j, q);
        var p :| 0 <= p < q && s[..n][p] == d[i];
        assert s[p] == Dedup(s)[i];
      } else {
        // the j-th distinct element would be s[n], which does not occur before index n
        assert false;
      }
    }
  }

  /** Every element of the de-duplicated list occurs in the input. */
  lemma DedupFirstSeenIn<T>(s: seq<T>, i: nat)
    requires i < |Dedup(s)|
    ensures exists p :: 0 <= p < |s| && s[p] == Dedup(s)[i]
  {
    assert Dedup(s)[i] in s;
  }

  /** The elements of `s` satisfying `keep`, in their original order. */
  function Filter<T>(s: seq<T>, keep: T -> bool): (r: seq<T>)
    ensures |r| <= |s|
    ensures forall x :: x in r ==> x in s && keep(x)
    ensures forall x :: x in s && keep(x) ==> x in r
    ensures multiset(r) <= multiset(s)
  {
    if |s| == 0 then []
    else
      var f := Filter(s[..|s| - 1], keep);
      assert s == s[..|s| - 1] + [s[|s| - 1]];
      if keep(s[|s| - 1]) then f + [s[|s| - 1]] else f
  }

  /** Filtering a sequence extended by one element. */
  lemma FilterSnoc<T>(s: seq<T>, x: T, keep: T -> bool)
    ensures Filter(s + [x], keep) == Filter(s, keep) + (if keep(x) then [x] else [])
  {
    var t := s + [x];
    assert t[..|t| - 1] == s;
  }

  /** Filtering distributes over concatenation, so passing elements keep their order. */
  lemma {:induction false} FilterAppend<T>(a: seq<T>, b: seq<T>, keep: T -> bool)
    ensures Filter(a + b, keep) == Filter(a, keep) + Filter(b, keep)
  {
    if |b| == 0 {
      assert a + b == a;
    } else {
      var n := |b| - 1;
      var x, b' := b[n], b[..n];
      var tail := if keep(x) then [x] else [];
      assert b == b' + [x];
      assert a + b == (a + b') + [x];
      var fa, fb' := Filter(a, keep), Filter(b', keep);
      FilterAppend(a, b', keep);
      FilterSnoc(a + b', x, keep);
      FilterSnoc(b', x, keep);
      assert (fa + fb') + tail == fa + (fb' + tail);
    }
  }

  /** Every passing element keeps its multiplicity; every failing one is dropped. */
  lemma {:induction false} FilterCounts<T>(s: seq<T>, keep: T -> bool, x: T)
    ensures multiset(Filter(s, keep))[x] == if keep(x) then multiset(s)[x] else 0
  {
    if |s| > 0 {
      var n := |s| - 1;
      FilterCounts(s[..n], keep, x);
      assert s == s[..n] + [s[n]];
    }
  }

  /** Filtering twice with the same predicate is filtering once. */
  lemma {:induction false} FilterIdempotent<T>(s: seq<T>, keep: T -> bool)
    ensures Filter(Filter(s, keep), keep) == Filter(s, keep)
  {
    if |s| > 0 {
      var n := |s| - 1;
      FilterIdempotent(s[..n], keep);
      var f := Filter(s[..n], keep);
      if keep(s[n]) {
        assert (f + [s[n]])[..|f|] == f;
      }
    }
  }

  /** Filtering keeps a sorted sequence sorted. */
  lemma {:induction false} FilterSorted<T>(s: seq<T>, keep: T -> bool, leq: (T, T) -> bool)
    requires SortedBy(s, leq)
    ensures SortedBy(Filter(s, keep), leq)
  {
    if |s| > 0 {
      var n := |s| - 1;
      assert SortedBy(s[..n], leq);
      FilterSorted(s[..n], keep, leq);
      var f := Filter(s[..n], keep);
      if keep(s[n]) {
        forall i | 0 <= i < |f| ensures leq(f[i], s[n]) {
          assert f[i] in s[..n];
          var k :| 0 <= k < n && s[..n][k] == f[i];
        }
      }
    }
  }

  /** Sum of a sequence of integers. */
  function Sum(s: seq<int>): int {
    if |s| == 0 then 0 else Sum(s[..|s| - 1]) + s[|s| - 1]
  }

  lemma {:induction false} SumAppend(a: seq<int>, b: seq<int>)
    ensures Sum(a + b) == Sum(a) + Sum(b)
  {
    if |b| > 0 {
      assert (a + b)[..|a + b| - 1] == a + b[..|b| - 1];
      SumAppend(a, b[..|b| - 1]);
    } else {
      assert a + b == a;
    }
  }

  /** Number of occurrences of `x` in `s`. */
  function Count<T(==)>(s: seq<T>, x: T): nat {
    multiset(s)[x]
  }

  /** Sum, over the listed names, of each name's number of occurrences in `s`. */
  function SumOfCounts<T(==)>(names: seq<T>, s: seq<T>): nat {
    if |names| == 0 then 0
    else SumOfCounts(names[..|names| - 1], s) + Count(s, names[|names| - 1])
  }

  lemma {:induction false} SumOfCountsSnoc<T>(names: seq<T>, s: seq<T>, x: T)
    requires Distinct(names)
    ensures SumOfCounts(names, s + [x]) == SumOfCounts(names, s) + (if x in names then 1 else 0)
  {
    if |names| > 0 {
      var m := |names| - 1;
      assert Distinct(names[..m]);
      SumOfCountsSnoc(names[..m], s, x);
      assert multiset(s + [x]) == multiset(s) + multiset{x};
      assert x in names <==> x in names[..m] || x == names[m];
      assert x == names[m] ==> x !in names[..m];
    }
  }

  /**
   * When `names` lists every element of `s` exactly once, the per-name counts
   * add up to the length of `s`: grouping neither drops nor duplicates anything.
   */
  lemma {:induction false} SumOfCountsIsLength<T>(names: seq<T>, s: seq<T>)
    requires Distinct(names)
    requires forall x :: x in s ==> x in names
    ensures SumOfCounts(names, s) == |s|
  {
    if |s| == 0 {
      SumOfCountsEmpty(names, s);
    } else {
      var n := |s| - 1;
      assert s == s[..n] + [s[n]];
      SumOfCountsIsLength(names, s[..n]);
      SumOfCountsSnoc(names, s[..n], s[n]);
    }
  }

  lemma {:induction false} SumOfCountsEmpty<T>(names: seq<T>, s: seq<T>)
    requires |s| == 0
    ensures SumOfCounts(names, s) == 0
  {
    if |names| > 0 {
      SumOfCountsEmpty(names[..|names| - 1], s);
    }
  }

  /** A duplicate-free sequence holds each value at most once. */
  lemma {:induction false} DistinctCounts<T>(s: seq<T>, x: T)
    requires Distinct(s)
    ensures multiset(s)[x] <= 1
  {
    if |s| > 0 {
      var n := |s| - 1;
      assert s == s[..n] + [s[n]];
      assert Distinct(s[..n]);
      DistinctCounts(s[..n], x);
      if x == s[n] {
        assert x !in s[..n];
      }
    }
  }

  /** A rearrangement of a duplicate-free sequence is duplicate-free. */
  lemma DistinctPermutation<T>(a: seq<T>, b: seq<T>)
    requires Distinct(a) && multiset(a) == multiset(b)
    ensures Distinct(b)
  {
    forall i, j | 0 <= i < j < |b|
      ensures b[i] != b[j]
    {
      DistinctCounts(a, b[j]);
      assert b == b[..j] + b[j..];
      assert b[j] in b[j..];
      assert multiset(b[..j])[b[j]] == 0;
      assert b[i] in b[..j];
    }
  }

  /** `leq` is total and transitive: a valid sort order (ties allowed). */
  ghost predicate TotalPreorder<T(!new)>(leq: (T, T) -> bool) {
    && (forall a, b :: leq(a, b) || leq(b, a))
    && (forall a, b, c :: leq(a, b) && leq(b, c) ==> leq(a, c))
  }

  /** Every earlier element is `leq` every later one. */
  predicate SortedBy<T>(s: seq<T>, leq: (T, T) -> bool) {
    forall i, j :: 0 <= i < j < |s| ==> leq(s[i], s[j])
  }

  /** Insert `x` into the sorted `s`, before the first element it is `leq` to. */
  function Insert<T(!new)>(x: T, s: seq<T>, leq: (T, T) -> bool): (r: seq<T>)
    requires TotalPreorder(leq) && SortedBy(s, leq)
    ensures SortedBy(r, leq)
    ensures multiset(r) == multiset(s) + multiset{x}
  {
    if |s| == 0 then [x]
    else if leq(x, s[0]) then [x] + s
    else
      var rest := Insert(x, s[1..], leq);
      InsertBehindHead(x, s, rest, leq);
      [s[0]] + rest
  }

  /** Putting the head of `s` in front of a sorted rearrangement of its tail and `x` keeps the order. */
  lemma InsertBehindHead<T(!new)>(x: T, s: seq<T>, rest: seq<T>, leq: (T, T) -> bool)
    requires TotalPreorder(leq) && SortedBy(s, leq) && |s| > 0 && !leq(x, s[0])
    requires SortedBy(rest, leq) && multiset(rest) == multiset(s[1..]) + multiset{x}
    ensures SortedBy([s[0]] + rest, leq)
    ensures multiset([s[0]] + rest) == multiset(s) + multiset{x}
  {
    assert s == [s[0]] + s[1..];
    forall j | 0 <= j < |rest|
      ensures leq(s[0], rest[j])
    {
      assert rest[j] in multiset(rest);
      if rest[j] != x {
        assert rest[j] in multiset(s[1..]);
        var k :| 0 <= k < |s[1..]| && s[1..][k] == rest[j];
        assert s[k + 1] == rest[j];
      }
    }
  }

  /**
   * Stable insertion sort; this stands for `Array.prototype.sort`, which the
   * source calls with a comparator.
   */
  function Sort<T(!new)>(s: seq<T>, leq: (T, T) -> bool): (r: seq<T>)
    requires TotalPreorder(leq)
    ensures SortedBy(r, leq)
    ensures multiset(r) == multiset(s)
    ensures |r| == |s|
  {
    if |s| == 0 then []
    else
      assert s == [s[0]] + s[1..];
      Insert(s[0], Sort(s[1..], leq), leq)
  }
}
