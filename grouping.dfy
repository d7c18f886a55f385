/**
 * The two dictionary-filling loops the aggregation code repeats: counting
 * values into `counts[key] = (counts[key] || 0) + 1`, and collecting items into
 * `groups[key].push(item)`. Both dictionaries enumerate their keys in
 * insertion order, which is the first-seen order `Dedup` describes.
 */
module Grouping {
  import opened Seqs

  /** The items whose key is `k`, in input order. */
  function Members<T>(xs: seq<T>, key: T -> string, k: string): (r: seq<T>)
    ensures forall x :: x in r ==> x in xs && key(x) == k
  {
    if |xs| == 0 then []
    else
      var m := Members(xs[..|xs| - 1], key, k);
      if key(xs[|xs| - 1]) == k then m + [xs[|xs| - 1]] else m
  }

  /** The key of each item. */
  function Keys<T>(xs: seq<T>, key: T -> string): (r: seq<string>)
    ensures |r| == |xs|
    ensures forall i :: 0 <= i < |xs| ==> r[i] == key(xs[i])
  {
    seq(|xs|, i requires 0 <= i < |xs| => key(xs[i]))
  }

  /** A group holds as many items as there are occurrences of its key. */
  lemma {:induction false} MembersCount<T>(xs: seq<T>, key: T -> string, k: string)
    ensures |Members(xs, key, k)| == Count(Keys(xs, key), k)
  {
    if |xs| > 0 {
      var n := |xs| - 1;
      MembersCount(xs[..n], key, k);
      assert Keys(xs, key) == Keys(xs[..n], key) + [key(xs[n])];
      assert multiset(Keys(xs, key)) == multiset(Keys(xs[..n], key)) + multiset{key(xs[n])};
    }
  }

  /** Group sizes add up to the number of items. */
  lemma {:induction false} GroupSizesSum<T>(xs: seq<T>, key: T -> string, order: seq<string>)
    requires order == Dedup(Keys(xs, key))
    ensures SumOfSizes(xs, key, order) == |xs|
  {
    SumOfSizesIsSumOfCounts(xs, key, order);
    SumOfCountsIsLength(order, Keys(xs, key));
  }

  /** Sum over the listed keys of their group sizes. */
  function SumOfSizes<T>(xs: seq<T>, key: T -> string, order: seq<string>): nat {
    if |order| == 0 then 0
    else SumOfSizes(xs, key, order[..|order| - 1]) + |Members(xs, key, order[|order| - 1])|
  }

  lemma {:induction false} SumOfSizesIsSumOfCounts<T>(xs: seq<T>, key: T -> string, order: seq<string>)
    ensures SumOfSizes(xs, key, order) == SumOfCounts(order, Keys(xs, key))
  {
    if |order| > 0 {
      SumOfSizesIsSumOfCounts(xs, key, order[..|order| - 1]);
      MembersCount(xs, key, order[|order| - 1]);
    }
  }

  lemma MembersSnoc<T>(xs: seq<T>, key: T -> string, x: T, k: string)
    ensures Members(xs + [x], key, k) == if key(x) == k then Members(xs, key, k) + [x] else Members(xs, key, k)
  {
    assert (xs + [x])[..|xs|] == xs;
  }

  lemma KeysSnoc<T>(xs: seq<T>, key: T -> string, x: T)
    ensures Keys(xs + [x], key) == Keys(xs, key) + [key(x)]
  {
  }

  /** Every item lands in the group of its own key. */
  lemma {:induction false} MembersComplete<T>(xs: seq<T>, key: T -> string, x: T)
    requires x in xs
    ensures x in Members(xs, key, key(x))
  {
    var n := |xs| - 1;
    if xs[n] != x {
      assert x in xs[..n] by {
        var j :| 0 <= j < |xs| && xs[j] == x;
        assert j < n && xs[..n][j] == x;
      }
      MembersComplete(xs[..n], key, x);
    }
  }

  /** The position of an item within the group of its key. */
  lemma MemberIndex<T>(xs: seq<T>, key: T -> string, x: T) returns (m: nat)
    requires x in xs
    ensures m < |Members(xs, key, key(x))| && Members(xs, key, key(x))[m] == x
  {
    MembersComplete(xs, key, x);
    var members := Members(xs, key, key(x));
    m :| 0 <= m < |members| && members[m] == x;
  }

  /** A group lists its items in input order, so a sorted input gives sorted groups. */
  lemma {:induction false} MembersSorted<T>(xs: seq<T>, key: T -> string, k: string, leq: (T, T) -> bool)
    requires SortedBy(xs, leq)
    ensures SortedBy(Members(xs, key, k), leq)
  {
    if |xs| > 0 {
      var n := |xs| - 1;
      assert SortedBy(xs[..n], leq);
      MembersSorted(xs[..n], key, k, leq);
      var m := Members(xs[..n], key, k);
      if key(xs[n]) == k {
        forall i | 0 <= i < |m|
          ensures leq(m[i], xs[n])
        {
          assert m[i] in m;
          var j :| 0 <= j < n && xs[..n][j] == m[i];
        }
      }
    }
  }

  /** A key that no item has has no members. */
  lemma {:induction false} MembersOfAbsentKey<T>(xs: seq<T>, key: T -> string, k: string)
    requires k !in Keys(xs, key)
    ensures Members(xs, key, k) == []
  {
    if |xs| > 0 {
      var n := |xs| - 1;
      assert xs == xs[..n] + [xs[n]];
      KeysSnoc(xs[..n], key, xs[n]);
      MembersOfAbsentKey(xs[..n], key, k);
    }
  }

  /** `order` and `groups` are the dictionary that grouping `xs` by `key` builds. */
  ghost predicate IsGrouping<T>(xs: seq<T>, key: T -> string, order: seq<string>, groups: map<string, seq<T>>) {
    && order == Dedup(Keys(xs, key))
    && (forall k :: k in groups <==> k in order)
    && (forall k :: k in groups ==> groups[k] == Members(xs, key, k) && |groups[k]| > 0)
  }

  /** One `push` step keeps the dictionary in step with the items seen so far. */
  lemma GroupingSnoc<T>(xs: seq<T>, key: T -> string, order: seq<string>, groups: map<string, seq<T>>, x: T,
                        order': seq<string>, groups': map<string, seq<T>>)
    requires IsGrouping(xs, key, order, groups)
    requires order' == if key(x) in groups then order else order + [key(x)]
    requires groups' == groups[key(x) := (if key(x) in groups then groups[key(x)] else []) + [x]]
    ensures IsGrouping(xs + [x], key, order', groups')
  {
    var k := key(x);
    KeysSnoc(xs, key, x);
    DedupSnoc(Keys(xs, key), k);
    assert order' == Dedup(Keys(xs + [x], key));
    forall k' | k' in groups'
      ensures groups'[k'] == Members(xs + [x], key, k') && |groups'[k']| > 0
    {
      MembersSnoc(xs, key, x, k');
      if k' == k && k !in groups {
        MembersOfAbsentKey(xs, key, k);
      }
    }
  }

  /**
   * `xs.forEach(x => { if (!groups[k]) groups[k] = []; groups[k].push(x) })`
   * with `k = key(x)`; `order` is the dictionary's key order.
   */
  method GroupBy<T>(xs: seq<T>, key: T -> string) returns (order: seq<string>, groups: map<string, seq<T>>)
    ensures order == Dedup(Keys(xs, key))
    ensures forall k :: k in groups <==> k in order
    ensures forall k :: k in groups ==> groups[k] == Members(xs, key, k) && |groups[k]| > 0
  {
    order, groups := [], map[];
    var i := 0;
    while i < |xs|
      invariant 0 <= i <= |xs|
      invariant IsGrouping(xs[..i], key, order, groups)
    {
      var x, k := xs[i], key(xs[i]);
      assert xs[..i + 1] == xs[..i] + [x];
      var order', groups' := order, groups;
      if k in groups {
        groups' := groups[k := groups[k] + [x]];
      } else {
        order' := order + [k];
        groups' := groups[k := [] + [x]];
      }
      GroupingSnoc(xs[..i], key, order, groups, x, order', groups');
      order, groups := order', groups';
      i := i + 1;
    }
    assert xs[..i] == xs;
  }

  /** `order` and `counts` are the tally dictionary of `values`. */
  ghost predicate IsTallyOf(values: seq<string>, order: seq<string>, counts: map<string, nat>) {
    && order == Dedup(values)
    && (forall k :: k in counts <==> k in values)
    && (forall k :: k in counts ==> counts[k] == Count(values, k) >= 1)
  }

  lemma TallySnoc(values: seq<string>, order: seq<string>, counts: map<string, nat>, v: string,
                  order': seq<string>, counts': map<string, nat>)
    requires IsTallyOf(values, order, counts)
    requires v !in counts ==> order' == order + [v] && counts' == counts[v := 1]
    requires v in counts ==> order' == order && counts' == counts[v := counts[v] + 1]
    ensures IsTallyOf(values + [v], order', counts')
  {
    DedupSnoc(values, v);
    assert v in Dedup(values) <==> v in counts;
    var ext := values + [v];
    assert multiset(ext) == multiset(values) + multiset{v};
    forall k
      ensures k in counts' <==> k in ext
      ensures k in counts' ==> counts'[k] == Count(ext, k) >= 1
    {
      assert k in ext <==> k in values || k == v;
      if k != v && k in counts {
        assert counts'[k] == counts[k];
      }
    }
  }

  /**
   * `values.forEach(v => counts[v] = (counts[v] || 0) + 1)`; `order` is the
   * dictionary's key order.
   */
  method Tally(values: seq<string>) returns (order: seq<string>, counts: map<string, nat>)
    ensures order == Dedup(values)
    ensures forall k :: k in counts <==> k in values
    ensures forall k :: k in counts ==> counts[k] == Count(values, k) >= 1
  {
    order, counts := [], map[];
    var i := 0;
    while i < |values|
      invariant 0 <= i <= |values|
      invariant IsTallyOf(values[..i], order, counts)
    {
      var v := values[i];
      assert values[..i + 1] == values[..i] + [v];
      var order', counts' := order, counts;
      if v !in counts {
        order' := order + [v];
        counts' := counts[v := 1];
      } else {
        counts' := counts[v := counts[v] + 1];
      }
      TallySnoc(values[..i], order, counts, v, order', counts');
      order, counts := order', counts';
      i := i + 1;
    }
    assert values[..i] == values;
  }
}
