/**
 * The aggregation stages the internal ranking uses, over an in-memory
 * sequence of documents: `$match` (Filter), `$sort` on one numeric field,
 * descending (SortDesc), `$limit` (Limit) and `$skip` (Skip).
 */
module Aggregation {

  /** `$match`: keeps the documents satisfying `p`, in their original order. */
  function Filter<T(!new)>(s: seq<T>, p: T -> bool): (r: seq<T>)
    ensures |r| <= |s|
    ensures forall x :: x in r <==> x in s && p(x)
    ensures forall x :: multiset(r)[x] == if p(x) then multiset(s)[x] else 0
  {
    if s == [] then []
    else
      assert s == [s[0]] + s[1..];
      if p(s[0]) then [s[0]] + Filter(s[1..], p) else Filter(s[1..], p)
  }

  /** Filtering distributes over concatenation, so relative order is kept. */
  lemma {:induction false} FilterConcat<T(!new)>(a: seq<T>, b: seq<T>, p: T -> bool)
    ensures Filter(a + b, p) == Filter(a, p) + Filter(b, p)
  {
    if a == [] {
      assert a + b == b;
    } else {
      assert (a + b)[1..] == a[1..] + b;
      FilterConcat(a[1..], b, p);
    }
  }

  /** Non-increasing in `key` from left to right. */
  ghost predicate SortedDesc<T>(s: seq<T>, key: T -> int) {
    forall i, j :: 0 <= i < j < |s| ==> key(s[i]) >= key(s[j])
  }

  /** Inserts `x` before the first element whose key is not larger. */
  function InsertDesc<T(!new)>(x: T, s: seq<T>, key: T -> int): (r: seq<T>)
    requires SortedDesc(s, key)
    ensures SortedDesc(r, key)
    ensures multiset(r) == multiset(s) + multiset{x}
    ensures forall y :: y in r <==> y == x || y in s
  {
    if s == [] then [x]
    else if key(x) >= key(s[0]) then
      PrependSorted(x, s, key);
      [x] + s
    else
      assert s == [s[0]] + s[1..];
      var rest := InsertDesc(x, s[1..], key);
      PrependSorted(s[0], rest, key);
      [s[0]] + rest
  }

  /** Putting in front an element whose key bounds every key of a sorted sequence keeps it sorted. */
  lemma PrependSorted<T(!new)>(x: T, s: seq<T>, key: T -> int)
    requires SortedDesc(s, key)
    requires forall y :: y in s ==> key(x) >= key(y)
    ensures SortedDesc([x] + s, key)
  {
    var r := [x] + s;
    forall i, j | 0 <= i < j < |r| ensures key(r[i]) >= key(r[j]) {
      assert r[j] == s[j - 1];
      if i > 0 { assert r[i] == s[i - 1]; }
    }
  }


  /** `$sort: {key: -1}`: a stable insertion sort, descending in `key`. */
  function SortDesc<T(!new)>(s: seq<T>, key: T -> int): (r: seq<T>)
    ensures SortedDesc(r, key)
    ensures multiset(r) == multiset(s)
    ensures |r| == |s|
  {
    if s == [] then []
    else
      assert s == [s[0]] + s[1..];
      InsertDesc(s[0], SortDesc(s[1..], key), key)
  }

  /** Removing one element keeps a sequence sorted. */
  lemma RemoveKeepsSorted<T(!new)>(b: seq<T>, i: nat, key: T -> int)
    requires i < |b| && SortedDesc(b, key)
    ensures SortedDesc(b[..i] + b[i+1..], key)
  {
    var b2 := b[..i] + b[i+1..];
    forall p, q | 0 <= p < q < |b2| ensures key(b2[p]) >= key(b2[q]) {
      var p' := if p < i then p else p + 1;
      var q' := if q < i then q else q + 1;
      assert b2[p] == b[p'] && b2[q] == b[q'];
    }
  }

  /** Removing the element at `i` removes one copy of it from the multiset. */
  lemma RemoveAtMultiset<T>(b: seq<T>, i: nat)
    requires i < |b|
    ensures multiset(b[..i] + b[i+1..]) == multiset(b) - multiset{b[i]}
  {
    assert b == b[..i] + [b[i]] + b[i+1..];
  }

  /** The first element of a non-empty sorted sequence carries its largest key. */
  lemma HeadIsMax<T(!new)>(a: seq<T>, x: T, key: T -> int)
    requires SortedDesc(a, key) && x in a
    ensures key(a[0]) >= key(x)
  {
    var j :| 0 <= j < |a| && a[j] == x;
  }

  /**
   * Any two sorted permutations of the same documents agree on the key at
   * every position, so the order `$sort` leaves among equal keys is the only
   * freedom it has.
   */
  lemma {:induction false} SortedPermutationsHaveSameKeys<T(!new)>(a: seq<T>, b: seq<T>, key: T -> int)
    requires SortedDesc(a, key) && SortedDesc(b, key)
    requires multiset(a) == multiset(b)
    ensures |a| == |b|
    ensures forall k :: 0 <= k < |a| ==> key(a[k]) == key(b[k])
    decreases |a|, 1
  {
    assert |a| == |multiset(a)| == |multiset(b)| == |b|;
    if a != [] {
      assert a[0] in multiset(b);
      assert a[0] in b;
      var i :| 0 <= i < |b| && b[i] == a[0];
      SortedPermutationsStep(a, b, i, key);
    }
  }

  /** Removes a[0] from both sides (from b at position i) and applies the induction hypothesis. */
  lemma {:induction false} SortedPermutationsStep<T(!new)>(a: seq<T>, b: seq<T>, i: nat, key: T -> int)
    requires SortedDesc(a, key) && SortedDesc(b, key)
    requires multiset(a) == multiset(b) && |a| == |b|
    requires i < |b| && b[i] == a[0]
    ensures forall k :: 0 <= k < |a| ==> key(a[k]) == key(b[k])
    decreases |a|, 0
  {
    assert b[0] in multiset(a);
    assert b[0] in a;
    HeadIsMax(a, b[0], key);
    HeadIsMax(b, a[0], key);
    var a', b2 := a[1..], b[..i] + b[i+1..];
    assert a == [a[0]] + a';
    assert multiset(a') == multiset(a) - multiset{a[0]};
    RemoveAtMultiset(b, i);
    RemoveKeepsSorted(b, i, key);
    assert SortedDesc(a', key) by {
      forall p, q | 0 <= p < q < |a'| ensures key(a'[p]) >= key(a'[q]) {
        assert a'[p] == a[p + 1] && a'[q] == a[q + 1];
      }
    }
    SortedPermutationsHaveSameKeys(a', b2, key);
    KeysAfterRemoval(a, b, i, a', b2, key);
  }

  /** The inductive step: b with a[0] removed at position i has the keys of a[1..]. */
  lemma KeysAfterRemoval<T(!new)>(a: seq<T>, b: seq<T>, i: nat, a': seq<T>, b2: seq<T>, key: T -> int)
    requires |a| == |b| && 0 < |a| && i < |b|
    requires a' == a[1..] && b2 == b[..i] + b[i+1..]
    requires SortedDesc(b, key) && b[i] == a[0] && key(a[0]) == key(b[0])
    requires |a'| == |b2| && forall k :: 0 <= k < |a'| ==> key(a'[k]) == key(b2[k])
    ensures forall k :: 0 <= k < |a| ==> key(a[k]) == key(b[k])
  {
    forall k | 0 <= k < |a| ensures key(a[k]) == key(b[k]) {
      if 0 < k <= i {
        // Everything in b up to position i has the key of b[0], which is that of b[i].
        assert a[k] == a'[k - 1] && b2[k - 1] == b[k - 1];
        assert key(b[0]) >= key(b[k - 1]) >= key(b[k]) >= key(b[i]);
      } else if k > i {
        assert a[k] == a'[k - 1] && b2[k - 1] == b[k];
      }
    }
  }

  /** `$limit: n`: the first `n` documents (all of them when there are fewer). */
  function Limit<T(!new)>(s: seq<T>, n: nat): (r: seq<T>)
    ensures |r| == if n < |s| then n else |s|
    ensures r <= s
    ensures forall x :: x in r ==> x in s
  {
    if n < |s| then s[..n] else s
  }

  /** Nothing `$limit` leaves out of a sorted sequence has a larger key than what it keeps. */
  lemma LimitKeepsLargest<T(!new)>(s: seq<T>, key: T -> int, n: nat, x: T)
    requires SortedDesc(s, key) && x in s && x !in Limit(s, n)
    ensures forall y :: y in Limit(s, n) ==> key(y) >= key(x)
  {
    var k :| 0 <= k < |s| && s[k] == x;
    assert n <= k;
    forall y | y in Limit(s, n) ensures key(y) >= key(x) {
      var j :| 0 <= j < |Limit(s, n)| && Limit(s, n)[j] == y;
      assert s[j] == y;
    }
  }

  /** `$skip: n`: everything after the first `n` documents (none when there are fewer). */
  function Skip<T(!new)>(s: seq<T>, n: nat): (r: seq<T>)
    ensures |r| == if n < |s| then |s| - n else 0
    ensures forall i :: 0 <= i < |r| ==> r[i] == s[n + i]
    ensures forall x :: x in r ==> x in s
  {
    if n < |s| then s[n..] else []
  }

  /**
   * `$limit` followed by `$skip` keeps the window [offset, min(limit, |s|))
   * of its input, in order.
   */
  lemma LimitThenSkip<T(!new)>(s: seq<T>, limit: nat, offset: nat)
    ensures var top := if limit < |s| then limit else |s|;
            var r := Skip(Limit(s, limit), offset);
            && |r| == (if offset < top then top - offset else 0)
            && forall i :: 0 <= i < |r| ==> r[i] == s[offset + i]
  {
    var page := Limit(s, limit);
    var r := Skip(page, offset);
    forall i | 0 <= i < |r| ensures r[i] == s[offset + i] {
      assert r[i] == page[offset + i];
    }
  }

  /** `$skip: 0` changes nothing. */
  lemma SkipNone<T(!new)>(s: seq<T>)
    ensures Skip(s, 0) == s
  {
  }
}
