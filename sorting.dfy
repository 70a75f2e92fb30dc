/**
 Python's built-in `sorted(xs, key=k)` for a key with natural-number values:
 a stable sort, modelled as insertion of each element in front of the first
 element whose key is at least its own. Beside sortedness and permutation, the
 model is proved equal to the reference ordering "all elements of key 0 in
 input order, then all of key 1, ...", which is what stability promises.
 */
module Sorting {

  /** Keys never decrease from left to right. */
  predicate SortedBy<T>(s: seq<T>, key: T -> nat) {
    forall i, j :: 0 <= i < j < |s| ==> key(s[i]) <= key(s[j])
  }

  /** The sum of a weight over a sequence. */
  function SumBy<T>(s: seq<T>, weight: T -> nat): nat
    decreases |s|
  {
    if s == [] then 0 else weight(s[0]) + SumBy(s[1..], weight)
  }

  /** Places x before the first element of t whose key is at least key(x). */
  function Insert<T>(x: T, t: seq<T>, key: T -> nat): (r: seq<T>)
    ensures |r| == |t| + 1
    decreases |t|
  {
    if t == [] then [x]
    else if key(x) <= key(t[0]) then [x] + t
    else
      assert t == [t[0]] + t[1..];
      [t[0]] + Insert(x, t[1..], key)
  }

  /** Inserting adds exactly the one new element. */
  lemma {:induction false} InsertPermutes<T>(x: T, t: seq<T>, key: T -> nat)
    ensures multiset(Insert(x, t, key)) == multiset{x} + multiset(t)
    decreases |t|
  {
    if t != [] && key(x) > key(t[0]) {
      InsertPermutes(x, t[1..], key);
      assert t == [t[0]] + t[1..];
    }
  }

  /** Inserting into a sorted sequence keeps it sorted. */
  lemma {:induction false} InsertSorted<T>(x: T, t: seq<T>, key: T -> nat)
    requires SortedBy(t, key)
    ensures SortedBy(Insert(x, t, key), key)
    decreases |t|
  {
    if t != [] && key(x) > key(t[0]) {
      var tail := Insert(x, t[1..], key);
      InsertSorted(x, t[1..], key);
      InsertPermutes(x, t[1..], key);
      forall y | y in tail ensures key(t[0]) <= key(y) {
        assert y in multiset(tail);
        if y != x {
          assert y in t[1..];
        }
      }
      SortedCons(t[0], tail, key);
    }
  }

  /** A sorted sequence stays sorted behind an element whose key is at most all of its keys. */
  lemma SortedCons<T>(x: T, t: seq<T>, key: T -> nat)
    requires SortedBy(t, key)
    requires forall y | y in t :: key(x) <= key(y)
    ensures SortedBy([x] + t, key)
  {
    var r := [x] + t;
    forall i, j | 0 <= i < j < |r| ensures key(r[i]) <= key(r[j]) {
      assert r[j] == t[j - 1];
      if i > 0 {
        assert r[i] == t[i - 1];
      }
    }
  }

  /** Inserting adds the weight of the new element to the total. */
  lemma {:induction false} InsertSum<T>(x: T, t: seq<T>, key: T -> nat, weight: T -> nat)
    ensures SumBy(Insert(x, t, key), weight) == weight(x) + SumBy(t, weight)
    decreases |t|
  {
    if t != [] {
      if key(x) <= key(t[0]) {
        assert ([x] + t)[1..] == t;
      } else {
        InsertSum(x, t[1..], key, weight);
        assert ([t[0]] + Insert(x, t[1..], key))[1..] == Insert(x, t[1..], key);
      }
    }
  }

  /** `sorted(s, key=key)`. */
  function SortByKey<T>(s: seq<T>, key: T -> nat): (r: seq<T>)
    ensures |r| == |s|
    decreases |s|
  {
    if s == [] then [] else Insert(s[0], SortByKey(s[1..], key), key)
  }

  /** Sorting neither adds nor drops elements. */
  lemma {:induction false} SortPermutes<T>(s: seq<T>, key: T -> nat)
    ensures multiset(SortByKey(s, key)) == multiset(s)
    decreases |s|
  {
    if s != [] {
      SortPermutes(s[1..], key);
      InsertPermutes(s[0], SortByKey(s[1..], key), key);
      assert s == [s[0]] + s[1..];
    }
  }

  /** The result of sorting is sorted. */
  lemma {:induction false} SortSorted<T>(s: seq<T>, key: T -> nat)
    ensures SortedBy(SortByKey(s, key), key)
    decreases |s|
  {
    if s != [] {
      SortSorted(s[1..], key);
      InsertSorted(s[0], SortByKey(s[1..], key), key);
    }
  }

  /** Sorting keeps the total of any weight. */
  lemma {:induction false} SortKeepsSum<T>(s: seq<T>, key: T -> nat, weight: T -> nat)
    ensures SumBy(SortByKey(s, key), weight) == SumBy(s, weight)
    decreases |s|
  {
    if s != [] {
      SortKeepsSum(s[1..], key, weight);
      InsertSum(s[0], SortByKey(s[1..], key), key, weight);
    }
  }

  /** The elements of s with key k, in their order in s. */
  function Bucket<T>(s: seq<T>, key: T -> nat, k: nat): seq<T>
    decreases |s|
  {
    if s == [] then [] else (if key(s[0]) == k then [s[0]] else []) + Bucket(s[1..], key, k)
  }

  /** The buckets of keys lo, lo + 1, ..., top laid end to end. */
  function Grouped<T>(s: seq<T>, key: T -> nat, lo: nat, top: nat): seq<T>
    decreases top + 1 - lo
  {
    if lo > top then [] else Bucket(s, key, lo) + Grouped(s, key, lo + 1, top)
  }

  lemma {:induction false} BucketInsert<T>(x: T, t: seq<T>, key: T -> nat, k: nat)
    ensures Bucket(Insert(x, t, key), key, k) == (if key(x) == k then [x] else []) + Bucket(t, key, k)
    decreases |t|
  {
    if t != [] && key(x) > key(t[0]) {
      BucketInsert(x, t[1..], key, k);
      BucketInsertPast(x, t, key, k);
    } else if t != [] {
      BucketCons(x, t, key, k);
    }
  }

  /** The step of BucketInsert where x passes the first element of t. */
  lemma BucketInsertPast<T>(x: T, t: seq<T>, key: T -> nat, k: nat)
    requires t != [] && key(x) > key(t[0])
    requires Bucket(Insert(x, t[1..], key), key, k) == (if key(x) == k then [x] else []) + Bucket(t[1..], key, k)
    ensures Bucket(Insert(x, t, key), key, k) == (if key(x) == k then [x] else []) + Bucket(t, key, k)
  {
    var tail := Insert(x, t[1..], key);
    BucketCons(t[0], tail, key, k);
    BucketCons(t[0], t[1..], key, k);
    assert Insert(x, t, key) == [t[0]] + tail;
    assert t == [t[0]] + t[1..];
  }

  /** The bucket of a sequence with a given first element. */
  lemma BucketCons<T>(x: T, t: seq<T>, key: T -> nat, k: nat)
    ensures Bucket([x] + t, key, k) == (if key(x) == k then [x] else []) + Bucket(t, key, k)
  {
    assert ([x] + t)[1..] == t;
  }

  /** Sorting keeps every bucket: elements with equal keys stay in input order. */
  lemma {:induction false} SortKeepsBuckets<T>(s: seq<T>, key: T -> nat, k: nat)
    ensures Bucket(SortByKey(s, key), key, k) == Bucket(s, key, k)
    decreases |s|
  {
    if s != [] {
      SortKeepsBuckets(s[1..], key, k);
      BucketInsert(s[0], SortByKey(s[1..], key), key, k);
    }
  }

  /** The grouping depends on the buckets alone. */
  lemma {:induction false} GroupedByBuckets<T>(a: seq<T>, b: seq<T>, key: T -> nat, lo: nat, top: nat)
    requires forall k :: Bucket(a, key, k) == Bucket(b, key, k)
    ensures Grouped(a, key, lo, top) == Grouped(b, key, lo, top)
    decreases top + 1 - lo
  {
    if lo <= top {
      GroupedByBuckets(a, b, key, lo + 1, top);
    }
  }

  /** Dropping a first element of a smaller key changes none of the buckets from lo upwards. */
  lemma {:induction false} GroupedSkips<T>(t: seq<T>, key: T -> nat, lo: nat, top: nat)
    requires t != [] && key(t[0]) < lo
    ensures Grouped(t, key, lo, top) == Grouped(t[1..], key, lo, top)
    decreases top + 1 - lo
  {
    if lo <= top {
      assert Bucket(t, key, lo) == Bucket(t[1..], key, lo);
      GroupedSkips(t, key, lo + 1, top);
    }
  }

  /** The bucket of a key that no element of t has is empty. */
  lemma {:induction false} BucketAbsent<T>(t: seq<T>, key: T -> nat, k: nat)
    requires forall i :: 0 <= i < |t| ==> key(t[i]) != k
    ensures Bucket(t, key, k) == []
    decreases |t|
  {
    if t != [] {
      BucketAbsent(t[1..], key, k);
    }
  }

  /** Grouping the empty sequence gives the empty sequence. */
  lemma {:induction false} GroupedEmpty<T>(key: T -> nat, lo: nat, top: nat)
    ensures Grouped([], key, lo, top) == []
    decreases top + 1 - lo
  {
    if lo <= top {
      GroupedEmpty(key, lo + 1, top);
    }
  }

  /** A sequence opening with an element of key lo is grouped from lo when its tail is. */
  lemma GroupedHead<T>(t: seq<T>, key: T -> nat, lo: nat, top: nat)
    requires t != [] && key(t[0]) == lo <= top
    requires t[1..] == Grouped(t[1..], key, lo, top)
    ensures t == Grouped(t, key, lo, top)
  {
    var rest := t[1..];
    GroupedSkips(t, key, lo + 1, top);
    assert Bucket(t, key, lo) == [t[0]] + Bucket(rest, key, lo);
    ConsAppend(t[0], Bucket(rest, key, lo), Grouped(rest, key, lo + 1, top));
    calc {
      Grouped(t, key, lo, top);
      ([t[0]] + Bucket(rest, key, lo)) + Grouped(rest, key, lo + 1, top);
      [t[0]] + (Bucket(rest, key, lo) + Grouped(rest, key, lo + 1, top));
      [t[0]] + rest;
      t;
    }
  }

  /** Concatenation regroups around a first element. */
  lemma ConsAppend<T>(x: T, a: seq<T>, b: seq<T>)
    ensures ([x] + a) + b == [x] + (a + b)
  {
  }

  /** A sequence with no element of key lo is grouped from lo when it is grouped from lo + 1. */
  lemma GroupedAbove<T>(t: seq<T>, key: T -> nat, lo: nat, top: nat)
    requires lo <= top
    requires forall i :: 0 <= i < |t| ==> key(t[i]) > lo
    requires t == Grouped(t, key, lo + 1, top)
    ensures t == Grouped(t, key, lo, top)
  {
    BucketAbsent(t, key, lo);
    calc {
      Grouped(t, key, lo, top);
      [] + Grouped(t, key, lo + 1, top);
      Grouped(t, key, lo + 1, top);
    }
  }

  /** The tail of a sorted sequence is sorted. */
  lemma SortedTail<T>(t: seq<T>, key: T -> nat)
    requires t != [] && SortedBy(t, key)
    ensures SortedBy(t[1..], key)
  {
    var rest := t[1..];
    forall i, j | 0 <= i < j < |rest| ensures key(rest[i]) <= key(rest[j]) {
      assert rest[i] == t[i + 1] && rest[j] == t[j + 1];
    }
  }

  /** A sorted sequence with keys between lo and top is its own grouping from lo. */
  lemma {:induction false} SortedIsGrouped<T>(t: seq<T>, key: T -> nat, lo: nat, top: nat)
    requires SortedBy(t, key)
    requires forall i :: 0 <= i < |t| ==> lo <= key(t[i]) <= top
    ensures t == Grouped(t, key, lo, top)
    decreases |t|, top + 1 - lo
  {
    if t == [] {
      GroupedEmpty(key, lo, top);
    } else if key(t[0]) == lo {
      SortedTail(t, key);
      SortedIsGrouped(t[1..], key, lo, top);
      GroupedHead(t, key, lo, top);
    } else {
      forall i | 0 <= i < |t| ensures key(t[i]) > lo {
        assert key(t[0]) <= key(t[i]);
      }
      SortedIsGrouped(t, key, lo + 1, top);
      GroupedAbove(t, key, lo, top);
    }
  }

  /**
   The stable sort lists the elements of key 0 in input order, then those of
   key 1, and so on up to the largest key.
   */
  lemma SortIsGrouping<T>(s: seq<T>, key: T -> nat, top: nat)
    requires forall i :: 0 <= i < |s| ==> key(s[i]) <= top
    ensures SortByKey(s, key) == Grouped(s, key, 0, top)
  {
    var r := SortByKey(s, key);
    SortPermutes(s, key);
    SortSorted(s, key);
    forall k | true ensures Bucket(r, key, k) == Bucket(s, key, k) {
      SortKeepsBuckets(s, key, k);
    }
    GroupedByBuckets(r, s, key, 0, top);
    forall i | 0 <= i < |r| ensures key(r[i]) <= top {
      assert r[i] in multiset(s);
      var j :| 0 <= j < |s| && s[j] == r[i];
    }
    SortedIsGrouped(r, key, 0, top);
  }

  /** The grouping from lo is empty when every key is below lo. */
  lemma {:induction false} GroupedBelow<T>(s: seq<T>, key: T -> nat, lo: nat, top: nat)
    requires forall i :: 0 <= i < |s| ==> key(s[i]) < lo
    ensures Grouped(s, key, lo, top) == []
    decreases top + 1 - lo
  {
    if lo <= top {
      BucketAbsent(s, key, lo);
      GroupedBelow(s, key, lo + 1, top);
    }
  }

  /** With keys 0, 1 and 2 only, the grouping is those three buckets in turn. */
  lemma GroupedFirstThree<T>(s: seq<T>, key: T -> nat, top: nat)
    requires forall i :: 0 <= i < |s| ==> key(s[i]) <= 2
    requires 2 <= top
    ensures Grouped(s, key, 0, top) == Bucket(s, key, 0) + Bucket(s, key, 1) + Bucket(s, key, 2)
  {
    GroupedBelow(s, key, 3, top);
    calc {
      Grouped(s, key, 0, top);
      Bucket(s, key, 0) + Grouped(s, key, 1, top);
      Bucket(s, key, 0) + (Bucket(s, key, 1) + Grouped(s, key, 2, top));
      Bucket(s, key, 0) + (Bucket(s, key, 1) + (Bucket(s, key, 2) + Grouped(s, key, 3, top)));
      Bucket(s, key, 0) + Bucket(s, key, 1) + Bucket(s, key, 2);
    }
  }

  /** With keys 0, 1 and 2 only, the stable sort lists the three buckets in turn. */
  lemma SortFirstThree<T>(s: seq<T>, key: T -> nat)
    requires forall i :: 0 <= i < |s| ==> key(s[i]) <= 2
    ensures SortByKey(s, key) == Bucket(s, key, 0) + Bucket(s, key, 1) + Bucket(s, key, 2)
  {
    SortIsGrouping(s, key, 2);
    GroupedFirstThree(s, key, 2);
  }
}
