/** Fixed-width time bucketing shared by the two charts. Both bucketers
    place a timestamp `ts` in bucket `floor((ts - origin) / width)`: the
    aggregate dashboard with origin = the smallest timestamp and width 10 s,
    the participant's own log with origin = the session start and width 60 s.
    Dafny's `/` by a positive divisor rounds toward negative infinity, which
    is exactly `Math.floor` of the real quotient. */
module Buckets {

  function BucketOf(ts: int, origin: int, width: nat): (b: int)
    requires width > 0
    ensures origin + b * width <= ts < origin + (b + 1) * width
    ensures ts >= origin <==> b >= 0
  {
    (ts - origin) / width
  }

  /** The timestamp is not before the origin and falls into bucket b. */
  predicate InBucket(ts: int, origin: int, width: nat, b: int)
    requires width > 0
  {
    ts >= origin && BucketOf(ts, origin, width) == b
  }

  /** How many timestamps of s fall into bucket b. */
  function Count(s: seq<int>, origin: int, width: nat, b: int): (r: nat)
    requires width > 0
    ensures r <= |s|
  {
    if |s| == 0 then 0
    else Count(s[..|s| - 1], origin, width, b) + (if InBucket(s[|s| - 1], origin, width, b) then 1 else 0)
  }

  /** How many timestamps of s are not before the origin. */
  function CountFrom(s: seq<int>, origin: int): (r: nat)
    ensures r <= |s|
  {
    if |s| == 0 then 0
    else CountFrom(s[..|s| - 1], origin) + (if s[|s| - 1] >= origin then 1 else 0)
  }

  /** How many timestamps of s are not before the origin and fall into one of the buckets 0 .. m-1. */
  function CountBelow(s: seq<int>, origin: int, width: nat, m: int): (r: nat)
    requires width > 0
    ensures r <= |s|
  {
    if |s| == 0 then 0
    else CountBelow(s[..|s| - 1], origin, width, m)
         + (if s[|s| - 1] >= origin && BucketOf(s[|s| - 1], origin, width) < m then 1 else 0)
  }

  /** Count(s, origin, width, 0) + ... + Count(s, origin, width, m - 1). */
  function SumCounts(s: seq<int>, origin: int, width: nat, m: nat): nat
    requires width > 0
  {
    if m == 0 then 0 else SumCounts(s, origin, width, m - 1) + Count(s, origin, width, m - 1)
  }

  lemma CountSnoc(s: seq<int>, x: int, origin: int, width: nat, b: int)
    requires width > 0
    ensures Count(s + [x], origin, width, b) == Count(s, origin, width, b) + (if InBucket(x, origin, width, b) then 1 else 0)
  {
    assert (s + [x])[..|s|] == s;
  }

  lemma {:induction false} SumCountsSnoc(s: seq<int>, x: int, origin: int, width: nat, m: nat)
    requires width > 0
    ensures SumCounts(s + [x], origin, width, m)
            == SumCounts(s, origin, width, m) + (if x >= origin && BucketOf(x, origin, width) < m then 1 else 0)
  {
    if m > 0 {
      SumCountsSnoc(s, x, origin, width, m - 1);
      CountSnoc(s, x, origin, width, m - 1);
    }
  }

  /** Summing the per-bucket counts of buckets 0 .. m-1 counts each timestamp
      of those buckets exactly once. */
  lemma {:induction false} SumCountsIsCountBelow(s: seq<int>, origin: int, width: nat, m: nat)
    requires width > 0
    ensures SumCounts(s, origin, width, m) == CountBelow(s, origin, width, m)
  {
    if |s| == 0 {
      SumCountsOfEmpty(origin, width, m);
    } else {
      var p, x := s[..|s| - 1], s[|s| - 1];
      assert s == p + [x];
      SumCountsIsCountBelow(p, origin, width, m);
      SumCountsSnoc(p, x, origin, width, m);
    }
  }

  lemma {:induction false} SumCountsOfEmpty(origin: int, width: nat, m: nat)
    requires width > 0
    ensures SumCounts([], origin, width, m) == 0
  {
    if m > 0 {
      SumCountsOfEmpty(origin, width, m - 1);
    }
  }

  lemma {:induction false} CountBelowAtMostCountFrom(s: seq<int>, origin: int, width: nat, m: int)
    requires width > 0
    ensures CountBelow(s, origin, width, m) <= CountFrom(s, origin)
  {
    if |s| > 0 {
      CountBelowAtMostCountFrom(s[..|s| - 1], origin, width, m);
    }
  }

  /** When every timestamp not before the origin lies in buckets 0 .. m-1,
      those buckets together hold all of them. */
  lemma {:induction false} CountBelowIsCountFrom(s: seq<int>, origin: int, width: nat, m: int)
    requires width > 0
    requires forall k :: 0 <= k < |s| && s[k] >= origin ==> BucketOf(s[k], origin, width) < m
    ensures CountBelow(s, origin, width, m) == CountFrom(s, origin)
  {
    if |s| > 0 {
      var p := s[..|s| - 1];
      assert forall k :: 0 <= k < |p| ==> p[k] == s[k];
      CountBelowIsCountFrom(p, origin, width, m);
    }
  }

  lemma {:induction false} CountConcat(a: seq<int>, c: seq<int>, origin: int, width: nat, b: int)
    requires width > 0
    ensures Count(a + c, origin, width, b) == Count(a, origin, width, b) + Count(c, origin, width, b)
  {
    if |c| == 0 {
      assert a + c == a;
    } else {
      var p, x := c[..|c| - 1], c[|c| - 1];
      assert c == p + [x];
      assert a + c == (a + p) + [x];
      CountConcat(a, p, origin, width, b);
      CountSnoc(a + p, x, origin, width, b);
      CountSnoc(p, x, origin, width, b);
    }
  }

  /** A bucket's count does not depend on the order of the timestamps. */
  lemma {:induction false} CountPermutation(a: seq<int>, c: seq<int>, origin: int, width: nat, b: int)
    requires width > 0
    requires multiset(a) == multiset(c)
    ensures Count(a, origin, width, b) == Count(c, origin, width, b)
  {
    if |a| == 0 {
      assert |c| == |multiset(c)| == 0;
    } else {
      var p, x := a[..|a| - 1], a[|a| - 1];
      assert a == p + [x];
      assert x in multiset(c);
      var j :| 0 <= j < |c| && c[j] == x;
      var rest := c[..j] + c[j + 1..];
      assert c == c[..j] + [x] + c[j + 1..];
      assert multiset(a) == multiset(p) + multiset{x};
      assert multiset(c) == multiset(c[..j]) + multiset{x} + multiset(c[j + 1..]);
      assert multiset(rest) == multiset(c[..j]) + multiset(c[j + 1..]);
      assert multiset(p) == multiset(a) - multiset{x};
      assert multiset(rest) == multiset(c) - multiset{x};
      CountPermutation(p, rest, origin, width, b);
      CountSnoc(p, x, origin, width, b);
      CountConcat(c[..j] + [x], c[j + 1..], origin, width, b);
      CountSnoc(c[..j], x, origin, width, b);
      CountConcat(c[..j], c[j + 1..], origin, width, b);
    }
  }

  /** A bucket that some timestamp falls into has a positive count. */
  lemma {:induction false} CountPositive(s: seq<int>, origin: int, width: nat, b: int, i: nat)
    requires width > 0
    requires i < |s| && InBucket(s[i], origin, width, b)
    ensures Count(s, origin, width, b) >= 1
  {
    if i < |s| - 1 {
      CountPositive(s[..|s| - 1], origin, width, b, i);
    }
  }

  /** When no timestamp is before the origin, all of them are counted from it. */
  lemma {:induction false} CountFromAll(s: seq<int>, origin: int)
    requires forall k :: 0 <= k < |s| ==> s[k] >= origin
    ensures CountFrom(s, origin) == |s|
  {
    if |s| > 0 {
      CountFromAll(s[..|s| - 1], origin);
    }
  }
}
