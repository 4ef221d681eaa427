/** The dashboard's absolute-time bucketer (`buildSeriesFromTimestamps`):
    raw tap timestamps become a gap-filled series of 10-second buckets whose
    time origin is the earliest tap, of which the newest 80 are kept and the
    first and last are captioned "start" and "now". */
module AggregateSeries {
  import opened Common
  import opened Buckets

  const AGGREGATE_BUCKET_MS: nat := 10000
  const MAX_POINTS: nat := 80

  /** One point of the dashboard chart. `displayLabel` is None where the
      source leaves it `null` (only the synthetic series does). */
  datatype Point = Point(time: int, value: nat, labelText: string, index: nat, displayLabel: Option<string>)

  /** The smallest timestamp: element 0 of the sorted copy. */
  function Minimum(s: seq<int>): (m: int)
    requires |s| > 0
    ensures m in s
    ensures forall k :: 0 <= k < |s| ==> m <= s[k]
  {
    if |s| == 1 then s[0]
    else
      var m' := Minimum(s[..|s| - 1]);
      assert m' in s[..|s| - 1];
      if s[|s| - 1] < m' then s[|s| - 1] else m'
  }

  /** `Math.max(...bucketCounts.keys(), 0)`: the largest bucket index any timestamp falls into. */
  function MaxBucket(s: seq<int>, t0: int): (m: int)
    ensures m >= 0
    ensures forall k :: 0 <= k < |s| ==> BucketOf(s[k], t0, AGGREGATE_BUCKET_MS) <= m
    ensures m == 0 || exists k :: 0 <= k < |s| && BucketOf(s[k], t0, AGGREGATE_BUCKET_MS) == m
  {
    if |s| == 0 then 0
    else
      var m' := MaxBucket(s[..|s| - 1], t0);
      var b := BucketOf(s[|s| - 1], t0, AGGREGATE_BUCKET_MS);
      if b > m' then b else m'
  }

  /** Bucket i of the gap-filled series, before truncation and relabelling. */
  function FilledPoint(s: seq<int>, t0: int, i: nat): Point {
    Point(t0 + i * AGGREGATE_BUCKET_MS, Count(s, t0, AGGREGATE_BUCKET_MS, i), NatToString(i), i,
          if i == 0 then Some(START_LABEL) else Some(""))
  }

  /** Every bucket from 0 to the largest observed one, in order. */
  function GapFilled(s: seq<int>): seq<Point>
    requires |s| > 0
  {
    var t0 := Minimum(s);
    seq(MaxBucket(s, t0) + 1, i requires 0 <= i <= MaxBucket(s, t0) => FilledPoint(s, t0, i))
  }

  /** The captions forced after truncation: first "start", then last "now" (the later write wins on a single point). */
  function ForceEnds(p: seq<Point>): seq<Point> {
    if |p| == 0 then p
    else
      var q := p[0 := p[0].(displayLabel := Some(START_LABEL))];
      q[|q| - 1 := q[|q| - 1].(displayLabel := Some(CURRENT_LABEL))]
  }

  /** The series `buildSeriesFromTimestamps` returns. */
  function Series(s: seq<int>): seq<Point> {
    if |s| == 0 then [] else ForceEnds(Last(GapFilled(s), MAX_POINTS))
  }

  /** `reduce((acc, d) => acc + d.value, 0)`. */
  function TotalValue(p: seq<Point>): nat {
    if |p| == 0 then 0 else TotalValue(p[..|p| - 1]) + p[|p| - 1].value
  }

  /** Element 0 of the sorted copy of a non-empty sequence. */
  method SmallestTimestamp(timestamps: seq<int>) returns (t0: int)
    requires |timestamps| > 0
    ensures t0 == Minimum(timestamps)
  {
    t0 := timestamps[0];
    var i := 1;
    while i < |timestamps|
      invariant 1 <= i <= |timestamps|
      invariant t0 == Minimum(timestamps[..i])
    {
      assert timestamps[..i + 1][..i] == timestamps[..i];
      if timestamps[i] < t0 {
        t0 := timestamps[i];
      }
      i := i + 1;
    }
    assert timestamps[..i] == timestamps;
  }

  /** The `bucketCounts` map filled by the `forEach`: its keys are exactly the
      observed buckets and each holds that bucket's count. */
  method CountByBucket(timestamps: seq<int>, t0: int) returns (bucketCounts: map<int, nat>)
    requires forall k :: 0 <= k < |timestamps| ==> timestamps[k] >= t0
    ensures forall b :: b in bucketCounts <==> exists k :: 0 <= k < |timestamps| && BucketOf(timestamps[k], t0, AGGREGATE_BUCKET_MS) == b
    ensures forall b :: Count(timestamps, t0, AGGREGATE_BUCKET_MS, b) == if b in bucketCounts then bucketCounts[b] else 0
  {
    bucketCounts := map[];
    var i := 0;
    while i < |timestamps|
      invariant 0 <= i <= |timestamps|
      invariant forall b :: b in bucketCounts <==> exists k :: 0 <= k < i && BucketOf(timestamps[k], t0, AGGREGATE_BUCKET_MS) == b
      invariant forall b :: Count(timestamps[..i], t0, AGGREGATE_BUCKET_MS, b) == if b in bucketCounts then bucketCounts[b] else 0
    {
      var bucket := BucketOf(timestamps[i], t0, AGGREGATE_BUCKET_MS);
      assert timestamps[..i + 1][..i] == timestamps[..i];
      bucketCounts := bucketCounts[bucket := (if bucket in bucketCounts then bucketCounts[bucket] else 0) + 1];
      i := i + 1;
    }
    assert timestamps[..i] == timestamps;
  }

  /** `Math.max(...bucketCounts.keys(), 0)`. */
  method LargestKey(bucketCounts: map<int, nat>) returns (maxBucket: int)
    ensures maxBucket >= 0
    ensures forall b :: b in bucketCounts ==> b <= maxBucket
    ensures maxBucket == 0 || maxBucket in bucketCounts
  {
    maxBucket := 0;
    var keys := bucketCounts.Keys;
    while keys != {}
      invariant keys <= bucketCounts.Keys
      invariant maxBucket >= 0
      invariant forall b :: b in bucketCounts && b !in keys ==> b <= maxBucket
      invariant maxBucket == 0 || maxBucket in bucketCounts
      decreases keys
    {
      assert exists x :: x in keys by {
        if forall x :: x !in keys {
          assert false;
        }
      }
      var b :| b in keys;
      if b > maxBucket {
        maxBucket := b;
      }
      keys := keys - {b};
    }
  }

  method BuildSeriesFromTimestamps(timestamps: seq<int>) returns (series: seq<Point>)
    ensures series == Series(timestamps)
  {
    if |timestamps| == 0 {
      return [];
    }
    var t0 := SmallestTimestamp(timestamps);
    var bucketCounts := CountByBucket(timestamps, t0);
    var maxBucket := LargestKey(bucketCounts);
    ghost var observed := MaxBucket(timestamps, t0);
    if observed != 0 {
      var k :| 0 <= k < |timestamps| && BucketOf(timestamps[k], t0, AGGREGATE_BUCKET_MS) == observed;
      assert observed in bucketCounts;
    }
    if maxBucket != 0 {
      var k :| 0 <= k < |timestamps| && BucketOf(timestamps[k], t0, AGGREGATE_BUCKET_MS) == maxBucket;
    }
    assert maxBucket == observed;

    var arr: seq<Point> := [];
    var j := 0;
    while j <= maxBucket
      invariant 0 <= j <= maxBucket + 1
      invariant |arr| == j
      invariant forall k :: 0 <= k < j ==> arr[k] == FilledPoint(timestamps, t0, k)
    {
      arr := arr + [Point(t0 + j * AGGREGATE_BUCKET_MS, if j in bucketCounts then bucketCounts[j] else 0,
                          NatToString(j), j, if j == 0 then Some(START_LABEL) else Some(""))];
      j := j + 1;
    }
    assert arr == GapFilled(timestamps);

    var sliced := Last(arr, MAX_POINTS);
    if |sliced| > 0 {
      sliced := sliced[0 := sliced[0].(displayLabel := Some(START_LABEL))];
    }
    if |sliced| > 0 {
      sliced := sliced[|sliced| - 1 := sliced[|sliced| - 1].(displayLabel := Some(CURRENT_LABEL))];
    }
    series := sliced;
  }

  // ---- Properties of the series ----

  lemma {:induction false} TotalValuePrefix(s: seq<int>, m: nat)
    requires |s| > 0 && m <= |GapFilled(s)|
    ensures TotalValue(GapFilled(s)[..m]) == SumCounts(s, Minimum(s), AGGREGATE_BUCKET_MS, m)
  {
    if m > 0 {
      assert GapFilled(s)[..m][..m - 1] == GapFilled(s)[..m - 1];
      TotalValuePrefix(s, m - 1);
    }
  }

  /** The gap-filled values add up to the number of timestamps: every timestamp lands in a bucket that is kept. */
  lemma {:induction false} GapFilledTotal(s: seq<int>)
    requires |s| > 0
    ensures forall k :: 0 <= k < |s| ==> 0 <= BucketOf(s[k], Minimum(s), AGGREGATE_BUCKET_MS) < |GapFilled(s)|
    ensures TotalValue(GapFilled(s)) == |s|
  {
    var t0, g := Minimum(s), GapFilled(s);
    var m := |g|;
    TotalValuePrefix(s, m);
    assert g[..m] == g;
    SumCountsIsCountBelow(s, t0, AGGREGATE_BUCKET_MS, m);
    CountBelowIsCountFrom(s, t0, AGGREGATE_BUCKET_MS, m);
    CountFromAll(s, t0);
  }

  /** The first bucket holds the minimum and the last one is an observed bucket, so neither is empty. */
  lemma {:induction false} GapFilledEnds(s: seq<int>)
    requires |s| > 0
    ensures GapFilled(s)[0].value >= 1
    ensures GapFilled(s)[|GapFilled(s)| - 1].value >= 1
  {
    var t0, g := Minimum(s), GapFilled(s);
    var m := |g|;
    var k0 :| 0 <= k0 < |s| && s[k0] == t0;
    CountPositive(s, t0, AGGREGATE_BUCKET_MS, 0, k0);
    if m - 1 == 0 {
      assert g[m - 1] == g[0];
    } else {
      var k :| 0 <= k < |s| && BucketOf(s[k], t0, AGGREGATE_BUCKET_MS) == m - 1;
      CountPositive(s, t0, AGGREGATE_BUCKET_MS, m - 1, k);
    }
  }

  /** Before truncation: bucket i starts at t0 + i*10000 and counts the
      timestamps that fall into it, the indices run 0 .. maxBucket without a
      gap, every timestamp lands in one of them, the counts add up to the number
      of timestamps, and the first and the last bucket are never empty. */
  lemma GapFilledCounts(s: seq<int>)
    requires |s| > 0
    ensures var t0, g := Minimum(s), GapFilled(s);
      && |g| == MaxBucket(s, t0) + 1
      && (forall i :: 0 <= i < |g| ==>
            g[i].index == i && g[i].time == t0 + i * AGGREGATE_BUCKET_MS
            && g[i].value == Count(s, t0, AGGREGATE_BUCKET_MS, i))
      && (forall k :: 0 <= k < |s| ==> 0 <= BucketOf(s[k], t0, AGGREGATE_BUCKET_MS) < |g|)
      && TotalValue(g) == |s|
      && g[0].value >= 1
      && g[|g| - 1].value >= 1
  {
    GapFilledTotal(s);
    GapFilledEnds(s);
  }

  /** An empty input gives an empty series and a non-empty one a non-empty series. */
  lemma SeriesEmptyIff(s: seq<int>)
    ensures |Series(s)| == 0 <==> |s| == 0
  {
    if |s| > 0 {
      ForceEndsKeepsPoints(Last(GapFilled(s), MAX_POINTS));
    }
  }

  /** After truncation: at most 80 points, exactly the newest ones of the
      gap-filled series with only their captions changed. */
  lemma SeriesIsSuffix(s: seq<int>)
    requires |s| > 0
    ensures var g, r := GapFilled(s), Series(s);
      && |r| == (if |g| <= MAX_POINTS then |g| else MAX_POINTS)
      && (forall i :: 0 <= i < |r| ==> r[i].(displayLabel := g[|g| - |r| + i].displayLabel) == g[|g| - |r| + i])
  {
    var g := GapFilled(s);
    var l := Last(g, MAX_POINTS);
    var r := Series(s);
    assert r == ForceEnds(l);
    ForceEndsKeepsPoints(l);
    forall i | 0 <= i < |r|
      ensures r[i].(displayLabel := g[|g| - |r| + i].displayLabel) == g[|g| - |r| + i]
    {
      assert l[i] == g[|g| - |l| + i];
    }
  }

  /** The last point of a non-empty series is the largest observed bucket, so its count is never zero. */
  lemma SeriesLastNonEmpty(s: seq<int>)
    requires |s| > 0
    ensures |Series(s)| > 0 && Series(s)[|Series(s)| - 1].value >= 1
  {
    SeriesIsSuffix(s);
    var g, r := GapFilled(s), Series(s);
    assert r[|r| - 1].(displayLabel := g[|g| - 1].displayLabel) == g[|g| - 1];
    LastBucketNonEmpty(s);
  }

  lemma LastBucketNonEmpty(s: seq<int>)
    requires |s| > 0
    ensures GapFilled(s)[|GapFilled(s)| - 1].value >= 1
  {
    GapFilledCounts(s);
  }

  lemma ForceEndsKeepsPoints(p: seq<Point>)
    ensures |ForceEnds(p)| == |p|
    ensures forall i :: 0 <= i < |p| ==> ForceEnds(p)[i].(displayLabel := p[i].displayLabel) == p[i]
    ensures |p| > 0 ==> ForceEnds(p)[|p| - 1].displayLabel == Some(CURRENT_LABEL)
    ensures |p| > 1 ==> ForceEnds(p)[0].displayLabel == Some(START_LABEL)
    ensures forall i :: 0 < i < |p| - 1 ==> ForceEnds(p)[i] == p[i]
  {
  }

  /** Captions of a non-empty series: the last point reads "now", the first
      "start" when it is a different point (a single bucket is captioned
      "now": that write comes last), and every point in between is blank. */
  lemma SeriesLabels(s: seq<int>)
    requires |s| > 0
    ensures var r := Series(s);
      && r[|r| - 1].displayLabel == Some(CURRENT_LABEL)
      && (|r| > 1 ==> r[0].displayLabel == Some(START_LABEL))
      && forall i :: 0 < i < |r| - 1 ==> r[i].displayLabel == Some("")
  {
    SeriesIsSuffix(s);
    var g := GapFilled(s);
    ForceEndsKeepsPoints(Last(g, MAX_POINTS));
  }

  /** The series depends only on the multiset of timestamps: the source
      sorts a copy before bucketing, so arrival order never matters. */
  lemma SeriesPermutation(a: seq<int>, c: seq<int>)
    requires multiset(a) == multiset(c)
    ensures Series(a) == Series(c)
  {
    if |a| == 0 {
      assert |c| == |multiset(c)| == 0;
    } else {
      assert |c| == |multiset(c)| == |a|;
      forall x ensures x in a <==> x in c {
        assert x in a <==> x in multiset(a);
        assert x in c <==> x in multiset(c);
      }
      var t0 := Minimum(a);
      assert t0 == Minimum(c) by {
        assert Minimum(c) in a;
        assert t0 in c;
      }
      var ma, mc := MaxBucket(a, t0), MaxBucket(c, t0);
      if ma != 0 {
        var k :| 0 <= k < |a| && BucketOf(a[k], t0, AGGREGATE_BUCKET_MS) == ma;
        assert a[k] in c;
      }
      if mc != 0 {
        var k :| 0 <= k < |c| && BucketOf(c[k], t0, AGGREGATE_BUCKET_MS) == mc;
        assert c[k] in a;
      }
      assert ma == mc;
      forall i | 0 <= i <= ma ensures GapFilled(a)[i] == GapFilled(c)[i] {
        CountPermutation(a, c, t0, AGGREGATE_BUCKET_MS, i);
      }
      assert GapFilled(a) == GapFilled(c);
    }
  }

  /** Taps at 1000, 11000 and 26000 ms: three consecutive buckets holding
      one tap each, captioned "start", blank and "now". */
  lemma ThreeTapScenario()
    ensures var r := Series([1000, 11000, 26000]);
      && |r| == 3
      && r[0].index == 0 && r[1].index == 1 && r[2].index == 2
      && r[0].value == 1 && r[1].value == 1 && r[2].value == 1
      && r[0].displayLabel == Some(START_LABEL) && r[1].displayLabel == Some("") && r[2].displayLabel == Some(CURRENT_LABEL)
  {
    var s := [1000, 11000, 26000];
    assert Minimum(s) == 1000 by {
      assert s[..2][..1] == [1000];
    }
    assert MaxBucket(s, 1000) == 2 by {
      assert s[..2][..1] == [1000];
    }
    assert s[..2][..1] == [1000];
    assert Count(s, 1000, AGGREGATE_BUCKET_MS, 0) == 1;
    assert Count(s, 1000, AGGREGATE_BUCKET_MS, 1) == 1;
    assert Count(s, 1000, AGGREGATE_BUCKET_MS, 2) == 1;
  }
}
