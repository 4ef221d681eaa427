/** The participant's own chart: the newest 800 taps of the local log,
    counted into one-minute buckets measured from the session start, one
    bucket per minute begun so far and never more than 60. */
module MyLog {
  import opened Common
  import opened Buckets

  const BUCKET_SECONDS: nat := 60
  /** `BUCKET_SECONDS` in milliseconds, the unit of the timestamps. */
  const BUCKET_MS: nat := BUCKET_SECONDS * 1000
  const MAX_ELAPSED_BUCKETS: nat := 60
  const MAX_TIMESTAMPS_FOR_CHART: nat := 800

  /** One element of the `buckets` array. */
  datatype MinuteBucket = MinuteBucket(min: nat, labelText: string, count: nat, index: nat)

  /** One point of `lineData`: a bucket with its axis caption. */
  datatype LinePoint = LinePoint(min: nat, labelText: string, count: nat, index: nat, displayLabel: string)

  /** The session start when it is a positive number, otherwise the current time. */
  function SessionOrigin(sessionStartMs: Option<int>, now: int): (start: int)
    ensures sessionStartMs.Some? && sessionStartMs.value > 0 ==> start == sessionStartMs.value
    ensures !(sessionStartMs.Some? && sessionStartMs.value > 0) ==> start == now
  {
    if sessionStartMs.Some? && sessionStartMs.value > 0 then sessionStartMs.value else now
  }

  /** Whole minutes since the start, 0 when the start lies in the future. */
  function ElapsedMinutes(start: int, now: int): nat {
    if now < start then 0 else BucketOf(now, start, BUCKET_MS)
  }

  function Min(a: int, b: int): int {
    if a < b then a else b
  }

  function Max(a: int, b: int): int {
    if a < b then b else a
  }

  /** `Math.max(1, Math.min(elapsedMin + 1, MAX_ELAPSED_BUCKETS))`: one bucket
      for every minute begun since the start, at least one and at most 60. */
  function NumBuckets(start: int, now: int): (n: nat)
    ensures 1 <= n <= MAX_ELAPSED_BUCKETS
    ensures n == if ElapsedMinutes(start, now) + 1 < MAX_ELAPSED_BUCKETS then ElapsedMinutes(start, now) + 1 else MAX_ELAPSED_BUCKETS
    ensures n == 1 || start + (n - 1) * BUCKET_MS <= now
    ensures n == MAX_ELAPSED_BUCKETS || now < start + n * BUCKET_MS
  {
    var elapsedMin := ElapsedMinutes(start, now);
    Max(1, Min(elapsedMin + 1, MAX_ELAPSED_BUCKETS))
  }

  /** `${i}分`. */
  function MinuteLabel(i: nat): string {
    NatToString(i) + "分"
  }

  /** "start" at position 0 (it wins for a single bucket), "now" at the last position, the minute label elsewhere. */
  function DisplayLabel(i: nat, n: nat): string {
    if i == 0 then START_LABEL else if i == n - 1 then CURRENT_LABEL else MinuteLabel(i)
  }

  /** The `useMemo` block of `MyLog`: returns `lineData` and `total`. Bucket i
      counts the considered taps that are not before the start and fall into
      minute i; a tap beyond the last bucket is dropped; `total` counts every
      considered tap not before the start. */
  method SessionSeries(timestamps: seq<int>, sessionStartMs: Option<int>, now: int)
    returns (lineData: seq<LinePoint>, total: nat)
    ensures var start := SessionOrigin(sessionStartMs, now);
      var recent := Last(timestamps, MAX_TIMESTAMPS_FOR_CHART);
      var n := NumBuckets(start, now);
      && |lineData| == n
      && (forall i :: 0 <= i < n ==>
            lineData[i] == LinePoint(i, MinuteLabel(i), Count(recent, start, BUCKET_MS, i), i, DisplayLabel(i, n)))
      && total == CountFrom(recent, start)
  {
    var start := SessionOrigin(sessionStartMs, now);
    var recent := if |timestamps| > MAX_TIMESTAMPS_FOR_CHART then timestamps[|timestamps| - MAX_TIMESTAMPS_FOR_CHART..] else timestamps;
    var numBuckets := NumBuckets(start, now);
    var buckets := new MinuteBucket[numBuckets](i => MinuteBucket(i, MinuteLabel(i), 0, i));

    var j := 0;
    while j < |recent|
      invariant 0 <= j <= |recent|
      invariant forall k :: 0 <= k < numBuckets ==>
                  buckets[k] == MinuteBucket(k, MinuteLabel(k), Count(recent[..j], start, BUCKET_MS, k), k)
    {
      var ts := recent[j];
      assert recent[..j + 1][..j] == recent[..j];
      if ts >= start {
        var bucketIdx := BucketOf(ts, start, BUCKET_MS);
        if 0 <= bucketIdx < numBuckets {
          buckets[bucketIdx] := buckets[bucketIdx].(count := buckets[bucketIdx].count + 1);
        }
      }
      j := j + 1;
    }
    assert recent[..j] == recent;

    lineData := seq(numBuckets, i requires 0 <= i < numBuckets reads buckets =>
      LinePoint(buckets[i].min, buckets[i].labelText, buckets[i].count, buckets[i].index, DisplayLabel(i, numBuckets)));
    total := CountFrom(recent, start);
  }

  /** Together the buckets never hold more taps than `total`. They hold all of
      them when no tap lies after `now` and less than an hour has passed. */
  lemma BucketSumBound(recent: seq<int>, start: int, now: int)
    ensures SumCounts(recent, start, BUCKET_MS, NumBuckets(start, now)) <= CountFrom(recent, start)
    ensures (forall k :: 0 <= k < |recent| ==> recent[k] <= now) && ElapsedMinutes(start, now) < MAX_ELAPSED_BUCKETS
            ==> SumCounts(recent, start, BUCKET_MS, NumBuckets(start, now)) == CountFrom(recent, start)
  {
    var n := NumBuckets(start, now);
    SumCountsIsCountBelow(recent, start, BUCKET_MS, n);
    CountBelowAtMostCountFrom(recent, start, BUCKET_MS, n);
    if (forall k :: 0 <= k < |recent| ==> recent[k] <= now) && ElapsedMinutes(start, now) < MAX_ELAPSED_BUCKETS {
      forall k | 0 <= k < |recent| && recent[k] >= start
        ensures BucketOf(recent[k], start, BUCKET_MS) < n
      {
        MonotoneBucket(recent[k], now, start);
      }
      CountBelowIsCountFrom(recent, start, BUCKET_MS, n);
    }
  }

  lemma MonotoneBucket(ts: int, now: int, start: int)
    requires start <= ts <= now
    ensures BucketOf(ts, start, BUCKET_MS) <= ElapsedMinutes(start, now)
  {
    var b, e := BucketOf(ts, start, BUCKET_MS), ElapsedMinutes(start, now);
    assert start + b * BUCKET_MS <= ts <= now < start + (e + 1) * BUCKET_MS;
  }

  /** A tap an hour or more after the start falls into no bucket: the chart
      covers the first hour of the session, not the latest one. */
  lemma LateTapIgnored(recent: seq<int>, start: int, now: int, ts: int)
    requires ts >= start + MAX_ELAPSED_BUCKETS * BUCKET_MS
    ensures forall i :: 0 <= i < NumBuckets(start, now) ==>
              Count(recent + [ts], start, BUCKET_MS, i) == Count(recent, start, BUCKET_MS, i)
  {
    forall i | 0 <= i < NumBuckets(start, now)
      ensures Count(recent + [ts], start, BUCKET_MS, i) == Count(recent, start, BUCKET_MS, i)
    {
      CountSnoc(recent, ts, start, BUCKET_MS, i);
    }
  }

  /** Only the newest 800 taps are considered: anything older changes nothing. */
  lemma OlderTapsIgnored(older: seq<int>, timestamps: seq<int>)
    requires |timestamps| >= MAX_TIMESTAMPS_FOR_CHART
    ensures Last(older + timestamps, MAX_TIMESTAMPS_FOR_CHART) == Last(timestamps, MAX_TIMESTAMPS_FOR_CHART)
  {
    var all := older + timestamps;
    assert all[|all| - MAX_TIMESTAMPS_FOR_CHART..] == timestamps[|timestamps| - MAX_TIMESTAMPS_FOR_CHART..];
  }
}
