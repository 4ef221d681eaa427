/** The dashboard chart: the three candidate series (shared live feed, the
    locally persisted log, a synthetic fallback), the rule choosing one of
    them, and the figures shown above the chart. */
module LiveChart {
  import opened Common
  import opened Storage
  import opened AggregateSeries

  // ---- Shared feed snapshot ----

  /** The `t` field of a feed record: a number, or anything else (missing, a string, ...). */
  datatype TField = Number(n: int) | NotNumber
  /** A snapshot value: a falsy value, or a record with a `t` field. */
  datatype FeedValue = NoRecord | Record(t: TField)
  /** One key/value pair of the snapshot, in the order `Object.values` lists them. */
  datatype FeedEntry = FeedEntry(key: string, value: FeedValue)

  predicate HasNumericT(e: FeedEntry) {
    e.value.Record? && e.value.t.Number?
  }

  /** The numeric `t` of every record value of the snapshot, in `Object.values` order; keys are dropped. */
  function SnapshotTimestamps(entries: seq<FeedEntry>): (r: seq<int>)
    ensures |r| <= |entries|
    ensures forall x :: x in r <==> exists i :: 0 <= i < |entries| && entries[i].value == Record(Number(x))
  {
    if |entries| == 0 then []
    else
      var p := entries[..|entries| - 1];
      var e := entries[|entries| - 1];
      assert forall i :: 0 <= i < |p| ==> p[i] == entries[i];
      SnapshotTimestamps(p) + (if HasNumericT(e) then [e.value.t.n] else [])
  }

  /** The filter works entry by entry: a snapshot's timestamps are those of its
      parts, in order, and one entry contributes its `t` exactly when that is
      a number — keys play no part. */
  lemma {:induction false} SnapshotTimestampsConcat(a: seq<FeedEntry>, b: seq<FeedEntry>)
    ensures SnapshotTimestamps(a + b) == SnapshotTimestamps(a) + SnapshotTimestamps(b)
  {
    if |b| == 0 {
      assert a + b == a;
    } else {
      var p := b[..|b| - 1];
      assert b == p + [b[|b| - 1]];
      assert (a + b)[..|a + b| - 1] == a + p;
      SnapshotTimestampsConcat(a, p);
    }
  }

  lemma SnapshotTimestampsSingle(e: FeedEntry)
    ensures SnapshotTimestamps([e]) == if HasNumericT(e) then [e.value.t.n] else []
  {
    assert [e][..0] == [];
  }

  // ---- Persisted log ----

  /** `loadStoredTimestamps`: the stored array as it is (no length cap here), or [] for anything else. */
  function LoadStoredTimestamps(items: map<string, LogText>): (r: seq<int>)
    ensures (LOG_KEY in items && items[LOG_KEY].IntArray?) ==> r == items[LOG_KEY].elems
    ensures !(LOG_KEY in items && items[LOG_KEY].IntArray?) ==> r == []
  {
    if LOG_KEY !in items then []
    else match items[LOG_KEY]
      case IntArray(elems) => elems
      case _ => []
  }

  // ---- Synthetic series ----

  const MOCK_INITIAL_POINTS: nat := 12
  const MOCK_INITIAL_SPACING_MS: nat := 5000

  /** Every point strictly between the first and the last has a blank caption (`null` or ''). */
  predicate InteriorBlank(p: seq<Point>) {
    forall i :: 0 < i < |p| - 1 ==> p[i].displayLabel == None || p[i].displayLabel == Some("")
  }

  /** Captions derived from position alone: last "now", first "start" (when distinct), '' in between. */
  predicate PositionalCaptions(p: seq<Point>) {
    && (|p| > 0 ==> p[|p| - 1].displayLabel == Some(CURRENT_LABEL))
    && (|p| > 1 ==> p[0].displayLabel == Some(START_LABEL))
    && forall i :: 0 < i < |p| - 1 ==> p[i].displayLabel == Some("")
  }

  /** The initial demo series: 12 points 5 s apart ending 5 s before `start`,
      valued 3 + draws[i] where draws[i] stands for `Math.floor(Math.random() * 6)`. */
  function MockInitial(start: int, draws: seq<nat>): (r: seq<Point>)
    requires |draws| == MOCK_INITIAL_POINTS
    requires forall i :: 0 <= i < |draws| ==> draws[i] < 6
    ensures |r| == MOCK_INITIAL_POINTS
    ensures forall i :: 0 <= i < |r| ==> r[i].index == i && 3 <= r[i].value <= 8
    ensures forall i :: 0 <= i < |r| ==>
              && r[i].time == start - (MOCK_INITIAL_POINTS - i) * MOCK_INITIAL_SPACING_MS
              && r[i].value == 3 + draws[i]
              && r[i].labelText == NatToString(i)
    ensures forall i, j :: 0 <= i < j < |r| ==> r[i].time < r[j].time
    ensures r[|r| - 1].time == start - MOCK_INITIAL_SPACING_MS
    ensures r[0].displayLabel == Some(START_LABEL)
    ensures forall i :: 0 < i < |r| ==> r[i].displayLabel == None
    ensures InteriorBlank(r)
  {
    seq(MOCK_INITIAL_POINTS, i requires 0 <= i < MOCK_INITIAL_POINTS =>
      Point(start - (MOCK_INITIAL_POINTS - i) * MOCK_INITIAL_SPACING_MS, 3 + draws[i], NatToString(i), i,
            if i == 0 then Some(START_LABEL) else None))
  }

  /** The `prev.map(...)` step of a tick: first captioned "start", the old last point's caption cleared to `null`. */
  function Recaptioned(prev: seq<Point>): seq<Point> {
    seq(|prev|, i requires 0 <= i < |prev| =>
      prev[i].(displayLabel := if i == 0 then Some(START_LABEL) else if i == |prev| - 1 then None else prev[i].displayLabel))
  }

  /** The point a tick appends; its index and label are the previous length. */
  function NewMockPoint(prev: seq<Point>, now: int, value: nat): Point {
    Point(now, value, NatToString(|prev|), |prev|, Some(CURRENT_LABEL))
  }

  /** The final `forEach`: every `null` caption becomes ''. */
  function NullsBlanked(p: seq<Point>): seq<Point> {
    seq(|p|, i requires 0 <= i < |p| => if p[i].displayLabel == None then p[i].(displayLabel := Some("")) else p[i])
  }

  /** The series one synthetic tick produces from `prev`. */
  function MockTickSpec(prev: seq<Point>, now: int, value: nat): seq<Point> {
    NullsBlanked(ForceEnds(Last(Recaptioned(prev) + [NewMockPoint(prev, now, value)], MAX_POINTS)))
  }

  /** The `forEach` that replaces each `null` caption by '' in place. */
  method BlankNullCaptions(p: seq<Point>) returns (q: seq<Point>)
    ensures q == NullsBlanked(p)
  {
    q := p;
    var i := 0;
    while i < |q|
      invariant 0 <= i <= |q| == |p|
      invariant forall k :: 0 <= k < i ==> q[k] == NullsBlanked(p)[k]
      invariant forall k :: i <= k < |q| ==> q[k] == p[k]
    {
      if q[i].displayLabel == None {
        q := q[i := q[i].(displayLabel := Some(""))];
      }
      i := i + 1;
    }
  }

  /** One tick of the synthetic generator; `value` stands for the rounded random draw. */
  method MockTick(prev: seq<Point>, now: int, value: nat) returns (sliced: seq<Point>)
    ensures sliced == MockTickSpec(prev, now, value)
  {
    var next := Recaptioned(prev) + [NewMockPoint(prev, now, value)];
    sliced := Last(next, MAX_POINTS);
    if |sliced| > 0 {
      sliced := sliced[0 := sliced[0].(displayLabel := Some(START_LABEL))];
    }
    if |sliced| > 0 {
      sliced := sliced[|sliced| - 1 := sliced[|sliced| - 1].(displayLabel := Some(CURRENT_LABEL))];
    }
    assert sliced == ForceEnds(Last(next, MAX_POINTS));
    sliced := BlankNullCaptions(sliced);
  }

  lemma RecaptionedAt(prev: seq<Point>)
    ensures |Recaptioned(prev)| == |prev|
    ensures |prev| > 0 ==> Recaptioned(prev)[0].displayLabel == Some(START_LABEL)
    ensures forall j :: 0 <= j < |prev| ==> Recaptioned(prev)[j].(displayLabel := prev[j].displayLabel) == prev[j]
    ensures forall j :: 0 < j < |prev| - 1 ==> Recaptioned(prev)[j].displayLabel == prev[j].displayLabel
    ensures |prev| > 1 ==> Recaptioned(prev)[|prev| - 1].displayLabel == None
  {
  }

  lemma NullsBlankedAt(p: seq<Point>)
    ensures |NullsBlanked(p)| == |p|
    ensures forall i :: 0 <= i < |p| ==> NullsBlanked(p)[i].(displayLabel := p[i].displayLabel) == p[i]
    ensures forall i :: 0 <= i < |p| ==> NullsBlanked(p)[i].displayLabel
                                         == if p[i].displayLabel == None then Some("") else p[i].displayLabel
  {
  }

  /** The appended-then-sliced sequence of a tick: the newest points of the recaptioned series, then the new point. */
  lemma TickWindow(prev: seq<Point>, now: int, value: nat)
    ensures var next := Recaptioned(prev) + [NewMockPoint(prev, now, value)];
      var l := Last(next, MAX_POINTS);
      && |l| == (if |prev| + 1 <= MAX_POINTS then |prev| + 1 else MAX_POINTS)
      && l[|l| - 1] == NewMockPoint(prev, now, value)
      && forall i :: 0 <= i < |l| - 1 ==> l[i] == Recaptioned(prev)[|prev| + 1 - |l| + i]
  {
    var rc := Recaptioned(prev);
    var np := NewMockPoint(prev, now, value);
    var next := rc + [np];
    assert |rc| == |prev|;
    var l := Last(next, MAX_POINTS);
    var off := |next| - |l|;
    assert l == next[off..];
    assert l[|l| - 1] == next[|next| - 1] == np;
    forall i | 0 <= i < |l| - 1
      ensures l[i] == rc[|prev| + 1 - |l| + i]
    {
      assert l[i] == next[off + i];
    }
  }

  /** An old point that survives a tick keeps everything but its caption. */
  lemma MockTickKeepsPoint(prev: seq<Point>, now: int, value: nat, i: nat)
    requires i + 1 < |MockTickSpec(prev, now, value)|
    ensures var r := MockTickSpec(prev, now, value);
      var off := |prev| + 1 - |r|;
      r[i].(displayLabel := prev[off + i].displayLabel) == prev[off + i]
  {
    var next := Recaptioned(prev) + [NewMockPoint(prev, now, value)];
    var l := Last(next, MAX_POINTS);
    var f := ForceEnds(l);
    var r := MockTickSpec(prev, now, value);
    TickWindow(prev, now, value);
    RecaptionedAt(prev);
    ForceEndsKeepsPoints(l);
    NullsBlankedAt(f);
    var off := |prev| + 1 - |r|;
    var p := prev[off + i];
    assert l[i] == Recaptioned(prev)[off + i];
    assert r[i].time == f[i].time == l[i].time == p.time;
    assert r[i].value == f[i].value == l[i].value == p.value;
    assert r[i].labelText == f[i].labelText == l[i].labelText == p.labelText;
    assert r[i].index == f[i].index == l[i].index == p.index;
  }

  /** A tick keeps the newest min(|prev|+1, 80) points: the old ones with only
      their captions changed, then the new point, whose index and label are
      |prev| (so the index stays at 80 once the series is full). No caption is
      left `null`. */
  lemma MockTickShape(prev: seq<Point>, now: int, value: nat)
    ensures var r := MockTickSpec(prev, now, value);
      var off := |prev| + 1 - |r|;
      && |r| == (if |prev| + 1 <= MAX_POINTS then |prev| + 1 else MAX_POINTS)
      && r[|r| - 1] == Point(now, value, NatToString(|prev|), |prev|, Some(CURRENT_LABEL))
      && (forall i :: 0 <= i < |r| - 1 ==> r[i].(displayLabel := prev[off + i].displayLabel) == prev[off + i])
      && (forall i :: 0 <= i < |r| ==> r[i].displayLabel != None)
  {
    var next := Recaptioned(prev) + [NewMockPoint(prev, now, value)];
    var l := Last(next, MAX_POINTS);
    var f := ForceEnds(l);
    var r := MockTickSpec(prev, now, value);
    TickWindow(prev, now, value);
    ForceEndsKeepsPoints(l);
    NullsBlankedAt(f);
    var off := |prev| + 1 - |r|;
    forall i | 0 <= i < |r| - 1
      ensures r[i].(displayLabel := prev[off + i].displayLabel) == prev[off + i]
    {
      MockTickKeepsPoint(prev, now, value, i);
    }
  }

  /** When the interior of `prev` was blank, the captions after a tick depend
      on position alone: "start" first, "now" last, '' in between. */
  lemma MockTickCaptions(prev: seq<Point>, now: int, value: nat)
    requires InteriorBlank(prev)
    ensures PositionalCaptions(MockTickSpec(prev, now, value))
  {
    var next := Recaptioned(prev) + [NewMockPoint(prev, now, value)];
    var l := Last(next, MAX_POINTS);
    var f := ForceEnds(l);
    var r := MockTickSpec(prev, now, value);
    TickWindow(prev, now, value);
    RecaptionedAt(prev);
    ForceEndsKeepsPoints(l);
    NullsBlankedAt(f);
    var off := |prev| + 1 - |r|;
    forall i | 0 < i < |r| - 1
      ensures r[i].displayLabel == Some("")
    {
      assert f[i] == l[i] == Recaptioned(prev)[off + i];
    }
  }

  /** Once the demo series holds 80 points it keeps 80, and each new point carries index 80. */
  lemma MockTickSaturates(prev: seq<Point>, now: int, value: nat)
    requires |prev| == MAX_POINTS
    ensures |MockTickSpec(prev, now, value)| == MAX_POINTS
    ensures MockTickSpec(prev, now, value)[MAX_POINTS - 1].index == MAX_POINTS
  {
    MockTickShape(prev, now, value);
  }

  // ---- Source selection and the figures above the chart ----

  /** Which candidate series the chart shows. */
  datatype Mode = Live | Persisted | Demo

  /** What the chart renders: the series, its source, the two badges and the two figures. */
  datatype ChartView = ChartView(data: seq<Point>, mode: Mode, isLive: bool, demoBadge: bool, allBadge: bool,
                                 lastValue: nat, totalCount: nat)

  /** The figures shown above the chart: the newest bucket's value (0 for no data) and the sum of all values. */
  function LastValue(data: seq<Point>): nat {
    if |data| > 0 then data[|data| - 1].value else 0
  }

  /** The render of `LiveChart`, recomputed from the current series every time. */
  function Render(configured: bool, firebaseData: seq<Point>, persisted: seq<Point>, mockData: seq<Point>): (v: ChartView)
    ensures v.mode == Live <==> configured && |firebaseData| > 0
    ensures v.mode == Persisted <==> !(configured && |firebaseData| > 0) && |persisted| > 0
    ensures v.data == match v.mode case Live => firebaseData case Persisted => persisted case Demo => mockData
    ensures v.isLive <==> v.mode == Live
    ensures v.demoBadge == !v.isLive && v.allBadge == v.isLive
    ensures v.lastValue == LastValue(v.data) && v.totalCount == TotalValue(v.data)
  {
    var hasFirebase := configured && |firebaseData| > 0;
    var hasPersisted := |persisted| > 0;
    var data := if hasFirebase then firebaseData else if hasPersisted then persisted else mockData;
    var isLive := hasFirebase;
    ChartView(data, if hasFirebase then Live else if hasPersisted then Persisted else Demo, isLive, !isLive, isLive,
              LastValue(data), TotalValue(data))
  }

  lemma {:induction false} TotalValueSuffix(p: seq<Point>, k: nat)
    requires k <= |p|
    ensures TotalValue(p[k..]) <= TotalValue(p)
  {
    if k < |p| {
      assert p[k..][..|p[k..]| - 1] == p[..|p| - 1][k..];
      TotalValueSuffix(p[..|p| - 1], k);
    } else {
      assert p[k..] == [];
    }
  }

  lemma {:induction false} TotalValueSameValues(p: seq<Point>, q: seq<Point>)
    requires |p| == |q|
    requires forall i :: 0 <= i < |p| ==> p[i].value == q[i].value
    ensures TotalValue(p) == TotalValue(q)
  {
    if |p| > 0 {
      TotalValueSameValues(p[..|p| - 1], q[..|q| - 1]);
    }
  }

  /** The total shown for a bucketed series never exceeds the number of taps,
      and equals it while all taps fit in the 80 newest buckets. */
  lemma SeriesTotal(s: seq<int>)
    ensures TotalValue(Series(s)) <= |s|
    ensures |s| > 0 && |GapFilled(s)| <= MAX_POINTS ==> TotalValue(Series(s)) == |s|
  {
    if |s| > 0 {
      var g := GapFilled(s);
      var r := Series(s);
      GapFilledCounts(s);
      SeriesIsSuffix(s);
      var k := |g| - |r|;
      assert g[k..] == Last(g, MAX_POINTS);
      forall i | 0 <= i < |r| ensures r[i].value == g[k..][i].value {
        assert r[i].(displayLabel := g[k + i].displayLabel) == g[k + i];
      }
      TotalValueSameValues(r, g[k..]);
      TotalValueSuffix(g, k);
      if |g| <= MAX_POINTS {
        assert g[k..] == g;
      }
    }
  }

  /** The dashboard's state: the three series its hooks hold. The rendered
      view is a function of them, never a cached mode. */
  class LiveChartState {
    const configured: bool
    var firebaseData: seq<Point>
    var persisted: seq<Point>
    var mockData: seq<Point>

    ghost predicate Valid()
      reads this
    {
      InteriorBlank(mockData) && |mockData| > 0 && (!configured ==> firebaseData == [])
    }

    /** Mount: no feed data yet, the persisted series from storage, the initial demo series. */
    constructor (configured: bool, store: KeyValueStore<LogText>, mockStart: int, draws: seq<nat>)
      requires |draws| == MOCK_INITIAL_POINTS
      requires forall i :: 0 <= i < |draws| ==> draws[i] < 6
      ensures Valid()
      ensures this.configured == configured && firebaseData == []
      ensures persisted == Series(LoadStoredTimestamps(store.items))
      ensures mockData == MockInitial(mockStart, draws)
    {
      this.configured := configured;
      firebaseData := [];
      var p := BuildSeriesFromTimestamps(LoadStoredTimestamps(store.items));
      persisted := p;
      mockData := MockInitial(mockStart, draws);
    }

    /** The subscription callback: the whole snapshot replaces the live series (no merge with earlier snapshots). */
    method OnSnapshot(entries: seq<FeedEntry>)
      requires Valid() && configured
      modifies this
      ensures Valid()
      ensures firebaseData == Series(SnapshotTimestamps(entries))
      ensures persisted == old(persisted) && mockData == old(mockData)
      ensures View().mode == Live <==> |SnapshotTimestamps(entries)| > 0
    {
      var ts := SnapshotTimestamps(entries);
      var r := BuildSeriesFromTimestamps(ts);
      SeriesEmptyIff(ts);
      firebaseData := r;
      assert View() == Render(configured, r, persisted, mockData);
    }

    /** The 2-second poll of the persisted log, read from the shared store. */
    method PollPersisted(store: KeyValueStore<LogText>)
      requires Valid()
      modifies this
      ensures Valid()
      ensures persisted == Series(LoadStoredTimestamps(store.items))
      ensures firebaseData == old(firebaseData) && mockData == old(mockData)
      ensures firebaseData == [] ==> (View().mode == Persisted <==> |LoadStoredTimestamps(store.items)| > 0)
    {
      var ts := LoadStoredTimestamps(store.items);
      var r := BuildSeriesFromTimestamps(ts);
      SeriesEmptyIff(ts);
      persisted := r;
      assert View() == Render(configured, firebaseData, r, mockData);
    }

    /** The 600 ms synthetic tick. */
    method TickMock(now: int, value: nat)
      requires Valid()
      modifies this
      ensures Valid()
      ensures mockData == MockTickSpec(old(mockData), now, value)
      ensures PositionalCaptions(mockData)
      ensures firebaseData == old(firebaseData) && persisted == old(persisted)
      ensures View().mode == old(View().mode)
    {
      MockTickShape(mockData, now, value);
      MockTickCaptions(mockData, now, value);
      mockData := MockTick(mockData, now, value);
    }

    /** What the chart renders from the current state. */
    function View(): ChartView
      reads this
    {
      Render(configured, firebaseData, persisted, mockData)
    }
  }
}
