# Resonance logger — a Dafny model of the tap-event aggregation core

The resonance logger is a small web application for live events. Each
participant presses a button whenever something moves them. The page keeps a
local log of the counted presses and charts them per minute of the session. A
dashboard charts everybody's presses in 10-second buckets. It takes its data
from the live feed when one is configured and has delivered taps, otherwise
from the locally persisted log when it holds taps, and from a synthetic demo
series when neither has any.

This project models the logic behind those charts and proves its properties.
The logic has five parts:

- the absolute-time bucketer of the dashboard;
- the session-relative bucketer of the participant chart;
- the press throttle and streak state machine of the button;
- the participant log, with its cap, its storage round trip and its debounced persistence;
- the storage key shared by the participant page and the dashboard.

Modules (one file each):

| module | file | models |
|---|---|---|
| `Common` | common.dfy | `Option`, `slice(-n)` as `Last`, decimal rendering of indices, the two axis captions |
| `Buckets` | buckets.dfy | floor-bucketing of a timestamp and the counting functions both bucketers are specified with |
| `Storage` | storage.dfy | the two storage keys, the parsed shapes of a stored log string, and a key-value store class for `localStorage` and `sessionStorage` |
| `AggregateSeries` | aggregate_series.dfy | `buildSeriesFromTimestamps` (src/components/LiveChart.jsx) |
| `LiveChart` | live_chart.dfy | everything else on the dashboard chart: snapshot filter, persisted load, demo series, source selection, and the chart's state as a class |
| `MyLog` | my_log.dfy | the bucketing block of src/components/MyLog.jsx |
| `ResonanceButton` | resonance_button.dfy | `handlePress` of src/components/ResonanceButton.jsx, as pure functions and as a class |
| `ParticipantView` | participant_view.dfy | src/pages/ParticipantView.jsx: session start, load/save, append with cap, and the page as a class whose methods are the React events |
| `SharedLog` | shared_log.dfy | facts that connect the page and the dashboard through the shared log key |

The source's loops are methods proved against specification functions.
`BuildSeriesFromTimestamps`, `MockTick` and `SessionSeries` are examples. The
properties the source promises are lemmas about those functions.

State that React hooks keep across events becomes a class:

- `LiveChartState`,
- `Button`,
- `Page`,
- `KeyValueStore`.

Every hook callback, timer fire and teardown is an explicit method call.

Two consequences of the code are easy to miss:

- **Streak gap.** Both the streak gap and the throttle gap are measured from
  `lastTapRef`, and only a counted press sets it
  (src/components/ResonanceButton.jsx:67 and :80).
  `ResonanceButton.StreakMeasuredFromCountedPress` shows a case where this
  differs from measuring the gap from the previous press.
- **The first press.** `lastTapRef` starts at 0, so a press at absolute time 0
  is not counted. `ResonanceButton.BurstScenario` holds for presses that start
  at T >= 400. For 280 <= T < 400 the first press is counted with streak 1.

Units:
- Timestamps are integer milliseconds.
- Feedback intensity is in hundredths: 0.3 is 30 and 1 is 100.
- Dafny's `/` by a positive constant is floor division, which agrees with
  `Math.floor` for negative offsets too.

## Model

| member | source | states |
|---|---|---|
| Common.Last | src/components/LiveChart.jsx:66 | `slice(-n)`: length min(\|s\|, n), a suffix of s, all of s when it is short |
| Common.NatToString | src/components/LiveChart.jsx:61 | the `${i}` caption is a non-empty string of decimal digits ending in i's last digit |
| Common.NatToStringValue | src/components/LiveChart.jsx:61 | reading the caption's digits back by Horner's rule gives i: the caption is i's decimal numeral |
| Common.NatToStringCanonical | src/components/LiveChart.jsx:61 | the caption has no leading zero: 0 renders as "0", any other number starts with a non-zero digit |
| Common.NatToStringInjective | src/components/LiveChart.jsx:61 | different indices get different captions |
| Common.DigitChar | src/components/LiveChart.jsx:61 | a digit renders as a character in '0'..'9' whose value is that digit |
| Buckets.BucketOf | src/components/LiveChart.jsx:52 | `Math.floor((ts - origin) / width)`: the bucket's interval contains ts, and the bucket is non-negative exactly when ts >= origin |
| Buckets.CountSnoc | src/components/LiveChart.jsx:51-54 | appending a timestamp adds one to the count of its own bucket and to no other |
| Buckets.SumCountsIsCountBelow | src/components/MyLog.jsx:35-39 | the counts of buckets 0..m-1 add up to the number of timestamps that land in one of them |
| Buckets.CountBelowAtMostCountFrom | src/components/MyLog.jsx:38 | timestamps that land in the first m buckets are among those not before the origin |
| Buckets.CountBelowIsCountFrom | src/components/MyLog.jsx:38 | when no timestamp falls beyond bucket m-1, the first m buckets hold every timestamp not before the origin |
| Buckets.CountConcat | src/components/LiveChart.jsx:51-54 | counting is additive over concatenation |
| Buckets.CountPermutation | src/components/LiveChart.jsx:48 | bucket counts depend only on the multiset of timestamps, not their order |
| Buckets.CountPositive | src/components/LiveChart.jsx:53 | a bucket that some timestamp lands in has count >= 1 |
| Buckets.CountFromAll | src/components/MyLog.jsx:46 | when no timestamp is before the origin, all of them are counted |
| Buckets.SumCountsSnoc | src/components/MyLog.jsx:35-39 | appending a timestamp raises the sum over the first m buckets by one exactly when it lands in one of them |
| Buckets.SumCountsOfEmpty | src/components/MyLog.jsx:28-33 | with no timestamps every bucket starts at 0 |
| AggregateSeries.Minimum | src/components/LiveChart.jsx:48-49 | t0 is an element of the input and no element is smaller (what sorting and taking `sorted[0]` yields) |
| AggregateSeries.MaxBucket | src/components/LiveChart.jsx:55 | `Math.max(...keys, 0)`: at least 0, at least every observed bucket, and either 0 or an observed bucket |
| AggregateSeries.SmallestTimestamp | src/components/LiveChart.jsx:48-49 | the loop returns the minimum |
| AggregateSeries.CountByBucket | src/components/LiveChart.jsx:50-54 | the map's keys are exactly the observed buckets, and each entry (0 when absent) is that bucket's count |
| AggregateSeries.LargestKey | src/components/LiveChart.jsx:55 | the loop returns a value that is >= 0, >= every key, and either 0 or a key |
| AggregateSeries.BuildSeriesFromTimestamps | src/components/LiveChart.jsx:46-70 | the imperative fill, push, slice and relabel equals the specification `Series` |
| AggregateSeries.TotalValuePrefix | src/components/LiveChart.jsx:57-65 | the values of the first m gap-filled points add up to the counts of buckets 0..m-1 |
| AggregateSeries.GapFilledCounts | src/components/LiveChart.jsx:49-65 | before truncation: indices 0..maxBucket contiguous, `time == t0 + i*10000`, value = count of bucket i, every timestamp in range, values sum to the input length, first and last bucket non-empty |
| AggregateSeries.GapFilledTotal | src/components/LiveChart.jsx:51-65 | every timestamp lands in a kept bucket and the gap-filled values sum to the number of timestamps |
| AggregateSeries.GapFilledEnds | src/components/LiveChart.jsx:49-60 | the first bucket (holding t0) and the last bucket (an observed one) are both non-empty |
| AggregateSeries.SeriesEmptyIff | src/components/LiveChart.jsx:47 | the series is empty exactly when the input is |
| AggregateSeries.SeriesIsSuffix | src/components/LiveChart.jsx:66 | at most 80 points, and they are the newest points of the gap-filled series with only the caption changed |
| AggregateSeries.SeriesLastNonEmpty | src/components/LiveChart.jsx:52-60 | the last point of a non-empty series has a value of at least 1 |
| AggregateSeries.LastBucketNonEmpty | src/components/LiveChart.jsx:55-60 | the largest observed bucket is never empty |
| AggregateSeries.ForceEndsKeepsPoints | src/components/LiveChart.jsx:67-68 | relabelling changes only the first and last captions: last "now", first "start" when it is a different point |
| AggregateSeries.SeriesLabels | src/components/LiveChart.jsx:63-68 | last caption "now" (also for a single bucket), first "start" when there are two or more, interior captions empty |
| AggregateSeries.SeriesPermutation | src/components/LiveChart.jsx:48 | the series does not depend on the order of the input |
| AggregateSeries.ThreeTapScenario | src/components/LiveChart.jsx:46-70 | taps at 1000, 11000 and 26000 give three buckets of one tap each, captioned start, blank and now |
| LiveChart.SnapshotTimestamps | src/components/LiveChart.jsx:78-80 | keeps exactly the `t` values that are numbers, and drops keys and other records |
| LiveChart.SnapshotTimestampsConcat | src/components/LiveChart.jsx:78-80 | the filter works entry by entry and keeps the order |
| LiveChart.SnapshotTimestampsSingle | src/components/LiveChart.jsx:79 | one entry contributes its `t` exactly when it is a record with a numeric `t` |
| LiveChart.LoadStoredTimestamps | src/components/LiveChart.jsx:22-31 | the stored array itself, without a cap, and [] for an absent, empty, malformed or non-array value |
| LiveChart.MockInitial | src/components/LiveChart.jsx:89-104 | 12 points: point i has `time = start - (12 - i)*5000`, `value = 3 + draw` (so 3..8), caption `${i}` and index i; times strictly increase, the last 5 s before the start; first caption "start", the others `null` |
| LiveChart.BlankNullCaptions | src/components/LiveChart.jsx:132 | the loop replaces exactly the `null` captions by '' |
| LiveChart.MockTick | src/components/LiveChart.jsx:115-133 | the loop-based tick equals its specification `MockTickSpec` |
| LiveChart.RecaptionedAt | src/components/LiveChart.jsx:117-120 | the prefix map changes only captions: the first stays "start", the old last becomes `null`, the rest are kept |
| LiveChart.NullsBlankedAt | src/components/LiveChart.jsx:132 | after blanking, no caption is `null` and nothing else changed |
| LiveChart.TickWindow | src/components/LiveChart.jsx:116-129 | the sliced sequence has min(\|prev\|+1, 80) points, ends with the new point, and keeps the newest old points |
| LiveChart.MockTickKeepsPoint | src/components/LiveChart.jsx:116-129 | an old point that survives a tick keeps its time, value, label and index |
| LiveChart.MockTickShape | src/components/LiveChart.jsx:115-133 | new length min(\|prev\|+1, 80); the new last point carries `now`, the value, and index and label \|prev\|; old points keep everything but their caption; no caption is `null` |
| LiveChart.MockTickCaptions | src/components/LiveChart.jsx:119-132 | after a tick the first caption is "start", the last "now", and all others '' |
| LiveChart.MockTickSaturates | src/components/LiveChart.jsx:124-129 | once full, the length stays 80 and the new point's index is 80 |
| LiveChart.Render | src/components/LiveChart.jsx:146-155 | feed mode when configured and non-empty, else persisted when non-empty, else demo. Also: `isLive` exactly in feed mode, the demo badge whenever not live, `lastValue` the last value or 0, and `totalCount` the sum of values |
| LiveChart.TotalValueSuffix | src/components/LiveChart.jsx:155 | a suffix of a series never sums to more than the series |
| LiveChart.TotalValueSameValues | src/components/LiveChart.jsx:155 | the total depends only on the values, not on captions |
| LiveChart.SeriesTotal | src/components/LiveChart.jsx:154-155 | the dashboard total never exceeds the number of taps, and equals it when no bucket was cut off |
| LiveChart.LiveChartState.constructor | src/components/LiveChart.jsx:89-104 | mount: empty feed series, persisted series read from the store, initial demo series |
| LiveChart.LiveChartState.OnSnapshot | src/components/LiveChart.jsx:77-82 | each snapshot replaces the feed series by the series of its timestamps, and nothing else changes; afterwards the chart is in live mode exactly when the snapshot held a numeric timestamp |
| LiveChart.LiveChartState.PollPersisted | src/components/LiveChart.jsx:36-39 | a poll recomputes the persisted series from the shared store; while the feed has no data the chart is then in persisted mode exactly when the store holds taps |
| LiveChart.LiveChartState.TickMock | src/components/LiveChart.jsx:106-135 | a tick applies `MockTickSpec` and keeps the captions positional; the chart's mode does not change |
| MyLog.SessionOrigin | src/components/MyLog.jsx:20 | the session start when it is present and > 0, otherwise `now` |
| MyLog.NumBuckets | src/components/MyLog.jsx:26-27 | in 1..60 and equal to min(elapsed minutes + 1, 60); the last bucket has begun by `now` (when n > 1, or the start is not in the future), and unless capped `now` lies inside it |
| MyLog.SessionSeries | src/components/MyLog.jsx:22-51 | `NumBuckets` points; point i has min, index i, caption `${i}分`, the count of the newest 800 taps in minute i, and the positional caption; `total` counts the newest 800 taps not before the start |
| MyLog.BucketSumBound | src/components/MyLog.jsx:35-46 | the buckets sum to at most `total`, and exactly `total` when no tap lies after `now` and less than an hour has passed |
| MyLog.MonotoneBucket | src/components/MyLog.jsx:26-37 | a tap between the start and `now` lands in a bucket no later than the current minute |
| MyLog.LateTapIgnored | src/components/MyLog.jsx:38 | a tap an hour or more after the start changes no bucket: the chart covers the first hour |
| MyLog.OlderTapsIgnored | src/components/MyLog.jsx:23-25 | taps older than the newest 800 do not influence the chart |
| ResonanceButton.NextStreak | src/components/ResonanceButton.jsx:69-73 | the streak is min(streak+1, 10) within 400 ms, otherwise 0, and never exceeds 10 |
| ResonanceButton.Intensity | src/components/ResonanceButton.jsx:74 | always in 30..100 hundredths, and 30 + 7·streak for every reachable streak |
| ResonanceButton.Press | src/components/ResonanceButton.jsx:65-82 | counted exactly when the gap since the last counted press is >= 280; `lastTap` moves only when counted; the streak and intensity are updated on every press |
| ResonanceButton.Run | src/components/ResonanceButton.jsx:65-82 | one outcome per press: the first is `Press` of the initial state, and each later one is `Press` of the state the previous one left |
| ResonanceButton.Select | src/components/ResonanceButton.jsx:79-81 | a press time is kept exactly when its outcome is counted |
| ResonanceButton.CountedTimesFromRun | src/components/ResonanceButton.jsx:65-82 | the counted times are, in order, exactly the presses `Run` marks as counted |
| ResonanceButton.CountedPressesSpaced | src/components/ResonanceButton.jsx:79-81 | counted presses are >= 280 ms after the previously recorded press and >= 280 ms apart from each other |
| ResonanceButton.BurstScenario | src/components/ResonanceButton.jsx:62-81 | presses at T, T+50, T+100 and T+600 (T >= 400) give streaks 0, 1, 2, 0 and count exactly T and T+600 |
| ResonanceButton.StreakMeasuredFromCountedPress | src/components/ResonanceButton.jsx:62-80 | at T, T+200 and T+450 the third press restarts the streak: its gap is taken from T, not from T+200 |
| ResonanceButton.Button.constructor | src/components/ResonanceButton.jsx:60-63 | both refs and both state cells start at 0 |
| ResonanceButton.Button.HandlePress | src/components/ResonanceButton.jsx:65-82 | the handler's updates equal `Press`; `burstId` grows by one on every press, counted or not |
| ParticipantView.StoredSessionStart | src/pages/ParticipantView.jsx:15-19 | the stored marker is accepted exactly when it parses to a number > 0 |
| ParticipantView.SessionStartStable | src/pages/ParticipantView.jsx:13-26 | the first call returns the accepted stored value and leaves the store alone, or else returns and stores `now`; a second call returns the same value and writes nothing |
| ParticipantView.GetOrCreateSessionStart | src/pages/ParticipantView.jsx:13-26 | the method's result and its store update equal `SessionStartStep` |
| ParticipantView.LoadLog | src/pages/ParticipantView.jsx:28-38 | [] for an absent, empty, malformed or non-array value, otherwise the newest <= 500 elements |
| ParticipantView.SaveLog | src/pages/ParticipantView.jsx:40-45 | writes the newest <= 500 entries under the log key and nothing else |
| ParticipantView.LoadSavedLog | src/pages/ParticipantView.jsx:28-45 | loading after saving gives the newest 500 entries, or the whole log when it is shorter |
| ParticipantView.AppendTap | src/pages/ParticipantView.jsx:66-71 | appends `now` last, length min(\|log\|+1, 500), order kept; from 500 entries the oldest is dropped and new[0] is old[1] |
| ParticipantView.LastSnoc | src/pages/ParticipantView.jsx:68-69 | capping before an append changes nothing the cap after it keeps |
| ParticipantView.AppendAllIsLast | src/pages/ParticipantView.jsx:66-71 | after any series of taps the log is the newest 500 of the loaded log followed by the taps |
| ParticipantView.Page.constructor | src/pages/ParticipantView.jsx:48-57 | mount: the session start from `getOrCreateSessionStart`, the log from `loadLog`, and a pending save scheduled by the first effect |
| ParticipantView.Page.OnResonance | src/pages/ParticipantView.jsx:52-71 | the log becomes `AppendTap(log, now)`; a still-pending save of the previous log is flushed, so the store then holds the previous log; a new save is pending |
| ParticipantView.Page.TimerFire | src/pages/ParticipantView.jsx:54-57 | the store holds the current log and nothing is pending |
| ParticipantView.Page.Unmount | src/pages/ParticipantView.jsx:58-63 | a pending save is flushed, so loading the store gives back the current log |
| ParticipantView.Page.Tap | src/pages/ParticipantView.jsx:66-86 | only a press the button counts (by the handler's clock reading) appends to the log, and it appends the updater's own clock reading; an uncounted press leaves log, timer and store alone; a counted press leaves a save pending and the old log as the previous one; every press moves the feedback intensity to `Press`'s and raises `burstId` by one |
| SharedLog.DashboardReadsSavedLog | src/components/LiveChart.jsx:19-31 | the dashboard's persisted mode reads and charts exactly what the page saved |
| SharedLog.ReadersAgree | src/pages/ParticipantView.jsx:28-38 | the dashboard's uncapped reader and the page's capped reader agree on every array of at most 500 entries |
| SharedLog.Reload | src/pages/ParticipantView.jsx:48-63 | leaving and reopening the page keeps the log and the session start |

## Left out

- Rendering is not modelled: recharts, framer-motion, `ParticleBurst`, the glow styles and the header text.
- Chart width tracking (`ResizeObserver`, `setTimeout`) and the peak banner with its 2.5 s timeout are DOM and timer plumbing.
- Timers, intervals and hook scheduling are events, not time. The 600 ms debounce, the 2 s poll and the 600 ms demo tick are the method calls `TimerFire`, `PollPersisted` and `TickMock`. The model does not express that a timer fires only after 600 ms without a change.
- React may batch several `setLog` updates into one render; the model renders after every `onResonance`.
- The demo value generation uses `Math.sin` and `Math.random` floats. The initial draws (`Math.floor(Math.random() * 6)`) and each tick's rounded value are parameters.
- `Date.now()` is a parameter `now` of every operation that reads the clock. `Page.Tap` takes the handler's reading and the `setLog` updater's reading as two parameters and assumes no relation between them, although the second is never earlier in practice.
- src/lib/firebase.js is not part of this model. `isConfigured()` is a boolean; a feed snapshot is a list of (key, value) entries in `Object.values` order, each value absent, or a record whose `t` is a number or not.
- LiveChart.SnapshotTimestamps: numeric `t` values are integers in the model; fractional, infinite or NaN numbers are not represented.
- `JSON.parse`, `JSON.stringify` and `parseInt` are not modelled character by character. A stored log is one of `EmptyText | Malformed | NonArray | IntArray`, and a session marker is `Option<int>`. An array's elements are taken as integers, with no validation, as in the code.
- Storage exceptions (`try`/`catch` around `localStorage` and `sessionStorage`) are not modelled: every read and write succeeds.
- `navigator.vibrate` is I/O; `burstId` stands for the feedback that fires on every press.
- MyLog.SessionSeries: elapsed minutes are computed with integer floor division. The source divides by 1000 and then by 60 in floating point, which can differ only by rounding.
- AggregateSeries.BuildSeriesFromTimestamps: the library sort is not modelled as a sort. Its only observable effect is that t0 is the minimum, which `SmallestTimestamp` computes, and order independence is `SeriesPermutation`.
- src/App.jsx, src/pages/DashboardView.jsx and tailwind.config.js are routing, composition and styling.
