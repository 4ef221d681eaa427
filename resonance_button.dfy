/** The tap button's press handler. Every press gives feedback whose
    intensity grows with a streak of rapid presses; only presses at least
    280 ms after the last counted one are counted and reported. Both the
    streak gap and the throttle gap are measured from the last COUNTED press,
    because that is the only time the handler records. */
module ResonanceButton {

  const STREAK_WINDOW_MS: int := 400
  const MAX_STREAK: nat := 10
  const TAP_THROTTLE_MS: int := 280
  /** Intensities are in hundredths: 0.3 at streak 0, 0.07 more per step, at most 1. */
  const BASE_INTENSITY: nat := 30
  const INTENSITY_STEP: nat := 7
  const FULL_INTENSITY: nat := 100

  /** The two mutable cells of the handler: `lastTapRef` and `streakRef`. */
  datatype TapState = TapState(lastTap: int, streak: nat)

  /** What one press does: the new cells, the feedback intensity, and whether `onPress` is called. */
  datatype PressOutcome = PressOutcome(next: TapState, intensity: nat, counted: bool)

  /** The state before any press: `useRef(0)` for both cells. */
  const INITIAL: TapState := TapState(0, 0)

  /** The streak grows by one (up to 10) within 400 ms and restarts at 0 otherwise. */
  function NextStreak(streak: nat, gap: int): (r: nat)
    ensures r <= MAX_STREAK
    ensures gap < STREAK_WINDOW_MS ==> r == (if streak + 1 < MAX_STREAK then streak + 1 else MAX_STREAK)
    ensures gap >= STREAK_WINDOW_MS ==> r == 0
  {
    if gap < STREAK_WINDOW_MS then (if streak + 1 < MAX_STREAK then streak + 1 else MAX_STREAK) else 0
  }

  /** `Math.min(0.3 + streak * 0.07, 1)` in hundredths. For every streak the
      handler can reach the cap is never needed. */
  function Intensity(streak: nat): (r: nat)
    ensures BASE_INTENSITY <= r <= FULL_INTENSITY
    ensures streak <= MAX_STREAK ==> r == BASE_INTENSITY + INTENSITY_STEP * streak
  {
    var raw := BASE_INTENSITY + INTENSITY_STEP * streak;
    if raw < FULL_INTENSITY then raw else FULL_INTENSITY
  }

  /** One call of `handlePress` at time `now`. */
  function Press(s: TapState, now: int): (o: PressOutcome)
    ensures o.counted <==> now - s.lastTap >= TAP_THROTTLE_MS
    ensures o.next.lastTap == if o.counted then now else s.lastTap
    ensures o.next.streak == NextStreak(s.streak, now - s.lastTap) && o.next.streak <= MAX_STREAK
    ensures BASE_INTENSITY <= o.intensity <= FULL_INTENSITY && o.intensity == Intensity(o.next.streak)
  {
    var gap := now - s.lastTap;
    var streak := NextStreak(s.streak, gap);
    var counted := gap >= TAP_THROTTLE_MS;
    PressOutcome(TapState(if counted then now else s.lastTap, streak), Intensity(streak), counted)
  }

  /** The outcomes of a series of presses starting in state s: each press acts
      on the state the previous one left. */
  function Run(s: TapState, presses: seq<int>): (r: seq<PressOutcome>)
    ensures |r| == |presses|
    ensures |presses| > 0 ==> r[0] == Press(s, presses[0])
    ensures forall i :: 0 < i < |r| ==> r[i] == Press(r[i - 1].next, presses[i])
    decreases |presses|
  {
    if |presses| == 0 then []
    else
      var o := Press(s, presses[0]);
      var rest := Run(o.next, presses[1..]);
      assert forall i :: 0 < i < |rest| ==> rest[i] == Press(rest[i - 1].next, presses[1..][i]);
      [o] + rest
  }

  /** The presses whose outcome is counted, in order. */
  function Select(presses: seq<int>, outcomes: seq<PressOutcome>): (r: seq<int>)
    requires |presses| == |outcomes|
    ensures |r| <= |presses|
    ensures forall x :: x in r <==> exists i :: 0 <= i < |presses| && outcomes[i].counted && presses[i] == x
    decreases |presses|
  {
    if |presses| == 0 then []
    else
      var rest := Select(presses[1..], outcomes[1..]);
      assert forall x :: x in rest <==> exists i :: 1 <= i < |presses| && outcomes[i].counted && presses[i] == x by {
        forall x | x in rest ensures exists i :: 1 <= i < |presses| && outcomes[i].counted && presses[i] == x {
          var j :| 0 <= j < |presses| - 1 && outcomes[1..][j].counted && presses[1..][j] == x;
          assert outcomes[j + 1].counted && presses[j + 1] == x;
        }
        forall x | exists i :: 1 <= i < |presses| && outcomes[i].counted && presses[i] == x ensures x in rest {
          var i :| 1 <= i < |presses| && outcomes[i].counted && presses[i] == x;
          assert outcomes[1..][i - 1].counted && presses[1..][i - 1] == x;
        }
      }
      (if outcomes[0].counted then [presses[0]] else []) + rest
  }

  /** The times of the presses that were counted (that reached `onPress`). */
  function CountedTimes(s: TapState, presses: seq<int>): seq<int>
    decreases |presses|
  {
    if |presses| == 0 then []
    else
      var o := Press(s, presses[0]);
      (if o.counted then [presses[0]] else []) + CountedTimes(o.next, presses[1..])
  }

  /** `CountedTimes` is, in order, exactly the presses `Run` marks as counted. */
  lemma {:induction false} CountedTimesFromRun(s: TapState, presses: seq<int>)
    ensures CountedTimes(s, presses) == Select(presses, Run(s, presses))
    decreases |presses|
  {
    if |presses| > 0 {
      var o := Press(s, presses[0]);
      CountedTimesFromRun(o.next, presses[1..]);
      assert Run(s, presses)[1..] == Run(o.next, presses[1..]);
    }
  }

  /** Counted presses are at least 280 ms after the previously recorded one and
      at least 280 ms apart from each other, whatever happens in between. */
  lemma {:induction false} CountedPressesSpaced(s: TapState, presses: seq<int>)
    ensures var c := CountedTimes(s, presses);
      && (|c| > 0 ==> c[0] - s.lastTap >= TAP_THROTTLE_MS)
      && forall i :: 0 <= i < |c| - 1 ==> c[i + 1] - c[i] >= TAP_THROTTLE_MS
    decreases |presses|
  {
    if |presses| > 0 {
      var o := Press(s, presses[0]);
      CountedPressesSpaced(o.next, presses[1..]);
      var c := CountedTimes(s, presses);
      var rest := CountedTimes(o.next, presses[1..]);
      if o.counted {
        assert c == [presses[0]] + rest;
        forall i | 0 <= i < |c| - 1 ensures c[i + 1] - c[i] >= TAP_THROTTLE_MS {
          if i > 0 {
            assert c[i] == rest[i - 1] && c[i + 1] == rest[i];
          }
        }
      } else {
        assert c == rest;
      }
    }
  }

  /** Presses at T, T+50, T+100 and T+600 from the initial state, T >= 400:
      streaks 0, 1, 2, 0, and only T and T+600 are counted. The two presses in
      between are measured from T, the last counted press. */
  lemma BurstScenario(t: int)
    requires t >= STREAK_WINDOW_MS
    ensures var r := Run(INITIAL, [t, t + 50, t + 100, t + 600]);
      && r[0].next.streak == 0 && r[1].next.streak == 1 && r[2].next.streak == 2 && r[3].next.streak == 0
      && r[0].counted && !r[1].counted && !r[2].counted && r[3].counted
      && CountedTimes(INITIAL, [t, t + 50, t + 100, t + 600]) == [t, t + 600]
  {
    var p := [t, t + 50, t + 100, t + 600];
    var o0 := Press(INITIAL, t);
    var o1 := Press(o0.next, t + 50);
    var o2 := Press(o1.next, t + 100);
    var o3 := Press(o2.next, t + 600);
    assert o0.next == TapState(t, 0) && o0.counted;
    assert o1.next == TapState(t, 1) && !o1.counted;
    assert o2.next == TapState(t, 2) && !o2.counted;
    assert o3.next == TapState(t + 600, 0) && o3.counted;
    assert p[1..] == [t + 50, t + 100, t + 600];
    assert p[1..][1..] == [t + 100, t + 600];
    assert p[1..][1..][1..] == [t + 600];
    assert p[1..][1..][1..][1..] == [];
    assert Run(o3.next, []) == [];
    assert Run(o2.next, [t + 600]) == [o3];
    assert Run(o1.next, [t + 100, t + 600]) == [o2, o3];
    assert Run(o0.next, p[1..]) == [o1, o2, o3];
    assert Run(INITIAL, p) == [o0, o1, o2, o3];
    assert CountedTimes(o2.next, [t + 600]) == [t + 600];
    assert CountedTimes(o0.next, p[1..]) == [t + 600];
  }

  /** Presses at T, T+200 and T+450: the third press is 250 ms after the second
      but 450 ms after the last counted one, so its streak restarts at 0. */
  lemma StreakMeasuredFromCountedPress(t: int)
    requires t >= STREAK_WINDOW_MS
    ensures var r := Run(INITIAL, [t, t + 200, t + 450]);
      && r[0].next.streak == 0 && r[1].next.streak == 1 && r[2].next.streak == 0
      && r[0].counted && !r[1].counted && r[2].counted
  {
    var p := [t, t + 200, t + 450];
    var o0 := Press(INITIAL, t);
    var o1 := Press(o0.next, t + 200);
    var o2 := Press(o1.next, t + 450);
    assert o0.next == TapState(t, 0) && o0.counted;
    assert o1.next == TapState(t, 1) && !o1.counted;
    assert o2.next == TapState(t + 450, 0) && o2.counted;
    assert p[1..] == [t + 200, t + 450];
    assert p[1..][1..] == [t + 450];
    assert p[1..][1..][1..] == [];
    assert Run(o1.next, [t + 450]) == [o2];
    assert Run(o0.next, p[1..]) == [o1, o2];
    assert Run(INITIAL, p) == [o0, o1, o2];
  }

  /** The button component: the two ref cells plus the feedback state. */
  class Button {
    var lastTap: int
    var streak: nat
    /** Feedback intensity in hundredths; 0 until the first press. */
    var intensity: nat
    /** Incremented on every press to restart the particle burst. */
    var burstId: nat

    ghost predicate Valid()
      reads this
    {
      streak <= MAX_STREAK && (intensity == 0 || BASE_INTENSITY <= intensity <= FULL_INTENSITY)
    }

    constructor ()
      ensures Valid()
      ensures lastTap == 0 && streak == 0 && intensity == 0 && burstId == 0
    {
      lastTap, streak, intensity, burstId := 0, 0, 0, 0;
    }

    /** `handlePress`: feedback on every press; `counted` says whether `onPress` is called. */
    method HandlePress(now: int) returns (counted: bool)
      requires Valid()
      modifies this
      ensures Valid()
      ensures var o := Press(TapState(old(lastTap), old(streak)), now);
        lastTap == o.next.lastTap && streak == o.next.streak && intensity == o.intensity && counted == o.counted
      ensures burstId == old(burstId) + 1
    {
      var timeSinceLastTap := now - lastTap;
      if timeSinceLastTap < STREAK_WINDOW_MS {
        streak := if streak + 1 < MAX_STREAK then streak + 1 else MAX_STREAK;
      } else {
        streak := 0;
      }
      intensity := Intensity(streak);
      burstId := burstId + 1;
      if timeSinceLastTap < TAP_THROTTLE_MS {
        return false;
      }
      lastTap := now;
      counted := true;
    }
  }
}
