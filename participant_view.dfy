/** The participant page: the session-start marker, the local tap log capped
    at 500 entries, its debounced persistence, and the wiring of the button's
    counted presses into the log. */
module ParticipantView {
  import opened Common
  import opened Storage
  import ResonanceButton

  const MAX_LOG_LENGTH: nat := 500

  // ---- Session start ----

  /** The marker `getOrCreateSessionStart` accepts: a stored number greater
      than 0. A stored value is `None` when it is empty or does not parse. */
  function StoredSessionStart(items: map<string, Option<int>>): (r: Option<int>)
    ensures r.Some? <==> SESSION_START_KEY in items && items[SESSION_START_KEY].Some? && items[SESSION_START_KEY].value > 0
    ensures r.Some? ==> r.value > 0 && items[SESSION_START_KEY] == r
  {
    if SESSION_START_KEY in items && items[SESSION_START_KEY].Some? && items[SESSION_START_KEY].value > 0
    then items[SESSION_START_KEY] else None
  }

  /** The result and the new session store of `getOrCreateSessionStart` at time `now`. */
  function SessionStartStep(items: map<string, Option<int>>, now: int): (int, map<string, Option<int>>) {
    match StoredSessionStart(items)
    case Some(start) => (start, items)
    case None => (now, items[SESSION_START_KEY := Some(now)])
  }

  /** A second call returns what the first returned and writes nothing, so the
      start survives reloads of the page within the browser session. */
  lemma SessionStartStable(items: map<string, Option<int>>, now1: int, now2: int)
    requires now1 > 0
    ensures var (start1, items1) := SessionStartStep(items, now1);
      && start1 > 0
      && (StoredSessionStart(items).Some? ==> start1 == StoredSessionStart(items).value && items1 == items)
      && (StoredSessionStart(items).None? ==> start1 == now1)
      && SessionStartStep(items1, now2) == (start1, items1)
  {
    var (start1, items1) := SessionStartStep(items, now1);
    assert StoredSessionStart(items1) == Some(start1);
  }

  /** `getOrCreateSessionStart` with `Date.now()` passed as `now`. */
  method GetOrCreateSessionStart(session: KeyValueStore<Option<int>>, now: int) returns (start: int)
    modifies session
    ensures (start, session.items) == SessionStartStep(old(session.items), now)
  {
    if SESSION_START_KEY in session.items {
      var stored := session.items[SESSION_START_KEY];
      if stored.Some? && stored.value > 0 {
        return stored.value;
      }
    }
    session.SetItem(SESSION_START_KEY, Some(now));
    start := now;
  }

  // ---- The persisted log ----

  /** `loadLog`: the newest 500 entries of a stored array, otherwise the empty log. */
  function LoadLog(items: map<string, LogText>): (r: seq<int>)
    ensures |r| <= MAX_LOG_LENGTH
    ensures (LOG_KEY in items && items[LOG_KEY].IntArray?) ==> r == Last(items[LOG_KEY].elems, MAX_LOG_LENGTH)
    ensures !(LOG_KEY in items && items[LOG_KEY].IntArray?) ==> r == []
  {
    if LOG_KEY !in items then []
    else match items[LOG_KEY]
      case IntArray(elems) => Last(elems, MAX_LOG_LENGTH)
      case _ => []
  }

  /** What `saveLog` writes: the newest 500 entries. */
  function SavedText(log: seq<int>): LogText {
    IntArray(Last(log, MAX_LOG_LENGTH))
  }

  method SaveLog(local: KeyValueStore<LogText>, log: seq<int>)
    modifies local
    ensures local.items == old(local.items)[LOG_KEY := SavedText(log)]
  {
    var toSave := if |log| > MAX_LOG_LENGTH then log[|log| - MAX_LOG_LENGTH..] else log;
    local.SetItem(LOG_KEY, IntArray(toSave));
  }

  /** Loading after saving gives back the newest 500 entries, that is the
      whole log whenever it respects the cap. */
  lemma {:induction false} LoadSavedLog(items: map<string, LogText>, log: seq<int>)
    ensures LoadLog(items[LOG_KEY := SavedText(log)]) == Last(log, MAX_LOG_LENGTH)
    ensures |log| <= MAX_LOG_LENGTH ==> LoadLog(items[LOG_KEY := SavedText(log)]) == log
  {
    LastIdempotent(log, MAX_LOG_LENGTH);
  }

  // ---- Appending taps ----

  /** The `setLog` updater of `onResonance`: append `now`, keep the newest 500. */
  function AppendTap(log: seq<int>, now: int): (r: seq<int>)
    ensures |r| == if |log| + 1 <= MAX_LOG_LENGTH then |log| + 1 else MAX_LOG_LENGTH
    ensures r[|r| - 1] == now
    ensures r == (log + [now])[|log| + 1 - |r|..]
    ensures |log| < MAX_LOG_LENGTH ==> r == log + [now]
    ensures |log| == MAX_LOG_LENGTH ==> r == log[1..] + [now] && r[0] == log[1]
  {
    var next := log + [now];
    if |next| > MAX_LOG_LENGTH then next[|next| - MAX_LOG_LENGTH..] else next
  }

  /** The log after a series of taps, one `onResonance` each. */
  function AppendAll(log: seq<int>, taps: seq<int>): seq<int>
    decreases |taps|
  {
    if |taps| == 0 then log else AppendAll(AppendTap(log, taps[0]), taps[1..])
  }

  lemma {:induction false} LastSnoc(s: seq<int>, x: int, n: nat)
    requires n > 0
    ensures Last(Last(s, n) + [x], n) == Last(s + [x], n)
  {
    var t := Last(s, n);
    if |s| > n {
      assert (t + [x])[|t| + 1 - n..] == (s + [x])[|s| + 1 - n..];
    }
  }

  /** Capping after every tap loses nothing the final cap would keep: the log
      is always the newest 500 of everything loaded and tapped. */
  lemma {:induction false} AppendAllIsLast(log: seq<int>, taps: seq<int>)
    ensures AppendAll(Last(log, MAX_LOG_LENGTH), taps) == Last(log + taps, MAX_LOG_LENGTH)
    decreases |taps|
  {
    if |taps| == 0 {
      assert log + taps == log;
    } else {
      LastSnoc(log, taps[0], MAX_LOG_LENGTH);
      assert AppendTap(Last(log, MAX_LOG_LENGTH), taps[0]) == Last(log + [taps[0]], MAX_LOG_LENGTH);
      AppendAllIsLast(log + [taps[0]], taps[1..]);
      assert log + [taps[0]] + taps[1..] == log + taps;
    }
  }

  // ---- The page ----

  /** `ParticipantView`: one instance per mount. `pending` says that
      `saveTimeoutRef` holds a timer that has not fired yet. */
  class Page {
    const sessionStartMs: int
    var log: seq<int>
    var pending: bool
    const local: KeyValueStore<LogText>
    const button: ResonanceButton.Button
    /** The log before the latest change; `None` until the first change after mounting. */
    ghost var previous: Option<seq<int>>

    /** The local store holds exactly `l`. */
    ghost predicate Stores(l: seq<int>)
      reads this, local
    {
      LOG_KEY in local.items && local.items[LOG_KEY] == IntArray(l)
    }

    /** The log respects the cap; without a pending timer the store holds the
        current log, and once the log has changed the store holds the current
        log or the one just before it. */
    ghost predicate Valid()
      reads this, local, button
    {
      && |log| <= MAX_LOG_LENGTH
      && button.Valid()
      && (!pending ==> Stores(log))
      && (previous.Some? ==> Stores(log) || Stores(previous.value))
    }

    /** Mounting: the lazy state initialisers run, then the effect for the
        loaded log schedules its save. */
    constructor (local: KeyValueStore<LogText>, session: KeyValueStore<Option<int>>, now: int)
      modifies session
      ensures Valid()
      ensures this.local == local && local.items == old(local.items)
      ensures (sessionStartMs, session.items) == SessionStartStep(old(session.items), now)
      ensures log == LoadLog(local.items) && pending && previous == None
      ensures fresh(button) && button.lastTap == 0 && button.streak == 0
    {
      this.local := local;
      var start := GetOrCreateSessionStart(session, now);
      sessionStartMs := start;
      log := LoadLog(local.items);
      button := new ResonanceButton.Button();
      pending := true;
      previous := None;
    }

    /** `onResonance` and the re-render it causes: the log grows by `now`, the
        cleanup of the previous effect flushes the previous log if its timer
        was still pending, and the new effect schedules a save. Either way the
        store holds the previous log afterwards. */
    method OnResonance(now: int)
      requires Valid()
      modifies this, local
      ensures Valid()
      ensures log == AppendTap(old(log), now) && pending && previous == Some(old(log))
      ensures local.items == old(local.items)[LOG_KEY := IntArray(old(log))]
    {
      var prev := log;
      log := AppendTap(prev, now);
      if pending {
        SaveLog(local, prev);
      }
      pending := true;
      previous := Some(prev);
    }

    /** The debounce timer fires: the current log is written. */
    method TimerFire()
      requires Valid() && pending
      modifies this, local
      ensures Valid()
      ensures log == old(log) && !pending
      ensures local.items == old(local.items)[LOG_KEY := IntArray(log)]
    {
      SaveLog(local, log);
      pending := false;
    }

    /** Unmounting: the cleanup flushes a pending save, so no tap is lost. */
    method Unmount()
      requires Valid()
      modifies this, local
      ensures Valid()
      ensures log == old(log) && !pending
      ensures local.items == old(local.items)[LOG_KEY := IntArray(log)]
      ensures LoadLog(local.items) == log
    {
      if pending {
        SaveLog(local, log);
      }
      pending := false;
    }

    /** A press of the button: only a counted press reaches `onResonance`.
        The handler and the `setLog` updater each read the clock: `pressNow`
        is the reading the throttle uses and `logNow` the one that is logged. */
    method Tap(pressNow: int, logNow: int) returns (counted: bool)
      requires Valid()
      modifies this, local, button
      ensures Valid()
      ensures var o := ResonanceButton.Press(ResonanceButton.TapState(old(button.lastTap), old(button.streak)), pressNow);
        && counted == o.counted && button.lastTap == o.next.lastTap && button.streak == o.next.streak
        && button.intensity == o.intensity
      ensures button.burstId == old(button.burstId) + 1
      ensures counted ==> log == AppendTap(old(log), logNow) && local.items == old(local.items)[LOG_KEY := IntArray(old(log))]
      ensures counted ==> pending && previous == Some(old(log))
      ensures !counted ==> log == old(log) && pending == old(pending) && previous == old(previous) && local.items == old(local.items)
    {
      counted := button.HandlePress(pressNow);
      if counted {
        OnResonance(logNow);
      }
    }
  }
}
