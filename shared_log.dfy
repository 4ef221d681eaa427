/** The one place where the participant page and the dashboard meet: the tap
    log under `LOG_KEY` in `localStorage`, written by the page and read back
    by the dashboard's persisted mode and by the page on its next mount. */
module SharedLog {
  import opened Common
  import opened Storage
  import opened AggregateSeries
  import LiveChart
  import ParticipantView

  /** The dashboard charts exactly the newest 500 taps the page saved. */
  lemma DashboardReadsSavedLog(items: map<string, LogText>, log: seq<int>)
    ensures LiveChart.LoadStoredTimestamps(items[LOG_KEY := ParticipantView.SavedText(log)]) == Last(log, ParticipantView.MAX_LOG_LENGTH)
    ensures Series(LiveChart.LoadStoredTimestamps(items[LOG_KEY := ParticipantView.SavedText(log)]))
            == Series(Last(log, ParticipantView.MAX_LOG_LENGTH))
  {
  }

  /** The dashboard reads the stored array without a cap and the page caps it
      at 500; on every store whose array respects the cap, as every array the
      page writes does, the two readers agree. */
  lemma ReadersAgree(items: map<string, LogText>)
    requires LOG_KEY in items && items[LOG_KEY].IntArray? ==> |items[LOG_KEY].elems| <= ParticipantView.MAX_LOG_LENGTH
    ensures LiveChart.LoadStoredTimestamps(items) == ParticipantView.LoadLog(items)
  {
  }

  /** Leaving the page and opening it again in the same browser session gives
      back the same log and the same session start. */
  method Reload(page: ParticipantView.Page, session: KeyValueStore<Option<int>>, now: int)
    returns (next: ParticipantView.Page)
    requires page.Valid()
    requires ParticipantView.StoredSessionStart(session.items) == Some(page.sessionStartMs)
    modifies page, page.local, session
    ensures next.Valid() && next.local == page.local
    ensures next.log == old(page.log) && next.pending
    ensures next.sessionStartMs == page.sessionStartMs && session.items == old(session.items)
    ensures LiveChart.LoadStoredTimestamps(page.local.items) == old(page.log)
  {
    page.Unmount();
    next := new ParticipantView.Page(page.local, session, now);
  }
}
