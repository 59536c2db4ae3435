/// The weekly rollover (`checkTimeAndReset`, polled once a minute): at the
/// single instant Sunday 20:00 it archives the week's services and reports
/// into `weeklyAnalyses` and empties both lists.
///
/// The clock is an input: `day` is `getDay()` (0 is Sunday), `hour` and
/// `minute` are the local time, and `now` is the ISO timestamp written into
/// the snapshot.
module WeeklyReset {
  import opened Records

  /** The one instant of the week at which the rollover fires. */
  predicate IsResetInstant(day: int, hour: int, minute: int)
  {
    day == 0 && hour == 20 && minute == 0
  }

  /**
   * Polled once a minute, the rollover fires at exactly one minute of the
   * week: numbering the minutes of a week from Sunday 00:00, only minute 1200.
   */
  lemma OncePerWeek(m: int)
    requires 0 <= m < 7 * 24 * 60
    ensures IsResetInstant(m / (24 * 60), (m % (24 * 60)) / 60, m % 60) <==> m == 20 * 60
  {
  }

  /** One poll of the clock. */
  method CheckTimeAndReset(store: LocalStore, day: int, hour: int, minute: int, now: string)
    modifies store`services, store`reports, store`weeklyAnalyses
    ensures IsResetInstant(day, hour, minute) ==>
      && store.weeklyAnalyses == old(store.weeklyAnalyses) + [WeeklyAnalysis(now, old(store.services), old(store.reports))]
      && store.services == []
      && store.reports == []
    ensures !IsResetInstant(day, hour, minute) ==>
      && store.weeklyAnalyses == old(store.weeklyAnalyses)
      && store.services == old(store.services)
      && store.reports == old(store.reports)
  {
    if day == 0 && hour == 20 && minute == 0 {
      var services := store.services;
      var reports := store.reports;
      var analysis := WeeklyAnalysis(now, services, reports);
      var previousAnalyses := store.weeklyAnalyses;
      store.weeklyAnalyses := previousAnalyses + [analysis];
      store.services := [];
      store.reports := [];
    }
  }

  /**
   * Two rollovers with nothing submitted in between: the first snapshot holds
   * the week's records, the second is empty, earlier history is untouched and
   * the user list is never written.
   */
  method ResetTwice(store: LocalStore, first: string, second: string)
    modifies store`services, store`reports, store`weeklyAnalyses
    ensures |store.weeklyAnalyses| == |old(store.weeklyAnalyses)| + 2
    ensures store.weeklyAnalyses[..|old(store.weeklyAnalyses)|] == old(store.weeklyAnalyses)
    ensures store.weeklyAnalyses[|old(store.weeklyAnalyses)|] == WeeklyAnalysis(first, old(store.services), old(store.reports))
    ensures store.weeklyAnalyses[|old(store.weeklyAnalyses)| + 1] == WeeklyAnalysis(second, [], [])
    ensures store.services == [] && store.reports == []
    ensures store.users == old(store.users)
  {
    CheckTimeAndReset(store, 0, 20, 0, first);
    CheckTimeAndReset(store, 0, 20, 0, second);
  }
}
