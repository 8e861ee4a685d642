/**
 * The Android app's statistics (`BlockedAdsStats` in BlockedAdsStats.java):
 * counters kept in the `BlockedAdsStats` preferences file, each mutator a
 * read of the stored value followed by a write of the updated one. The
 * clock (`System.currentTimeMillis()`) is the parameter `now`.
 */
module AndroidStats {
  import opened AndroidPrefs

  const AdsBlockedKey := "ads_blocked"
  const DataSavedKey := "data_saved"
  const SessionsKey := "youtube_sessions"
  const StartTimeKey := "start_time"

  /**
   * Each key, when present, holds the type its getter reads (another type
   * would throw), and an `int` key holds a 32-bit value.
   */
  predicate Typed(data: map<string, Pref>)
  {
    && (AdsBlockedKey in data ==> data[AdsBlockedKey].IntPref? && IsInt(data[AdsBlockedKey].i))
    && (SessionsKey in data ==> data[SessionsKey].IntPref? && IsInt(data[SessionsKey].i))
    && (StartTimeKey in data ==> data[StartTimeKey].LongPref?)
    && (DataSavedKey in data ==> data[DataSavedKey].DoubleBitsPref?)
  }

  class Stats {
    /** `context.getSharedPreferences("BlockedAdsStats", MODE_PRIVATE)`. */
    const prefs: Preferences

    /**
     * `new BlockedAdsStats(context)`: the start time is written only when the
     * store has none, so a later instance keeps the first one's start time.
     */
    constructor(store: Preferences, now: int)
      requires Typed(store.data)
      modifies store
      ensures prefs == store && Typed(store.data)
      ensures StartTimeKey in old(store.data) ==> store.data == old(store.data)
      ensures StartTimeKey !in old(store.data) ==> store.data == old(store.data)[StartTimeKey := LongPref(now)]
    {
      prefs := store;
      new;
      if StartTimeKey !in store.data {
        store.data := store.data[StartTimeKey := LongPref(now)];
      }
    }

    /** `getAdsBlocked()`: the stored count, 0 when none was ever written. */
    function AdsBlocked(): (r: int)
      reads prefs
      requires Typed(prefs.data)
      ensures AdsBlockedKey !in prefs.data ==> r == 0
    {
      GetInt(prefs.data, AdsBlockedKey, 0)
    }

    /** `getYouTubeSessions()`: the stored count, 0 when none was ever written. */
    function YouTubeSessions(): (r: int)
      reads prefs
      requires Typed(prefs.data)
      ensures SessionsKey !in prefs.data ==> r == 0
    {
      GetInt(prefs.data, SessionsKey, 0)
    }

    /** `getDataSaved()`: the stored megabytes, 0 when none were ever written. */
    function DataSaved(): (r: real)
      reads prefs
      requires Typed(prefs.data)
      ensures DataSavedKey !in prefs.data ==> r == 0.0
    {
      if DataSavedKey in prefs.data then prefs.data[DataSavedKey].d else 0.0
    }

    /** `getStartTime()`: the stored start time, or the current time when none is stored. */
    function StartTime(now: int): (r: int)
      reads prefs
      requires Typed(prefs.data)
      ensures StartTimeKey !in prefs.data ==> r == now
    {
      GetLong(prefs.data, StartTimeKey, now)
    }

    /** `getRuntimeMinutes()`: whole minutes since the start time, the division truncating toward zero. */
    function RuntimeMinutes(now: int): (r: int)
      reads prefs
      requires Typed(prefs.data)
      ensures now >= StartTime(now) ==> 0 <= r && r * 60000 <= now - StartTime(now) < r * 60000 + 60000
      ensures now < StartTime(now) ==> r <= 0 && r * 60000 - 60000 < now - StartTime(now) <= r * 60000
    {
      JavaDiv(now - StartTime(now), 1000 * 60)
    }

    /** `getDailyAdsBlocked()`: there is no daily bookkeeping, so it is the total. */
    function DailyAdsBlocked(): (r: int)
      reads prefs
      requires Typed(prefs.data)
      ensures r == AdsBlocked()
    {
      AdsBlocked()
    }

    /** `getDailyDataSaved()`: likewise the total. */
    function DailyDataSaved(): (r: real)
      reads prefs
      requires Typed(prefs.data)
      ensures r == DataSaved()
    {
      DataSaved()
    }

    /**
     * `incrementAdsBlocked()`: the count goes up by one in `int` arithmetic
     * (from `IntMax` it wraps to `IntMin`); no other key changes.
     */
    method IncrementAdsBlocked()
      requires Typed(prefs.data)
      modifies prefs
      ensures Typed(prefs.data)
      ensures prefs.data == old(prefs.data)[AdsBlockedKey := IntPref(WrapInt(old(AdsBlocked()) + 1))]
      ensures old(AdsBlocked()) < IntMax ==> AdsBlocked() == old(AdsBlocked()) + 1
    {
      var current := AdsBlocked();
      WrapIntRange(current + 1);
      prefs.data := prefs.data[AdsBlockedKey := IntPref(WrapInt(current + 1))];
    }

    /** `addAdsBlocked(count)`: the count goes up by `count` in `int` arithmetic; no other key changes. */
    method AddAdsBlocked(count: int)
      requires Typed(prefs.data) && IsInt(count)
      modifies prefs
      ensures Typed(prefs.data)
      ensures prefs.data == old(prefs.data)[AdsBlockedKey := IntPref(WrapInt(old(AdsBlocked()) + count))]
      ensures IsInt(old(AdsBlocked()) + count) ==> AdsBlocked() == old(AdsBlocked()) + count
    {
      var current := AdsBlocked();
      WrapIntRange(current + count);
      prefs.data := prefs.data[AdsBlockedKey := IntPref(WrapInt(current + count))];
    }

    /** `addDataSaved(mb)`: the stored megabytes grow by `mb`; no other key changes. */
    method AddDataSaved(mb: real)
      requires Typed(prefs.data)
      modifies prefs
      ensures Typed(prefs.data)
      ensures prefs.data == old(prefs.data)[DataSavedKey := DoubleBitsPref(old(DataSaved()) + mb)]
    {
      var current := DataSaved();
      prefs.data := prefs.data[DataSavedKey := DoubleBitsPref(current + mb)];
    }

    /** `incrementYouTubeSessions()`: the session count goes up by one; no other key changes. */
    method IncrementYouTubeSessions()
      requires Typed(prefs.data)
      modifies prefs
      ensures Typed(prefs.data)
      ensures prefs.data == old(prefs.data)[SessionsKey := IntPref(WrapInt(old(YouTubeSessions()) + 1))]
      ensures old(YouTubeSessions()) < IntMax ==> YouTubeSessions() == old(YouTubeSessions()) + 1
    {
      var current := YouTubeSessions();
      WrapIntRange(current + 1);
      prefs.data := prefs.data[SessionsKey := IntPref(WrapInt(current + 1))];
    }

    /** `resetStats()`: the three counters to 0 and the start time to now, in one commit. */
    method ResetStats(now: int)
      requires Typed(prefs.data)
      modifies prefs
      ensures Typed(prefs.data)
      ensures prefs.data == old(prefs.data)[AdsBlockedKey := IntPref(0)][DataSavedKey := DoubleBitsPref(0.0)]
                                           [SessionsKey := IntPref(0)][StartTimeKey := LongPref(now)]
      ensures AdsBlocked() == 0 && DataSaved() == 0.0 && YouTubeSessions() == 0 && StartTime(now) == now
    {
      prefs.data := prefs.data[AdsBlockedKey := IntPref(0)][DataSavedKey := DoubleBitsPref(0.0)]
                              [SessionsKey := IntPref(0)][StartTimeKey := LongPref(now)];
    }
  }

  /** Statistics over a store never written before read zero for every counter. */
  method FreshStoreReadsZero(now: int) returns (ads: int, sessions: int, data: real, minutes: int)
    ensures ads == 0 && sessions == 0 && data == 0.0 && minutes == 0
  {
    var store := new Preferences();
    var stats := new Stats(store, now);
    ads := stats.AdsBlocked();
    sessions := stats.YouTubeSessions();
    data := stats.DataSaved();
    minutes := stats.RuntimeMinutes(now);
  }

  /**
   * A second object over the same store reads the counts the first left
   * there, and keeps the start time the first one wrote.
   */
  method SecondInstanceSeesCounts(now: int, later: int, mb: real)
    returns (ads: int, sessions: int, data: real, start: int)
    ensures ads == 1 && sessions == 1 && data == mb && start == now
  {
    var store := new Preferences();
    var first := new Stats(store, now);
    first.IncrementAdsBlocked();
    first.AddDataSaved(mb);
    first.IncrementYouTubeSessions();
    var second := new Stats(store, later);
    ads := second.AdsBlocked();
    sessions := second.YouTubeSessions();
    data := second.DataSaved();
    start := second.StartTime(later);
  }

  /** After counting, a reset reads zero again. */
  method ResetAfterCounting(now: int, later: int) returns (ads: int, sessions: int, data: real)
    ensures ads == 0 && sessions == 0 && data == 0.0
  {
    var store := new Preferences();
    var stats := new Stats(store, now);
    stats.IncrementAdsBlocked();
    stats.AddDataSaved(0.5);
    stats.IncrementYouTubeSessions();
    stats.ResetStats(later);
    ads := stats.AdsBlocked();
    sessions := stats.YouTubeSessions();
    data := stats.DataSaved();
  }
}
