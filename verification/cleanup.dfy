/** `CleanupLowHpWarnings` of Plugin.cs: a time-gated sweep that drops every dictionary entry
    but the local player's. */
module Cleanup {

  import opened Wrappers
  import opened Debounce

  /** Time is a .NET tick count (100 ns). */
  const TicksPerMinute: int := 600_000_000

  /** The sweep runs only when strictly more than this much time has passed. */
  const CleanupIntervalTicks: int := 15 * TicksPerMinute

  /** `lowHpWarnings` and `lastCleanupTime`. */
  datatype MonitorState = MonitorState(lowHpWarnings: Warnings, lastCleanupTime: int)

  /** The plugin as constructed: no entries, the clock started at construction time. */
  function Init(now: int): MonitorState
  {
    MonitorState(map[], now)
  }

  /** `(DateTime.Now - lastCleanupTime).TotalMinutes > 15`. */
  predicate CleanupDue(st: MonitorState, now: int)
  {
    now - st.lastCleanupTime > CleanupIntervalTicks
  }

  /** One sweep.  `localName` is the local player's name, `None` when there is no local player
      (then no key equals it and the dictionary is emptied). */
  function CleanupLowHpWarnings(st: MonitorState, now: int, localName: Option<string>): (r: MonitorState)
    ensures !CleanupDue(st, now) ==> r == st
    ensures CleanupDue(st, now) ==> r.lastCleanupTime == now
    ensures CleanupDue(st, now) && localName.None? ==> r.lowHpWarnings == map[]
    ensures CleanupDue(st, now) && localName.Some? ==>
              r.lowHpWarnings.Keys == st.lowHpWarnings.Keys * {localName.value}
    ensures forall k :: k in r.lowHpWarnings ==> k in st.lowHpWarnings && r.lowHpWarnings[k] == st.lowHpWarnings[k]
  {
    if CleanupDue(st, now) then
      MonitorState(map k | k in st.lowHpWarnings && Some(k) == localName :: st.lowHpWarnings[k], now)
    else
      st
  }

  /** The clock starts at construction: no sweep in the first 15 minutes changes anything, and
      the first one that runs finds nothing to evict. */
  lemma InitStartsTheClock(start: int, now: int, localName: Option<string>)
    ensures now - start <= CleanupIntervalTicks ==> CleanupLowHpWarnings(Init(start), now, localName) == Init(start)
    ensures now - start > CleanupIntervalTicks ==> CleanupLowHpWarnings(Init(start), now, localName) == Init(now)
  {
  }

  /** A sweep leaves at most one entry behind. */
  lemma SweepBoundsTheDictionary(st: MonitorState, now: int, localName: Option<string>)
    requires CleanupDue(st, now)
    ensures |CleanupLowHpWarnings(st, now, localName).lowHpWarnings| <= 1
  {
    var r := CleanupLowHpWarnings(st, now, localName);
    if localName.Some? {
      assert r.lowHpWarnings.Keys <= {localName.value};
      SubsetOfSingleton(r.lowHpWarnings.Keys, localName.value);
    } else {
      assert r.lowHpWarnings.Keys == {};
    }
  }

  lemma SubsetOfSingleton(s: set<string>, x: string)
    requires s <= {x}
    ensures |s| <= 1
  {
    if s != {} {
      assert s == {x};
    }
  }

  /** The sweep is gated: once it has run at `now`, any sweep no more than the interval later
      changes nothing, whoever the local player is. */
  lemma SweepIsIntervalGated(st: MonitorState, now: int, later: int, name1: Option<string>, name2: Option<string>)
    requires CleanupDue(st, now)
    requires later - now <= CleanupIntervalTicks
    ensures var swept := CleanupLowHpWarnings(st, now, name1);
            CleanupLowHpWarnings(swept, later, name2) == swept
  {
  }

  /** The local player's suppression survives the sweep, so a sweep never makes the local
      player be warned again during one low episode. */
  lemma SweepKeepsLocalFlag(st: MonitorState, now: int, name: string, s: Sample, a: Alerts)
    requires s.name == name && Suppressed(st.lowHpWarnings, name)
    ensures var swept := CleanupLowHpWarnings(st, now, Some(name));
            Suppressed(swept.lowHpWarnings, name)
            && CheckAndWarn(swept.lowHpWarnings, s, a).issued.None?
  {
    var swept := CleanupLowHpWarnings(st, now, Some(name));
    if CleanupDue(st, now) {
      assert name in swept.lowHpWarnings.Keys;
    }
  }

  /** An evicted party member that is still low is warned again at its next reading: eviction
      forgets the suppression. */
  lemma EvictionRearmsOthers(st: MonitorState, now: int, localName: Option<string>, s: Sample, a: Alerts)
    requires CleanupDue(st, now) && Some(s.name) != localName
    requires IsLow(s.cur, s.max, a.thresholdPercent)
    ensures CheckAndWarn(CleanupLowHpWarnings(st, now, localName).lowHpWarnings, s, a).issued.Some?
  {
    var swept := CleanupLowHpWarnings(st, now, localName);
    assert s.name !in swept.lowHpWarnings;
  }
}
