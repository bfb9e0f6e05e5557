/**
 * The configuration object of src/js/config.js: the dose list, the interval, and the
 * daily completion record that rolls over lazily when the calendar date changes.
 * The clock is the parameter `nowIso` (what `new Date().toISOString()` returns);
 * writing the file is a ghost counter of `save()` calls.
 */
module Configuration {
  import Strings

  datatype Option<T> = None | Some(value: T)

  /** `todayRecord`: the day it counts for (an ISO date) and the sessions completed that day. */
  datatype DailyRecord = DailyRecord(date: string, completedSessions: int)

  datatype Config = Config(
    medicines: seq<string>,
    intervalMinutes: int,
    dailySessions: int,
    soundEnabled: bool,
    todayRecord: DailyRecord)

  const DefaultMedicines: seq<string> := ["玻璃酸钠滴眼液", "氯替泼诺混悬滴眼液", "聚乙二醇滴眼液", "环孢素滴眼液"]

  /** The object the constructor starts from (the same values as the main process's defaults). */
  const DefaultConfig: Config := Config(DefaultMedicines, 5, 4, true, DailyRecord("", 0))

  /** The keys of the configuration object. */
  datatype Key = MedicinesKey | IntervalMinutesKey | DailySessionsKey | SoundEnabledKey | TodayRecordKey

  /** One key together with a value for it: an entry of a saved object, or an `update` call. */
  datatype Setting =
    | Medicines(names: seq<string>)
    | IntervalMinutes(minutes: int)
    | DailySessions(sessions: int)
    | SoundEnabled(enabled: bool)
    | TodayRecord(record: DailyRecord)

  function KeyOf(s: Setting): Key {
    match s
    case Medicines(_) => MedicinesKey
    case IntervalMinutes(_) => IntervalMinutesKey
    case DailySessions(_) => DailySessionsKey
    case SoundEnabled(_) => SoundEnabledKey
    case TodayRecord(_) => TodayRecordKey
  }

  /** `config[k]`, paired with its key. */
  function Lookup(c: Config, k: Key): (s: Setting)
    ensures KeyOf(s) == k
  {
    match k
    case MedicinesKey => Medicines(c.medicines)
    case IntervalMinutesKey => IntervalMinutes(c.intervalMinutes)
    case DailySessionsKey => DailySessions(c.dailySessions)
    case SoundEnabledKey => SoundEnabled(c.soundEnabled)
    case TodayRecordKey => TodayRecord(c.todayRecord)
  }

  /** `config[key] = value`: that key reads back the new value and every other key is unchanged. */
  function WithSetting(c: Config, s: Setting): (c': Config)
    ensures Lookup(c', KeyOf(s)) == s
    ensures forall k :: k != KeyOf(s) ==> Lookup(c', k) == Lookup(c, k)
  {
    match s
    case Medicines(names) => c.(medicines := names)
    case IntervalMinutes(minutes) => c.(intervalMinutes := minutes)
    case DailySessions(sessions) => c.(dailySessions := sessions)
    case SoundEnabled(enabled) => c.(soundEnabled := enabled)
    case TodayRecord(record) => c.(todayRecord := record)
  }

  /**
   * `{ ...c, ...saved }`: the saved object's entries, in order, each overriding its key.
   * The last entry is what its key reads, and a key no entry names keeps its value.
   */
  function Merge(c: Config, saved: seq<Setting>): (r: Config)
    ensures saved != [] ==> Lookup(r, KeyOf(saved[|saved| - 1])) == saved[|saved| - 1]
    ensures forall k :: (forall i :: 0 <= i < |saved| ==> KeyOf(saved[i]) != k) ==> Lookup(r, k) == Lookup(c, k)
  {
    if saved == [] then c else WithSetting(Merge(c, saved[..|saved| - 1]), saved[|saved| - 1])
  }

  /** The last entry of `saved` for key `k`, if there is one. */
  function LastFor(saved: seq<Setting>, k: Key): (o: Option<Setting>)
    ensures o.Some? ==> o.value in saved && KeyOf(o.value) == k
    ensures o.Some? ==> exists i :: 0 <= i < |saved| && saved[i] == o.value &&
                                    forall j :: i < j < |saved| ==> KeyOf(saved[j]) != k
    ensures o.None? <==> forall i :: 0 <= i < |saved| ==> KeyOf(saved[i]) != k
  {
    if saved == [] then None
    else if KeyOf(saved[|saved| - 1]) == k then Some(saved[|saved| - 1])
    else LastFor(saved[..|saved| - 1], k)
  }

  /**
   * The shallow merge in `load`: a key present in the saved object takes its (last)
   * saved value, and every other key keeps its current value.
   */
  lemma {:induction false} MergeLookup(c: Config, saved: seq<Setting>, k: Key)
    ensures Lookup(Merge(c, saved), k) == match LastFor(saved, k) case Some(s) => s case None => Lookup(c, k)
  {
    if saved != [] {
      MergeLookup(c, saved[..|saved| - 1], k);
    }
  }

  /** Merging an object that holds every key replaces the whole configuration. */
  lemma MergeComplete(c: Config, d: Config)
    ensures Merge(c, [Medicines(d.medicines), IntervalMinutes(d.intervalMinutes),
                      DailySessions(d.dailySessions), SoundEnabled(d.soundEnabled),
                      TodayRecord(d.todayRecord)]) == d
  {
    var saved := [Medicines(d.medicines), IntervalMinutes(d.intervalMinutes),
                  DailySessions(d.dailySessions), SoundEnabled(d.soundEnabled),
                  TodayRecord(d.todayRecord)];
    assert saved[..1][..0] == [] && saved[..2][..1] == saved[..1] && saved[..3][..2] == saved[..2];
    assert saved[..4][..3] == saved[..3] && saved[..4] == saved[..|saved| - 1];
    assert Merge(c, saved[..1]) == c.(medicines := d.medicines);
    assert Merge(c, saved[..2]) == c.(medicines := d.medicines, intervalMinutes := d.intervalMinutes);
    assert Merge(c, saved[..3]) == c.(medicines := d.medicines, intervalMinutes := d.intervalMinutes,
                                      dailySessions := d.dailySessions);
    assert Merge(c, saved[..4]) == c.(medicines := d.medicines, intervalMinutes := d.intervalMinutes,
                                      dailySessions := d.dailySessions, soundEnabled := d.soundEnabled);
  }

  /**
   * `_checkDateReset` on the record: a record for another day becomes `{today, 0}`,
   * and a record for today is kept.
   */
  function RolledOver(r: DailyRecord, today: string): (r': DailyRecord)
    ensures r'.date == today
    ensures r'.completedSessions == if r.date == today then r.completedSessions else 0
  {
    if r.date != today then DailyRecord(today, 0) else r
  }

  /** The roll-over is idempotent, and a record it produced is left alone. */
  lemma RolledOverIdempotent(r: DailyRecord, today: string)
    ensures RolledOver(RolledOver(r, today), today) == RolledOver(r, today)
  {
  }

  class ConfigManager {
    var config: Config
    /** How many times `save()` has been called. */
    ghost var saves: nat

    constructor ()
      ensures config == DefaultConfig && saves == 0
    {
      config := DefaultConfig;
      saves := 0;
    }

    /** `save()`: writes the configuration out; modelled only by counting the calls. */
    method Save()
      modifies this
      ensures config == old(config) && saves == old(saves) + 1
    {
      saves := saves + 1;
    }

    /**
     * `load()`: `saved` is what the main process returned, or `None` when the call
     * failed, in which case nothing changes. Otherwise the saved entries are merged over
     * the current configuration and the date check runs.
     */
    method Load(saved: Option<seq<Setting>>, nowIso: string)
      modifies this
      ensures saved.None? ==> config == old(config) && saves == old(saves)
      ensures saved.Some? ==>
                var merged := Merge(old(config), saved.value);
                config == merged.(todayRecord := RolledOver(merged.todayRecord, Strings.DatePart(nowIso))) &&
                saves == old(saves) + (if merged.todayRecord.date != Strings.DatePart(nowIso) then 1 else 0)
    {
      if saved.None? {
        return;
      }
      config := Merge(config, saved.value);
      CheckDateReset(nowIso);
    }

    /** `_checkDateReset`: a record for another day becomes `{today, 0}` and is saved. */
    method CheckDateReset(nowIso: string)
      modifies this
      ensures config == old(config).(todayRecord := RolledOver(old(config.todayRecord), Strings.DatePart(nowIso)))
      ensures saves == old(saves) + (if old(config.todayRecord.date) != Strings.DatePart(nowIso) then 1 else 0)
    {
      var today := Strings.DatePart(nowIso);
      if config.todayRecord.date != today {
        config := config.(todayRecord := DailyRecord(today, 0));
        Save();
      }
    }

    /**
     * `completeSession`: dates the record today and adds one to its count, without
     * first zeroing the count of a record left over from another day.
     */
    method CompleteSession(nowIso: string)
      modifies this
      ensures config == old(config).(todayRecord :=
                DailyRecord(Strings.DatePart(nowIso), old(config.todayRecord.completedSessions) + 1))
      ensures saves == old(saves) + 1
    {
      var today := Strings.DatePart(nowIso);
      config := config.(todayRecord := config.todayRecord.(date := today));
      config := config.(todayRecord := config.todayRecord.(completedSessions := config.todayRecord.completedSessions + 1));
      Save();
    }

    /** `resetToday`: `{today, 0}` whatever the record held before. */
    method ResetToday(nowIso: string)
      modifies this
      ensures config == old(config).(todayRecord := DailyRecord(Strings.DatePart(nowIso), 0))
      ensures saves == old(saves) + 1
    {
      var today := Strings.DatePart(nowIso);
      config := config.(todayRecord := DailyRecord(today, 0));
      Save();
    }

    /** `getCompletedSessions`: the date check, then today's count (0 for a stale record). */
    method GetCompletedSessions(nowIso: string) returns (n: int)
      modifies this
      ensures config == old(config).(todayRecord := RolledOver(old(config.todayRecord), Strings.DatePart(nowIso)))
      ensures config.todayRecord.date == Strings.DatePart(nowIso)
      ensures n == config.todayRecord.completedSessions
      ensures n == if old(config.todayRecord.date) == Strings.DatePart(nowIso) then old(config.todayRecord.completedSessions) else 0
      ensures saves == old(saves) + (if old(config.todayRecord.date) != Strings.DatePart(nowIso) then 1 else 0)
    {
      CheckDateReset(nowIso);
      n := config.todayRecord.completedSessions;
    }

    /** `getIntervalMs`: the interval in milliseconds, a whole number of minutes. */
    function GetIntervalMs(): (ms: int)
      reads this
      ensures ms % 60000 == 0 && ms / 60000 == config.intervalMinutes
    {
      config.intervalMinutes * 60 * 1000
    }

    /**
     * `getMedicines`: the dose list itself, what the `medicines` key reads (the caller
     * sees and edits the live list).
     */
    function GetMedicines(): (meds: seq<string>)
      reads this
      ensures Lookup(config, MedicinesKey) == Medicines(meds)
    {
      config.medicines
    }

    /** `update(key, value)`: sets that one key; nothing else changes and nothing is saved. */
    method Update(s: Setting)
      modifies this
      ensures config == WithSetting(old(config), s)
      ensures Lookup(config, KeyOf(s)) == s
      ensures forall k :: k != KeyOf(s) ==> Lookup(config, k) == Lookup(old(config), k)
      ensures saves == old(saves)
    {
      config := WithSetting(config, s);
    }
  }

  /** `resetToday` is idempotent: a second call leaves what the first produced. */
  method ResetTodayTwice(m: ConfigManager, nowIso: string)
    modifies m
    ensures m.config == old(m.config).(todayRecord := DailyRecord(Strings.DatePart(nowIso), 0))
  {
    m.ResetToday(nowIso);
    ghost var once := m.config;
    m.ResetToday(nowIso);
    assert m.config == once;
  }

  /** A record left from yesterday reads as 0, not as its stale count. */
  method StaleRecordReadsZero(stale: int, yesterday: string, nowIso: string) returns (shown: int, record: DailyRecord)
    requires yesterday != Strings.DatePart(nowIso)
    ensures shown == 0 && record == DailyRecord(Strings.DatePart(nowIso), 0)
  {
    var m := new ConfigManager();
    m.Update(TodayRecord(DailyRecord(yesterday, stale)));
    shown := m.GetCompletedSessions(nowIso);
    record := m.config.todayRecord;
  }

  /**
   * Completing a session on a record left from yesterday re-dates it but keeps counting
   * from yesterday's number: no date check runs before the increment.
   */
  method StaleCompletionCarriesOver(stale: int, yesterday: string, nowIso: string) returns (record: DailyRecord)
    requires yesterday != Strings.DatePart(nowIso)
    ensures record == DailyRecord(Strings.DatePart(nowIso), stale + 1)
  {
    var m := new ConfigManager();
    m.Update(TodayRecord(DailyRecord(yesterday, stale)));
    m.CompleteSession(nowIso);
    record := m.config.todayRecord;
  }
}
