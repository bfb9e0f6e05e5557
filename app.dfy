/**
 * The session logic of src/js/app.js without its DOM writes: the five-state machine
 * that walks the dose list, the settings list editing, and the `mm:ss` countdown text.
 * The clock reaches it as `now` (milliseconds, for the timer) and `nowIso` (the ISO
 * timestamp whose date part keys the daily record); the settings form reaches it as
 * the values of its input fields.
 */
module Application {
  import Strings
  import Countdown
  import Configuration

  datatype State = Idle | Waiting | Counting | Alert | Complete

  /** What the confirm shortcut does in a state. */
  datatype ShortcutEffect = StartsSession | ConfirmsDrop | ReturnsToIdle | DoesNothing

  /** `handleConfirmShortcut`'s dispatch: each state has exactly one effect. */
  function ShortcutAction(s: State): (e: ShortcutEffect)
    ensures e == StartsSession <==> s == Idle
    ensures e == ConfirmsDrop <==> s == Waiting || s == Alert
    ensures e == ReturnsToIdle <==> s == Complete
    ensures e == DoesNothing <==> s == Counting
  {
    match s
    case Idle => StartsSession
    case Waiting => ConfirmsDrop
    case Alert => ConfirmsDrop
    case Complete => ReturnsToIdle
    case Counting => DoesNothing
  }

  /** The name `_addMedicine` gives a new entry. */
  const NewMedicineName: string := "新药水"

  // ---------------------------------------------------------------------------
  // The countdown text of updateTimerDisplay

  /** `Math.ceil(ms / 1000)`: the whole seconds that cover `ms`. */
  function CeilSeconds(ms: nat): (secs: nat)
    ensures (secs - 1) * 1000 < ms <= secs * 1000
  {
    (ms + 999) / 1000
  }

  /** Minutes and seconds of the covering whole seconds; the seconds stay below 60. */
  function ClockParts(ms: nat): (parts: (nat, nat))
    ensures parts.1 < 60
    ensures parts.0 * 60 + parts.1 == CeilSeconds(ms)
  {
    var total := CeilSeconds(ms);
    (total / 60, total % 60)
  }

  /**
   * `String(n).padStart(2, '0')`: at least two digits, exactly two below 100, reading
   * back as `n`, and with a leading zero only when `n` has a single digit.
   */
  function Numeral(n: nat): (r: string)
    ensures |r| >= 2 && (n < 100 ==> |r| == 2)
    ensures Strings.AllDigits(r) && Strings.DigitsValue(r) == n
    ensures r[0] == '0' <==> n < 10
  {
    Strings.PadStart2(Strings.Decimal(n))
  }

  /** The two numerals joined by a colon: the text splits back into them at its third-last character. */
  function PaddedText(minutes: nat, seconds: nat): (t: string)
    requires seconds < 60
    ensures |t| >= 5 && t[|t| - 3] == ':'
    ensures t[..|t| - 3] == Numeral(minutes) && t[|t| - 2..] == Numeral(seconds)
  {
    var mm, ss := Numeral(minutes), Numeral(seconds);
    var t := mm + ":" + ss;
    assert t[..|t| - 3] == mm && t[|t| - 2..] == ss;
    t
  }

  /**
   * `updateTimerDisplay`'s text: the whole minutes of the covering seconds, a colon, and
   * the seconds left over, each as a numeral of at least two digits.
   */
  function ClockText(ms: nat): (t: string)
    ensures |t| >= 5 && t[|t| - 3] == ':'
    ensures t[..|t| - 3] == Numeral(CeilSeconds(ms) / 60) && t[|t| - 2..] == Numeral(CeilSeconds(ms) % 60)
  {
    PaddedText(CeilSeconds(ms) / 60, CeilSeconds(ms) % 60)
  }

  /** The text reads back as the covering whole seconds, whose seconds field is below 60. */
  lemma ClockTextReadsBack(ms: nat)
    ensures var t := ClockText(ms);
            Strings.DigitsValue(t[..|t| - 3]) * 60 + Strings.DigitsValue(t[|t| - 2..]) == CeilSeconds(ms) &&
            Strings.DigitsValue(t[|t| - 2..]) < 60
  {
    var t := ClockText(ms);
    var parts := ClockParts(ms);
    var mm, ss := t[..|t| - 3], t[|t| - 2..];
    assert mm == Numeral(parts.0) && ss == Numeral(parts.1);
    assert Strings.DigitsValue(mm) == parts.0 && Strings.DigitsValue(ss) == parts.1;
  }

  // ---------------------------------------------------------------------------
  // The settings list

  /** What `_syncMedicineInputsToConfig` keeps for one entry: the trimmed input unless it is blank. */
  function SyncedEntry(name: string, input: string): string {
    var t := Strings.Trim(input);
    if t != [] then t else name
  }

  /** The dose list after copying the input fields (one per entry, in order) into it. */
  function Synced(names: seq<string>, inputs: seq<string>): (r: seq<string>)
    requires |inputs| == |names|
    ensures |r| == |names|
  {
    if names == [] then []
    else Synced(names[..|names| - 1], inputs[..|inputs| - 1]) + [SyncedEntry(names[|names| - 1], inputs[|inputs| - 1])]
  }

  /**
   * Syncing overwrites exactly the entries whose trimmed input is not blank, with that
   * trimmed input, and keeps every other entry and the length.
   */
  lemma {:induction false} SyncedAt(names: seq<string>, inputs: seq<string>, i: int)
    requires |inputs| == |names| && 0 <= i < |names|
    ensures Synced(names, inputs)[i] ==
              if Strings.Trim(inputs[i]) != [] then Strings.Trim(inputs[i]) else names[i]
  {
    var n := |names|;
    if i < n - 1 {
      SyncedAt(names[..n - 1], inputs[..n - 1], i);
    }
  }

  /** Syncing never blanks a name: a list of non-empty names stays one. */
  lemma SyncedKeepsNamesNonEmpty(names: seq<string>, inputs: seq<string>)
    requires |inputs| == |names|
    requires forall i :: 0 <= i < |names| ==> names[i] != []
    ensures forall i :: 0 <= i < |Synced(names, inputs)| ==> Synced(names, inputs)[i] != []
  {
    forall i | 0 <= i < |names| ensures Synced(names, inputs)[i] != [] {
      SyncedAt(names, inputs, i);
    }
  }

  /** The `forEach` of `_syncMedicineInputsToConfig`, writing entries of the list in turn. */
  method SyncNames(names: seq<string>, inputs: seq<string>) returns (r: seq<string>)
    requires |inputs| == |names|
    ensures r == Synced(names, inputs)
  {
    r := names;
    var i := 0;
    while i < |inputs|
      invariant 0 <= i <= |inputs| && |r| == |names|
      invariant forall k :: 0 <= k < i ==> r[k] == SyncedEntry(names[k], inputs[k])
      invariant forall k :: i <= k < |names| ==> r[k] == names[k]
    {
      var value := Strings.Trim(inputs[i]);
      if value != [] {
        r := r[i := value];
      }
      i := i + 1;
    }
    forall k | 0 <= k < |names| ensures r[k] == Synced(names, inputs)[k] {
      SyncedAt(names, inputs, k);
    }
  }

  /** The list `saveSettings` builds: the trimmed inputs that are not blank, in order. */
  function NonBlankTrimmed(inputs: seq<string>): (r: seq<string>)
    ensures |r| <= |inputs|
  {
    if inputs == [] then []
    else
      var front := NonBlankTrimmed(inputs[..|inputs| - 1]);
      var t := Strings.Trim(inputs[|inputs| - 1]);
      if t != [] then front + [t] else front
  }

  /** Every entry of the new list is non-empty and already trimmed. */
  lemma {:induction false} NonBlankTrimmedEntries(inputs: seq<string>)
    ensures forall i :: 0 <= i < |NonBlankTrimmed(inputs)| ==>
              NonBlankTrimmed(inputs)[i] != [] && Strings.Trim(NonBlankTrimmed(inputs)[i]) == NonBlankTrimmed(inputs)[i]
  {
    if inputs != [] {
      NonBlankTrimmedEntries(inputs[..|inputs| - 1]);
      Strings.TrimIdempotent(inputs[|inputs| - 1]);
    }
  }

  /** The new list is empty exactly when every input is blank. */
  lemma {:induction false} NonBlankTrimmedEmpty(inputs: seq<string>)
    ensures NonBlankTrimmed(inputs) == [] <==> forall k :: 0 <= k < |inputs| ==> Strings.Trim(inputs[k]) == []
  {
    if inputs != [] {
      var n := |inputs|;
      NonBlankTrimmedEmpty(inputs[..n - 1]);
      assert forall k :: 0 <= k < n - 1 ==> inputs[..n - 1][k] == inputs[k];
    }
  }

  /** The `forEach` of `saveSettings` that accumulates `newMedicines`. */
  method CollectNames(inputs: seq<string>) returns (names: seq<string>)
    ensures names == NonBlankTrimmed(inputs)
  {
    names := [];
    var i := 0;
    while i < |inputs|
      invariant 0 <= i <= |inputs|
      invariant names == NonBlankTrimmed(inputs[..i])
    {
      assert inputs[..i + 1][..i] == inputs[..i];
      var value := Strings.Trim(inputs[i]);
      if value != [] {
        names := names + [value];
      }
      i := i + 1;
    }
    assert inputs[..i] == inputs;
  }

  /**
   * `splice(start, 1)` on the dose list: removes the one entry at `start` (a negative
   * `start` counts from the end), and nothing when `start` is past the end.
   */
  function Splice1(s: seq<string>, start: int): (r: seq<string>)
    ensures start >= |s| ==> r == s
    ensures start < |s| && s != [] ==> |r| == |s| - 1
    ensures 0 <= start < |s| ==> forall k :: 0 <= k < |r| ==> r[k] == if k < start then s[k] else s[k + 1]
  {
    var at := if start < 0 then (if |s| + start > 0 then |s| + start else 0)
              else if start < |s| then start else |s|;
    var count := if |s| - at < 1 then |s| - at else 1;
    s[..at] + s[at + count..]
  }

  /** The destructuring swap of `_moveMedicine`: the two entries trade places, nothing else moves. */
  function Swap(s: seq<string>, i: int, j: int): (r: seq<string>)
    requires 0 <= i < |s| && 0 <= j < |s|
    ensures |r| == |s| && r[i] == s[j] && r[j] == s[i]
    ensures forall k :: 0 <= k < |s| && k != i && k != j ==> r[k] == s[k]
    ensures multiset(r) == multiset(s)
  {
    s[i := s[j]][j := s[i]]
  }

  // ---------------------------------------------------------------------------
  // The application

  class App {
    var state: State
    var currentMedicineIndex: int
    const timer: Countdown.Timer
    const configManager: Configuration.ConfigManager
    /** How many dose-due alerts (`onTimerComplete`: sound, flash, notification) were raised. */
    ghost var alerts: nat

    /**
     * The invariant every transition keeps: the timer's own, a cursor that never goes
     * negative, and a timer that runs exactly while the machine is counting.
     */
    ghost predicate Valid()
      reads this, timer
    {
      timer.Valid() && 0 <= currentMedicineIndex && (state == Counting <==> timer.isRunning)
    }

    /**
     * The cursor during a session, for a dose list that is not edited meanwhile: at the
     * first dose while waiting, before the last dose while counting, past the first and
     * within the list when alerting.
     */
    ghost predicate CursorInBounds()
      reads this, configManager
    {
      var n := |configManager.config.medicines|;
      (state == Waiting ==> currentMedicineIndex == 0) &&
      (state == Counting ==> currentMedicineIndex < n - 1) &&
      (state == Alert ==> 1 <= currentMedicineIndex < n)
    }

    constructor ()
      ensures Valid() && CursorInBounds()
      ensures state == Idle && currentMedicineIndex == 0 && alerts == 0
      ensures fresh(timer) && fresh(configManager)
      ensures configManager.config == Configuration.DefaultConfig && configManager.saves == 0
      ensures !timer.isRunning && !timer.framePending && timer.completions == 0
    {
      state := Idle;
      currentMedicineIndex := 0;
      timer := new Countdown.Timer();
      configManager := new Configuration.ConfigManager();
      alerts := 0;
    }

    /** `startSession`: back to the first dose, waiting for it to be given. */
    method StartSession()
      requires Valid() && state != Counting
      modifies this
      ensures Valid() && CursorInBounds()
      ensures state == Waiting && currentMedicineIndex == 0 && alerts == old(alerts)
    {
      currentMedicineIndex := 0;
      state := Waiting;
    }

    /**
     * `confirmDrop`: after the last dose the session is complete and counted once;
     * before it, the interval countdown starts at `now`. Its first tick reads the clock
     * again at `tickNow`; a countdown whose deadline has already passed then (always one
     * of no time when `tickNow >= now`) completes on that tick, which raises the next dose's alert at once.
     */
    method ConfirmDrop(now: int, tickNow: int, nowIso: string)
      requires Valid() && state != Counting
      modifies this, timer, configManager
      ensures Valid() && CursorInBounds()
      ensures configManager.config.medicines == old(configManager.config.medicines)
      ensures configManager.saves == old(configManager.saves) +
                (if old(currentMedicineIndex) >= |old(configManager.config.medicines)| - 1 then 1 else 0)
      ensures old(currentMedicineIndex) >= |old(configManager.config.medicines)| - 1 ==>
                state == Complete && currentMedicineIndex == old(currentMedicineIndex) &&
                alerts == old(alerts) && unchanged(timer) &&
                configManager.config == old(configManager.config).(todayRecord :=
                  Configuration.DailyRecord(Strings.DatePart(nowIso),
                                            old(configManager.config.todayRecord.completedSessions) + 1))
      ensures old(currentMedicineIndex) < |old(configManager.config.medicines)| - 1 ==>
                configManager.config == old(configManager.config) &&
                timer.duration == old(configManager.GetIntervalMs()) && timer.startTime == now &&
                timer.remaining == Countdown.RemainingAt(timer.duration, now, tickNow) &&
                if timer.remaining > 0 then
                  state == Counting && currentMedicineIndex == old(currentMedicineIndex) &&
                  alerts == old(alerts) && timer.framePending
                else
                  state == Alert && currentMedicineIndex == old(currentMedicineIndex) + 1 &&
                  alerts == old(alerts) + 1
    {
      var medicines := configManager.GetMedicines();
      var isLastMedicine := currentMedicineIndex >= |medicines| - 1;
      if isLastMedicine {
        configManager.CompleteSession(nowIso);
        state := Complete;
        return;
      }
      state := Counting;
      var intervalMs := configManager.GetIntervalMs();
      var completed := timer.Start(intervalMs, now, tickNow);
      if completed {
        OnTimerComplete();
      }
    }

    /** `onTimerComplete`, the timer's `onComplete`: on to the next dose, and alert it. */
    method OnTimerComplete()
      requires state == Counting && timer.Valid() && !timer.isRunning && 0 <= currentMedicineIndex
      modifies this
      ensures Valid()
      ensures old(CursorInBounds()) ==> CursorInBounds()
      ensures state == Alert && currentMedicineIndex == old(currentMedicineIndex) + 1
      ensures alerts == old(alerts) + 1
    {
      currentMedicineIndex := currentMedicineIndex + 1;
      state := Alert;
      alerts := alerts + 1;
    }

    /**
     * One animation frame of the countdown: the tick, whose `onTick` receives the time
     * left (shown as `ClockText(shown)`), and whose completion raises the next dose's alert.
     */
    method TimerFrame(now: int) returns (shown: int)
      requires Valid() && timer.framePending
      modifies this, timer
      ensures Valid()
      ensures old(CursorInBounds()) ==> CursorInBounds()
      ensures timer.remaining == Countdown.RemainingAt(old(timer.duration), old(timer.startTime), now)
      ensures shown == timer.remaining && shown >= 0
      ensures timer.duration == old(timer.duration) && timer.startTime == old(timer.startTime)
      ensures timer.pausedRemaining == old(timer.pausedRemaining)
      ensures timer.remaining == 0 ==>
                state == Alert && currentMedicineIndex == old(currentMedicineIndex) + 1 &&
                alerts == old(alerts) + 1 && !timer.framePending
      ensures timer.remaining > 0 ==>
                state == Counting && currentMedicineIndex == old(currentMedicineIndex) &&
                alerts == old(alerts) && timer.framePending
    {
      var completed := timer.Tick(now);
      shown := timer.remaining;
      if completed {
        OnTimerComplete();
      }
    }

    /**
     * `togglePause`: resumes a paused countdown, and otherwise pauses it (a no-op when
     * stopped). The resume restarts the countdown at `now` and ticks at `tickNow`; when
     * the clock has already passed the new deadline that tick completes the countdown and
     * `onComplete` raises the next dose's alert.
     */
    method TogglePause(now: int, tickNow: int)
      requires Valid()
      modifies this, timer
      ensures Valid() && (old(CursorInBounds()) ==> CursorInBounds())
      ensures timer.pausedRemaining == (if !old(timer.isPaused) && old(timer.isRunning)
                                        then old(timer.remaining) else old(timer.pausedRemaining))
      ensures old(timer.isPaused) ==>
                !timer.isPaused && timer.startTime == now && timer.duration == old(timer.pausedRemaining) &&
                timer.remaining == Countdown.RemainingAt(old(timer.pausedRemaining), now, tickNow) &&
                if timer.remaining > 0 then
                  state == Counting && currentMedicineIndex == old(currentMedicineIndex) &&
                  alerts == old(alerts) && timer.completions == old(timer.completions) &&
                  timer.isRunning && timer.framePending
                else
                  state == Alert && currentMedicineIndex == old(currentMedicineIndex) + 1 &&
                  alerts == old(alerts) + 1 && timer.completions == old(timer.completions) + 1 &&
                  !timer.isRunning && !timer.framePending
      ensures !old(timer.isPaused) ==>
                state == old(state) && currentMedicineIndex == old(currentMedicineIndex) &&
                alerts == old(alerts) && timer.completions == old(timer.completions) &&
                timer.isRunning == old(timer.isRunning) && timer.remaining == old(timer.remaining) &&
                timer.duration == old(timer.duration) && timer.startTime == old(timer.startTime)
      ensures !old(timer.isPaused) && old(timer.isRunning) ==> timer.isPaused && !timer.framePending
      ensures !old(timer.isRunning) ==>
                !timer.isPaused && timer.framePending == old(timer.framePending)
    {
      if timer.isPaused {
        var completed := timer.Resume(now, tickNow);
        if completed {
          OnTimerComplete();
        }
      } else {
        timer.Pause();
      }
    }

    /** `backToIdle`: stops the timer, goes idle, and reads today's count for the idle view. */
    method BackToIdle(nowIso: string) returns (completedToday: int)
      requires Valid()
      modifies this, timer, configManager
      ensures Valid() && CursorInBounds()
      ensures state == Idle && currentMedicineIndex == old(currentMedicineIndex) && alerts == old(alerts)
      ensures !timer.isRunning && !timer.isPaused && !timer.framePending && timer.remaining == 0
      ensures configManager.config == old(configManager.config).(todayRecord :=
                Configuration.RolledOver(old(configManager.config.todayRecord), Strings.DatePart(nowIso)))
      ensures configManager.saves == old(configManager.saves) +
                (if old(configManager.config.todayRecord.date) != Strings.DatePart(nowIso) then 1 else 0)
      ensures completedToday == configManager.config.todayRecord.completedSessions
    {
      timer.Reset();
      state := Idle;
      completedToday := configManager.GetCompletedSessions(nowIso);
    }

    /**
     * `handleConfirmShortcut`: the shortcut does what `ShortcutAction` says for the
     * current state, with that operation's whole effect.
     */
    method HandleConfirmShortcut(now: int, tickNow: int, nowIso: string)
      requires Valid()
      modifies this, timer, configManager
      ensures Valid() && (old(CursorInBounds()) ==> CursorInBounds())
      ensures old(state) == Idle ==>
                state == Waiting && currentMedicineIndex == 0 && alerts == old(alerts) &&
                unchanged(timer) && configManager.config == old(configManager.config)
      ensures old(state) == Waiting || old(state) == Alert ==>
                configManager.config.medicines == old(configManager.config.medicines)
      ensures configManager.saves == old(configManager.saves) +
                (if (old(state) == Waiting || old(state) == Alert) &&
                    old(currentMedicineIndex) >= |old(configManager.config.medicines)| - 1 then 1
                 else if old(state) == Complete &&
                         old(configManager.config.todayRecord.date) != Strings.DatePart(nowIso) then 1
                 else 0)
      ensures (old(state) == Waiting || old(state) == Alert) &&
              old(currentMedicineIndex) >= |old(configManager.config.medicines)| - 1 ==>
                state == Complete && currentMedicineIndex == old(currentMedicineIndex) &&
                alerts == old(alerts) && unchanged(timer) &&
                configManager.config == old(configManager.config).(todayRecord :=
                  Configuration.DailyRecord(Strings.DatePart(nowIso),
                                            old(configManager.config.todayRecord.completedSessions) + 1))
      ensures (old(state) == Waiting || old(state) == Alert) &&
              old(currentMedicineIndex) < |old(configManager.config.medicines)| - 1 ==>
                configManager.config == old(configManager.config) &&
                timer.duration == old(configManager.GetIntervalMs()) && timer.startTime == now &&
                timer.remaining == Countdown.RemainingAt(timer.duration, now, tickNow) &&
                if timer.remaining > 0 then
                  state == Counting && currentMedicineIndex == old(currentMedicineIndex) &&
                  alerts == old(alerts) && timer.framePending
                else
                  state == Alert && currentMedicineIndex == old(currentMedicineIndex) + 1 &&
                  alerts == old(alerts) + 1
      ensures old(state) == Complete ==>
                state == Idle && currentMedicineIndex == old(currentMedicineIndex) && alerts == old(alerts) &&
                !timer.isRunning && !timer.isPaused && !timer.framePending && timer.remaining == 0 &&
                configManager.config == old(configManager.config).(todayRecord :=
                  Configuration.RolledOver(old(configManager.config.todayRecord), Strings.DatePart(nowIso)))
      ensures old(state) == Counting ==>
                unchanged(this, timer) && configManager.config == old(configManager.config)
    {
      match ShortcutAction(state)
      case StartsSession =>
        StartSession();
      case ConfirmsDrop =>
        ConfirmDrop(now, tickNow, nowIso);
      case ReturnsToIdle =>
        var _ := BackToIdle(nowIso);
      case DoesNothing =>
    }

    /** The reset-today button: zeroes today's record, stops the timer and goes idle. */
    method ResetTodayClicked(nowIso: string) returns (completedToday: int)
      requires Valid()
      modifies this, timer, configManager
      ensures Valid() && CursorInBounds()
      ensures state == Idle && currentMedicineIndex == old(currentMedicineIndex)
      ensures !timer.isRunning && !timer.isPaused && timer.remaining == 0
      ensures configManager.config == old(configManager.config).(todayRecord :=
                Configuration.DailyRecord(Strings.DatePart(nowIso), 0))
      ensures completedToday == 0
      ensures alerts == old(alerts)
      ensures configManager.saves == old(configManager.saves) + 1
    {
      configManager.ResetToday(nowIso);
      timer.Reset();
      state := Idle;
      completedToday := configManager.GetCompletedSessions(nowIso);
    }

    /**
     * `saveSettings`: takes the slider's interval and the sound switch, replaces the dose
     * list by the non-blank trimmed inputs unless all are blank, saves, then stops the
     * timer and goes idle whatever the session was doing.
     */
    method SaveSettings(sliderMinutes: int, soundChecked: bool, inputs: seq<string>, nowIso: string)
      returns (completedToday: int)
      requires Valid()
      modifies this, timer, configManager
      ensures Valid() && CursorInBounds()
      ensures state == Idle && currentMedicineIndex == old(currentMedicineIndex)
      ensures !timer.isRunning && !timer.isPaused && timer.remaining == 0
      ensures configManager.config ==
                old(configManager.config).(
                  intervalMinutes := sliderMinutes,
                  soundEnabled := soundChecked,
                  medicines := if NonBlankTrimmed(inputs) != [] then NonBlankTrimmed(inputs)
                               else old(configManager.config.medicines),
                  todayRecord := Configuration.RolledOver(old(configManager.config.todayRecord), Strings.DatePart(nowIso)))
      ensures old(configManager.config.medicines) != [] ==> configManager.config.medicines != []
      ensures (forall i :: 0 <= i < |old(configManager.config.medicines)| ==> old(configManager.config.medicines)[i] != []) ==>
                forall i :: 0 <= i < |configManager.config.medicines| ==> configManager.config.medicines[i] != []
      ensures configManager.saves == old(configManager.saves) + 1 +
                (if old(configManager.config.todayRecord.date) != Strings.DatePart(nowIso) then 1 else 0)
      ensures completedToday == configManager.config.todayRecord.completedSessions
      ensures alerts == old(alerts)
    {
      configManager.config := configManager.config.(intervalMinutes := sliderMinutes);
      configManager.config := configManager.config.(soundEnabled := soundChecked);
      var newMedicines := CollectNames(inputs);
      NonBlankTrimmedEntries(inputs);
      if |newMedicines| > 0 {
        configManager.config := configManager.config.(medicines := newMedicines);
      }
      configManager.Save();
      timer.Reset();
      state := Idle;
      completedToday := configManager.GetCompletedSessions(nowIso);
    }

    /** `_syncMedicineInputsToConfig`: copies the non-blank trimmed input fields into the list. */
    method SyncMedicineInputsToConfig(inputs: seq<string>)
      requires |inputs| == |configManager.config.medicines|
      modifies configManager
      ensures configManager.config ==
                old(configManager.config).(medicines := Synced(old(configManager.config.medicines), inputs))
      ensures configManager.saves == old(configManager.saves)
    {
      var names := SyncNames(configManager.config.medicines, inputs);
      configManager.config := configManager.config.(medicines := names);
    }

    /** `_addMedicine`: syncs the inputs, then appends the placeholder name. */
    method AddMedicine(inputs: seq<string>)
      requires |inputs| == |configManager.config.medicines|
      modifies configManager
      ensures configManager.config.medicines ==
                Synced(old(configManager.config.medicines), inputs) + [NewMedicineName]
      ensures |configManager.config.medicines| == |old(configManager.config.medicines)| + 1
      ensures configManager.config.(medicines := []) == old(configManager.config).(medicines := [])
      ensures configManager.saves == old(configManager.saves)
    {
      SyncMedicineInputsToConfig(inputs);
      configManager.config := configManager.config.(medicines := configManager.config.medicines + [NewMedicineName]);
    }

    /**
     * `_removeMedicine`: refuses to remove the only entry; otherwise syncs the inputs and
     * splices out the entry at `index`. The list never drops below one entry.
     */
    method RemoveMedicine(index: int, inputs: seq<string>)
      requires |inputs| == |configManager.config.medicines|
      modifies configManager
      ensures |old(configManager.config.medicines)| <= 1 ==> configManager.config == old(configManager.config)
      ensures |old(configManager.config.medicines)| > 1 ==>
                configManager.config.medicines == Splice1(Synced(old(configManager.config.medicines), inputs), index)
      ensures |old(configManager.config.medicines)| >= 1 ==> |configManager.config.medicines| >= 1
      ensures configManager.config.(medicines := []) == old(configManager.config).(medicines := [])
      ensures configManager.saves == old(configManager.saves)
    {
      if |configManager.config.medicines| <= 1 {
        return;
      }
      SyncMedicineInputsToConfig(inputs);
      configManager.config := configManager.config.(medicines := Splice1(configManager.config.medicines, index));
    }

    /**
     * `_moveMedicine`: when `index + direction` is inside the list, syncs the inputs and
     * swaps the two entries; otherwise nothing changes. The names are only reordered.
     */
    method MoveMedicine(index: int, direction: int, inputs: seq<string>)
      requires 0 <= index < |configManager.config.medicines|
      requires |inputs| == |configManager.config.medicines|
      modifies configManager
      ensures 0 <= index + direction < |old(configManager.config.medicines)| ==>
                configManager.config == old(configManager.config).(medicines :=
                  Swap(Synced(old(configManager.config.medicines), inputs), index, index + direction))
      ensures !(0 <= index + direction < |old(configManager.config.medicines)|) ==>
                configManager.config == old(configManager.config)
      ensures configManager.saves == old(configManager.saves)
    {
      var medicines := configManager.config.medicines;
      var newIndex := index + direction;
      if newIndex < 0 || newIndex >= |medicines| {
        return;
      }
      SyncMedicineInputsToConfig(inputs);
      configManager.config := configManager.config.(medicines := Swap(configManager.config.medicines, index, newIndex));
    }
  }

  /**
   * One dose in the middle of a session: its confirmation starts the interval countdown;
   * a frame at `mid`, before the deadline, shows the time left until that deadline, and
   * the first frame at or after it raises the next dose's alert.
   */
  method DoseStep(app: App, now: int, mid: int, later: int, nowIso: string) returns (midShown: int)
    requires app.Valid() && app.state != Counting
    requires app.currentMedicineIndex < |app.configManager.config.medicines| - 1
    requires app.configManager.config.intervalMinutes > 0
    requires now <= mid < now + app.configManager.GetIntervalMs() <= later
    modifies app, app.timer, app.configManager
    ensures midShown == now + old(app.configManager.GetIntervalMs()) - mid
    ensures app.Valid() && app.state == Alert
    ensures app.currentMedicineIndex == old(app.currentMedicineIndex) + 1
    ensures app.alerts == old(app.alerts) + 1
    ensures app.configManager.config == old(app.configManager.config)
  {
    app.ConfirmDrop(now, now, nowIso);
    midShown := app.TimerFrame(mid);
    var shown := app.TimerFrame(later);
  }

  /**
   * A whole session with the default configuration (four doses, five minutes): each
   * countdown is seen by a frame one second in, which shows 299000 ms left, and by one
   * frame after its deadline; the fourth confirmation
   * completes the session and counts it once, and going back to idle leaves the cursor
   * on the last dose.
   */
  method DefaultSession(t0: int, nowIso: string)
    returns (early: seq<int>, finished: State, completed: int, idle: State, cursor: int)
    ensures early == [299000, 299000, 299000]
    ensures finished == Complete && completed == 1
    ensures idle == Idle && cursor == 3
  {
    var app := new App();
    assert |app.configManager.config.medicines| == 4;
    app.StartSession();
    var m1 := DoseStep(app, t0, t0 + 1000, t0 + 300000, nowIso);
    var m2 := DoseStep(app, t0 + 310000, t0 + 311000, t0 + 700000, nowIso);
    var m3 := DoseStep(app, t0 + 710000, t0 + 711000, t0 + 1010000, nowIso);
    early := [m1, m2, m3];
    app.ConfirmDrop(t0 + 1020000, t0 + 1020000, nowIso);
    finished := app.state;
    completed := app.configManager.config.todayRecord.completedSessions;
    var shown := app.BackToIdle(nowIso);
    idle := app.state;
    cursor := app.currentMedicineIndex;
  }
}
