# Interval timer: a verified model of the eye-drop session core

Interval-timer is a small Electron desktop app that walks its user through a course of
eye drops. The user gives the first dose and confirms it. The app then counts down a fixed
interval (five minutes by default) and raises an alert for the next dose: a sound, a
flashing taskbar and a system notification. This repeats until the last dose, which
completes the session and adds one to a count of sessions completed today.

This project models the renderer's core in Dafny, in four modules:

- `Countdown` (timer.dfy) is the drift-corrected countdown of `src/js/timer.js`.
  - It is a `Timer` class over integer milliseconds.
  - The remaining time is recomputed from the absolute start time at every tick.
  - The field `framePending` stands for the scheduled animation-frame callback.
  - A ghost counter records how often `onComplete` fired.
- `Configuration` (config.dfy) is the `ConfigManager` of `src/js/config.js`.
  - The configuration object is a datatype.
  - The object loaded from disk is a sequence of key/value settings merged over the current one.
  - The daily record rolls over lazily when the calendar date changes.
  - A ghost counter records the calls to `save()`.
- `Application` (app.dfy) is the `App` class of `src/js/app.js`.
  - It holds the five-state session machine Idle → Waiting → Counting → Alert → … → Complete.
  - It holds the keyboard shortcut dispatch, the reset-today and save-settings handlers, and the dose-list edits of the settings form.
  - It holds the `mm:ss` text of the countdown display.
- `Strings` (strings.dfy) holds the JavaScript string built-ins the code relies on: `trim`, `split('T')[0]`, `String(n)` and `padStart(2, '0')`.

The clock is a parameter:

- `now` is the value of `Date.now()` in milliseconds;
- `tickNow` is a second reading of `Date.now()`, taken by the immediate tick that `start` and `resume` run after setting the start time;
- `nowIso` is the value of `new Date().toISOString()`.

The settings form is the list of its input values.

In five places the code does less than one might expect, and the model follows the code:

- `timer.start` does not validate its argument. A duration of zero or less is not rejected; it completes on the first tick when the tick's clock reading is not earlier than the start's (`Countdown.Timer.Start`).
- `backToIdle` does not reset the dose cursor. After a full default session it stays on the last dose (`Application.DefaultSession` proves `cursor == 3`). Only `startSession` sets it back to 0.
- `completeSession` runs no date check before its increment. A record left from an earlier day is re-dated, and counting continues from the old number (`Configuration.StaleCompletionCarriesOver`).
- The list edits never clamp the cursor. The app does not stop them while a session runs. So the cursor bounds (`CursorInBounds`) are kept only while the list is not edited.
- Confirming at or past the last index completes the session; nothing fails.

## Model

| member | source | states |
|---|---|---|
| Strings.Trim | src/js/app.js:518 | `trim()` gives the empty string exactly when every character is ECMAScript whitespace; otherwise neither end of the result is whitespace |
| Strings.TrimIsSlice | src/js/app.js:562 | the trimmed value is a contiguous slice of the input, and everything outside it is whitespace |
| Strings.TrimIdempotent | src/js/app.js:562-563 | trimming an already trimmed name leaves it unchanged |
| Strings.DatePart | src/js/config.js:45 | `split('T')[0]` is a prefix of the timestamp without any 'T', ending exactly at the first 'T' when there is one |
| Strings.Decimal | src/js/app.js:236 | `String(n)` is a non-empty digit string that reads back as `n`, has no leading zero, is one digit exactly below 10 and at most two below 100 |
| Strings.LeadingZero | src/js/app.js:236 | a leading zero keeps a numeral a numeral and does not change its value |
| Strings.PadStart2 | src/js/app.js:236 | the result has length max(len, 2), keeps the string as its suffix, is padded with zeros only, and keeps a numeral's value |
| Countdown.RemainingAt | src/js/timer.js:83-84 | the remaining time is never negative; it is 0 exactly when the deadline `startTime + duration` has passed; otherwise now + remaining is the deadline; when now >= startTime and duration >= 0 it never exceeds the duration |
| Countdown.RemainingNonIncreasing | src/js/timer.js:83-84 | a later tick never sees more time left |
| Countdown.ProgressOf | src/js/timer.js:74-77 | progress is 0 for a zero duration, and otherwise the used-up fraction: progress × duration = duration − remaining |
| Countdown.ProgressInUnitInterval | src/js/timer.js:74-77 | progress lies in [0, 1] whenever the remaining time lies in [0, duration] |
| Countdown.ProgressMonotone | src/js/timer.js:74-84 | for a positive duration, between ticks of one countdown progress never goes back, and it is exactly 1 once the deadline has passed |
| Countdown.Timer.constructor | src/js/timer.js:6-18 | all times are zero; the timer is neither running nor paused; no frame is scheduled |
| Countdown.Timer.Tick | src/js/timer.js:82-99 | the remaining time is recomputed from the timestamps alone; it completes exactly when the deadline has passed, then stops, fires `onComplete` once and schedules nothing; otherwise it schedules the next frame |
| Countdown.Timer.Start | src/js/timer.js:24-31 | a new countdown of `d` from `now` followed by one tick at `tickNow`, which computes the remaining time from the two readings and completes the countdown exactly when its deadline has passed, so always when `d <= 0` and the tick's clock reading is not earlier than the start's; when both readings agree it completes exactly when `d <= 0`; the timer invariant holds |
| Countdown.Timer.Pause | src/js/timer.js:36-44 | a running, unpaused timer freezes the last tick's remaining time and its frame is cancelled; otherwise nothing changes |
| Countdown.Timer.Resume | src/js/timer.js:49-56 | a paused timer restarts from `now` with the frozen remainder as its duration, and its tick at `tickNow` completes it exactly when that new deadline has passed; when both readings agree it keeps the frozen remainder and schedules a frame; a timer that is not paused is left alone |
| Countdown.Timer.Reset | src/js/timer.js:61-69 | the timer stops, un-pauses, has 0 left and no frame; the duration and start time are kept |
| Countdown.Timer.GetProgress | src/js/timer.js:74-77 | the progress of the current fields, in [0, 1] while remaining is in [0, duration] |
| Countdown.ResetTwice | src/js/timer.js:61-69 | the state after a second reset is the state after the first: stopped, unpaused, no time left, no frame, duration and start time kept |
| Countdown.PauseResumeRoundTrip | src/js/timer.js:36-56 | a pause followed by a resume at any later time restarts the countdown with the remaining time of the last tick before the pause as its duration; it loses only the time between the resume's two clock readings, and none when they agree, in which case the countdown is still running |
| Countdown.StarvedCountdown | src/js/timer.js:82-99 | a 300000 ms countdown seen by only two frames, one early and one late, completes on the late frame with 0 left; `onComplete` has fired exactly once and no frame is pending |
| Countdown.StartZero | src/js/timer.js:24-31 | `start(0)` completes on its first tick when the tick's clock reading is not earlier than the start's, and the progress is then 0 |
| Configuration.WithSetting | src/js/config.js:96-98 | `config[key] = value` makes the key read back the new value and leaves every other key unchanged |
| Configuration.Merge | src/js/config.js:22 | the shallow merge: the last saved entry is what its key reads, and a key that no saved entry names keeps its current value |
| Configuration.LastFor | src/js/config.js:22 | the saved entry for a key at a position after which no entry has that key, when there is one; none exactly when no entry has that key |
| Configuration.MergeLookup | src/js/config.js:22 | after the shallow merge, a key with a saved entry reads its last saved value; every other key keeps its current value |
| Configuration.MergeComplete | src/js/config.js:22 | merging a saved object that holds every key gives exactly that object |
| Configuration.RolledOver | src/js/config.js:44-50 | the record is dated today; its count is kept exactly when it was already today's, and is 0 otherwise |
| Configuration.RolledOverIdempotent | src/js/config.js:44-50 | a second day check changes nothing |
| Configuration.ConfigManager.constructor | src/js/config.js:6-14 | starts from the four default eye drops, 5 minutes, 4 sessions a day, sound on and an empty record |
| Configuration.ConfigManager.Save | src/js/config.js:33-39 | saving counts one write and changes nothing in memory |
| Configuration.ConfigManager.Load | src/js/config.js:19-28 | a failed load changes nothing and saves nothing; otherwise the saved entries are merged over the configuration and the day check runs on the result, saving exactly when the merged record is from another day |
| Configuration.ConfigManager.CheckDateReset | src/js/config.js:44-50 | a record for another day becomes `{today, 0}` and is saved exactly then; nothing else changes |
| Configuration.ConfigManager.CompleteSession | src/js/config.js:55-60 | the record is dated today and its count grows by exactly one from its old value; saved once |
| Configuration.ConfigManager.ResetToday | src/js/config.js:65-69 | the record becomes `{today, 0}` whatever it held; saved once |
| Configuration.ConfigManager.GetCompletedSessions | src/js/config.js:74-77 | returns today's count, which is 0 for a stale record; afterwards the record is dated today |
| Configuration.ConfigManager.GetIntervalMs | src/js/config.js:82-84 | the interval in milliseconds is a whole number of minutes, namely `intervalMinutes` |
| Configuration.ConfigManager.GetMedicines | src/js/config.js:89-91 | the dose list is what the `medicines` key of the live configuration reads |
| Configuration.ConfigManager.Update | src/js/config.js:96-98 | sets one key, keeps every other key, saves nothing |
| Configuration.ResetTodayTwice | src/js/config.js:65-69 | resetting today twice gives the same record as once |
| Configuration.StaleRecordReadsZero | src/js/config.js:74-77 | a record from another day reads as 0, not its stale count, and is replaced by `{today, 0}` |
| Configuration.StaleCompletionCarriesOver | src/js/config.js:55-60 | completing on a record from another day gives `{today, stale + 1}` |
| Application.ShortcutAction | src/js/app.js:201-216 | the confirm shortcut starts a session exactly in Idle, confirms a dose exactly in Waiting or Alert, returns to idle exactly in Complete, and does nothing exactly while counting |
| Application.CeilSeconds | src/js/app.js:233 | the whole seconds covering the milliseconds: (secs − 1) × 1000 < ms ≤ secs × 1000 |
| Application.ClockParts | src/js/app.js:233-235 | the displayed seconds are below 60, and minutes × 60 + seconds is the covering whole seconds |
| Application.Numeral | src/js/app.js:236 | `String(n).padStart(2, '0')` is a digit string of at least two digits, exactly two below 100, that reads back as `n` and starts with a zero exactly when `n` is below 10 |
| Application.PaddedText | src/js/app.js:236 | the display text splits at its third-last character, a colon, into the numeral of the minutes and the two-digit numeral of the seconds |
| Application.ClockText | src/js/app.js:232-236 | the countdown text is the numeral of the whole minutes of the covering seconds, a colon, and the numeral of the seconds left over |
| Application.ClockTextReadsBack | src/js/app.js:232-236 | reading the text's two fields back gives minutes × 60 + seconds = the covering whole seconds, with the seconds field below 60 |
| Application.Synced | src/js/app.js:514-521 | the list `_syncMedicineInputsToConfig` writes, built entry by entry from the input fields (one per entry, as the form renders them); it keeps the list's length |
| Application.SyncedAt | src/js/app.js:514-522 | syncing overwrites exactly the entries whose trimmed input is not blank, with that trimmed input, and keeps the others |
| Application.SyncedKeepsNamesNonEmpty | src/js/app.js:514-522 | syncing never turns a non-empty name into an empty one |
| Application.SyncNames | src/js/app.js:515-521 | the in-place loop over the input fields computes the synced list |
| Application.NonBlankTrimmed | src/js/app.js:559-564 | the list `saveSettings` collects: the trimmed inputs that are not blank, in order, never more than there are inputs |
| Application.NonBlankTrimmedEntries | src/js/app.js:559-564 | every name collected by `saveSettings` is non-empty and already trimmed |
| Application.NonBlankTrimmedEmpty | src/js/app.js:559-567 | the collected list is empty exactly when every input is blank, which is when the old list is kept |
| Application.CollectNames | src/js/app.js:559-564 | the accumulating loop computes the list of non-blank trimmed inputs, in order |
| Application.Splice1 | src/js/app.js:534 | `splice(start, 1)` removes exactly the entry at `start` and shifts the rest down; a start past the end removes nothing |
| Application.Swap | src/js/app.js:545 | the destructuring swap exchanges the two entries, keeps every other entry, and is a permutation |
| Application.App.constructor | src/js/app.js:21-25 | idle at dose 0, with a fresh timer and a default configuration |
| Application.App.StartSession | src/js/app.js:294-299 | the cursor goes back to the first dose, and the state is Waiting |
| Application.App.ConfirmDrop | src/js/app.js:304-325 | at or past the last dose: Complete, counted once and saved once, timer untouched; before it: a countdown of exactly the interval from `now`, whose first tick at `tickNow` leaves the machine Counting while time is left, and otherwise raises the next dose's alert at once; nothing is saved; the invariants hold |
| Application.App.OnTimerComplete | src/js/app.js:330-346 | the cursor moves on by exactly one, the state is Alert, and one alert is raised |
| Application.App.TimerFrame | src/js/app.js:222-230 | one frame: the tick's remaining time goes to the display; at 0 the next dose's alert is raised and no frame follows; otherwise the machine keeps counting; the countdown's duration, start time and frozen remainder are kept, so every frame measures against the same deadline |
| Application.App.TogglePause | src/js/app.js:351-359 | a paused timer resumes from `now` with its frozen remainder, and its tick at `tickNow` either keeps counting or completes and raises the next dose's alert; a running one pauses with its remaining time frozen and its duration, start time and completion count kept and no frame pending; a stopped one is left alone |
| Application.App.BackToIdle | src/js/app.js:364-369 | the timer stops; the state is Idle with the cursor kept; the idle view reads today's count after the day check, which saves exactly when the record was from another day |
| Application.App.HandleConfirmShortcut | src/js/app.js:201-216 | in Idle the session starts; in Waiting or Alert the whole effect of confirming the dose happens, as for `ConfirmDrop`; in Complete the whole effect of going back to idle happens, as for `BackToIdle`; the saves are those of the operation dispatched to; while counting nothing changes |
| Application.App.ResetTodayClicked | src/js/app.js:167-173 | today's record becomes `{today, 0}`, the timer stops, the state is Idle, and the idle view shows 0 |
| Application.App.SaveSettings | src/js/app.js:549-576 | stores the slider interval and the sound switch; replaces the dose list by the non-blank trimmed inputs unless all are blank; saves once, and once more exactly when the day check rolls the record over; stops the timer and goes idle; a non-empty list of non-empty names stays one |
| Application.App.SyncMedicineInputsToConfig | src/js/app.js:514-522 | the dose list becomes the synced list; nothing else changes and nothing is saved |
| Application.App.AddMedicine | src/js/app.js:524-529 | the synced list with the placeholder name appended, one longer; the rest of the configuration is unchanged |
| Application.App.RemoveMedicine | src/js/app.js:531-537 | an only entry is never removed; otherwise the entry at `index` is spliced out of the synced list; the list never drops below one entry |
| Application.App.MoveMedicine | src/js/app.js:539-547 | a target inside the list swaps the two entries of the synced list; otherwise nothing changes |
| Application.DoseStep | src/js/app.js:304-346 | confirming a dose before the last, then a frame before the deadline, which shows the time left until that deadline, then one frame at or after the deadline, raises exactly one alert, for the next dose, with the cursor one further and the configuration unchanged |
| Application.DefaultSession | src/js/app.js:294-369 | a full default session shows 299000 ms left one second into each of its three countdowns, ends Complete with the day's count at 1; going back to idle leaves the cursor on the last dose, index 3 |

## Left out

- main.js and preload.js are not part of this model: the main process, the window, tray and always-on-top handling, the config file on disk and the IPC bridge. `save()` is a counter of calls, and `load()` receives the main process's answer as a parameter.
- DOM writes, view updates, window resizing, sound, taskbar flashing and system notifications are not modelled. An alert is a ghost counter, and the display's `mm:ss` text is `ClockText`.
- The progress ring's stroke offset is a floating-point SVG length; only the progress value is modelled, as a real number.
- Asynchrony is not modelled: `async`/`await`, promise rejections of `save()`, and the animation-frame scheduler. A frame is an explicit `Tick`/`TimerFrame` call, made while `framePending` holds.
- `settingsVisible`, `toggleSettings`, the Space/Escape key handler and the settings-back button are not modelled; the back button is a `load()` followed by a DOM toggle.
- `init()` and the pin state are not modelled; they are a `load()`, DOM setup and IPC.
- Configuration values of the wrong JavaScript type are not modelled, nor keys other than the five known ones (such as `windowPosition`). The loaded object is a sequence of typed settings.
- Countdown.Timer.Start: requires that no frame is pending. Starting over a live loop would leave two loops running. The app never does this: it starts the timer only when not counting.
- Application.App.MoveMedicine: requires that `index` is inside the list. The buttons that call it are rendered one per entry.
- List edits made through the settings form while a session runs are allowed, but `CursorInBounds` is then not guaranteed to survive them.
- Application.App.ConfirmDrop: the complete view's `getCompletedSessions` read right after `completeSession` is not modelled. The record is already dated today at that point, so that read changes nothing when both reads fall on the same date.
- `now`, `tickNow` and `nowIso` come from the same clock, but the model does not relate `nowIso` to the other two.
- Application.App.ConfirmDrop, Application.App.ResetTodayClicked: every date read inside one handler is taken at one instant, the handler's `nowIso`. The source reads `new Date()` again for the view's day check after `completeSession` or `resetToday`; if UTC midnight falls between the two reads, that second read rolls the record over once more and saves again, which the model does not capture.
- Integer milliseconds and minutes are unbounded integers. JavaScript's double-precision numbers agree with them for every realistic interval.
