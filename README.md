# alarmy: the armed flag, the monitor loop and the power query

alarmy is a small desktop utility that sounds a tone while the host runs on
battery and a user-controlled "armed" switch is on. This project models its
decision logic, all of it in `src/main.rs`, in three modules:

- `AlarmFlag` (alarm.dfy): the `Alarm` handle on the shared armed flag, a class
  with one `bool` field. It is created armed. `IsAlarmOn` reads the flag.
  `InvertAlarm` flips it by an exclusive or with `true`. `ClickToggle` is the
  button handler: invert, then read back.
  In the program every clone of an `Alarm` shares one atomic cell. In the model
  a clone is the same object reference, so every handle sees every write.
- `Power` (power.dfy): the power query. The outcome of running the status
  command is an input: `SpawnFailed`, `InvalidUtf8` or `Stdout(text)`.
  `GetPower` maps it to `Result<bool, PowerError>`. Decoded output gives
  `Ok(b)`, where `b` says whether the text contains `on-line`. `IsPowerOn` is
  the fail-open fold: any error reads as "not on mains". The substring test
  `Contains` is proved equal to the existential definition `Occurs`.
- `Monitor` (monitor.dfy): one pass of the background loop (`Step`, and
  `PollOnce`, which reads the flag through a handle) and the loop over a finite
  sequence of passes (`MonitorLoop`, specified by `Trace`). Armed and not on mains,
  a pass sounds the alarm and then pauses 200 ms. Otherwise it pauses 1000 ms.
  The flag is tested first, so the power query only matters when armed, as with
  the short-circuit `&&` in the source.

The loop's input is the pair (flag read, power outcome) for each pass. The
foreground may flip the flag between any two passes.
`AnyFlagHistoryReachable` shows that clicks between passes can produce every
sequence of flag readings, from any start value. So quantifying over all
sequences of polls covers every interleaving of clicks and passes.
`ReadsUnderClicks` runs that interleaving on one `Alarm` object: clicks go
through `InvertAlarm`, reads through `IsAlarmOn`. Its readings are the pure
`FlagsSeen` of the start value.

In the code, `invert_alarm` returns nothing: the previous value that
`fetch_xor` yields is dropped, and the click handler reads the flag again
afterwards. The model follows the code (`InvertAlarm` has no result;
`ClickToggle` reads back).

## Model

| member | source | states |
|---|---|---|
| `AlarmFlag.Alarm.constructor` | src/main.rs:28-32 | a new alarm is armed |
| `AlarmFlag.Alarm.IsAlarmOn` | src/main.rs:34-36 | returns the current flag. It has no modifies clause, so it changes nothing |
| `AlarmFlag.Alarm.InvertAlarm` | src/main.rs:38-40 | the new flag is `Xor(old flag, true)` (`Xor` is the update `fetch_xor` applies), i.e. its negation |
| `AlarmFlag.XorTrueTwice` | src/main.rs:38-40 | XOR with `true` negates, and two of them restore the original value |
| `AlarmFlag.Alarm.ClickToggle` | src/main.rs:151-156 | a click negates the shared flag, and the status read back through the clone is the new value |
| `AlarmFlag.ClickTwice` | src/main.rs:151-156 | two clicks restore the flag; each click reports the value it set |
| `AlarmFlag.Startup` | src/main.rs:143 | right after start-up the button is drawn with the flag armed |
| `Power.ContainsIffOccurs` | src/main.rs:180-181 | the substring search `Contains` (the model of `str::contains`) succeeds exactly when the pattern occurs at some index of the text (both directions) |
| `Power.GetPower` | src/main.rs:171-182 | an I/O failure gives `Err(Io)` and a decoding failure `Err(Utf8)` (each exactly then); decoded output gives `Ok(b)` with `b` true iff the text contains `on-line` |
| `Power.IsPowerOn` | src/main.rs:184-186 | the fold `GetPower(o).OkOr(false)` (`OkOr` is `.ok().unwrap_or`) is true exactly when the query succeeded and its output contains `on-line`; false for every failure (fail-open) |
| `Power.AdapterOnLine` | src/main.rs:180-181 | a report `Adapter 0: on-line` counts as on mains |
| `Power.AdapterOffLine` | src/main.rs:180-181 | a report `Adapter 0: off-line` does not count as on mains |
| `Monitor.Step` | src/main.rs:78-83 | a pass sounds exactly when armed and not (query succeeded and output contains `on-line`); after sounding it pauses 200 ms, otherwise 1000 ms |
| `Monitor.DisarmedStepIsIdle` | src/main.rs:78-83 | disarmed, a pass never sounds and pauses 1000 ms, whatever the power outcome |
| `Monitor.ArmedOnMainsStepIsIdle` | src/main.rs:78-83 | armed and on mains, a pass does not sound and pauses 1000 ms |
| `Monitor.ArmedFailedQuerySounds` | src/main.rs:78-80 | armed, a failed power query makes the pass sound once and pause 200 ms |
| `Monitor.PollOnce` | src/main.rs:78-83 | the pass run through the monitor's handle does what `Step` says for the flag that handle holds |
| `Monitor.Trace` | src/main.rs:77-84 | the loop yields one action per pass, and action `i` depends only on pass `i`'s (flag, power) pair |
| `Monitor.MonitorLoop` | src/main.rs:77-84 | the bounded loop produces `Trace(polls)`: pass `i` sounds exactly when it is armed and not on mains |
| `Monitor.SoundsMatchAlarming` | src/main.rs:77-84 | the number of alarms equals the number of passes that are armed and not on mains |
| `Monitor.PauseTotal` | src/main.rs:77-84 | the total pause is 200 ms per alarming pass plus 1000 ms per other pass |
| `Monitor.AlwaysAlarmingSoundsEveryPass` | src/main.rs:77-84 | armed and off mains (or query failing) on every pass: every pass sounds, back to back with 200 ms pauses |
| `Monitor.SilentOnceDisarmed` | src/main.rs:77-84 | disarmed from pass `k` on: no alarm from pass `k` on, each such pass pauses 1000 ms, and the alarm count stops growing |
| `Monitor.ReadsUnderClicks` | src/main.rs:152-156 | clicks through the shared handle, each followed by the loop's read of it, yield the readings `FlagsSeen(start, clicks)` and leave the flag at the last reading |
| `Monitor.AnyFlagHistoryReachable` | src/main.rs:152-156 | for any start value and any sequence of readings, `FlagsSeen` of the clicks `ClicksFor` chooses is exactly that sequence: clicks between passes can produce every flag history |

## Left out

- The GTK window, CSS, button creation and `set_button_status` styling (src/main.rs:99-164, apart from the flag operations in the click handler): presentation only.
- The `Msg::Quit` handling and `main` (src/main.rs:92-96, 188-190): event plumbing.
- `sound_the_alarm` (src/main.rs:52-65): audio output through the default device. It is the abstract `SoundThenSleep` action, which always completes. In the source, `default_output_device().unwrap()` (src/main.rs:55) panics when there is no output device. The panic ends the monitor thread on its first alarming pass, while the window keeps showing the flag. So `AlwaysAlarmingSoundsEveryPass`, `SilentOnceDisarmed` and the other trace lemmas describe the program only on a host that has an audio output device.
- Running `acpi -a` and decoding its stdout as UTF-8 (src/main.rs:173-179): process I/O. Their outcome is the `CommandOutcome` input. The command's exit status is never looked at by the source; a failing command that still ran is `Stdout` of whatever it printed.
- `str::contains` works on UTF-8 bytes and the model on characters. For valid UTF-8 text both find the same occurrences.
- `thread::spawn`, `Arc` and `AtomicBool` with `Ordering::Relaxed`: the flag is a plain field, read and written one step at a time. Interleavings are covered only at the boundaries between passes; atomicity and memory ordering are not modelled.
- `thread::sleep` and the endless `loop` (src/main.rs:77-84): pauses are millisecond values in the actions, and the loop runs once per element of a finite input sequence.
