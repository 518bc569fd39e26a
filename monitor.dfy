/**
 * The background monitor. Each pass of its endless loop reads the armed
 * flag and, only when it is armed, queries the power state; armed and not
 * on mains, it sounds the alarm and pauses briefly, otherwise it pauses for
 * a second. Sounding and pausing are outputs here: a pass yields an
 * `Action`, and the loop is bounded by the sequence of inputs it is given.
 */
module Monitor {
  import opened Power
  import opened AlarmFlag

  /** Pause after sounding the alarm, in milliseconds. */
  const AlarmPauseMs: nat := 200
  /** Pause when there is nothing to sound, in milliseconds. */
  const IdlePauseMs: nat := 1000

  /** What one pass of the loop does. */
  datatype Action =
    | SoundThenSleep(ms: nat)  // play the alarm tone, then pause `ms`
    | Sleep(ms: nat)           // pause `ms` without sounding

  /** What one pass sees: the flag it reads and the outcome of the power query. */
  datatype Poll = Poll(armed: bool, power: CommandOutcome)

  /** The passes that sound the alarm. */
  predicate Alarming(p: Poll)
  {
    Step(p.armed, p.power).SoundThenSleep?
  }

  /**
   * One pass of the loop. The flag is tested first and the power query is
   * only consulted when it is set, as the short-circuit `&&` does.
   */
  function Step(armed: bool, power: CommandOutcome): (a: Action)
    ensures a.SoundThenSleep? <==> armed && !(power.Stdout? && Occurs(power.text, OnLineMarker))
    ensures a.SoundThenSleep? ==> a.ms == AlarmPauseMs
    ensures a.Sleep? ==> a.ms == IdlePauseMs
  {
    if armed && !IsPowerOn(power) then SoundThenSleep(AlarmPauseMs) else Sleep(IdlePauseMs)
  }

  /** Disarmed, a pass never sounds and pauses a second, whatever the power state. */
  lemma DisarmedStepIsIdle(power: CommandOutcome)
    ensures Step(false, power) == Sleep(IdlePauseMs)
  {
  }

  /** Armed and on mains, a pass does not sound and pauses a second. */
  lemma ArmedOnMainsStepIsIdle(power: CommandOutcome)
    requires IsPowerOn(power)
    ensures Step(true, power) == Sleep(IdlePauseMs)
  {
  }

  /** Armed, a failed power query sounds the alarm once and pauses briefly. */
  lemma ArmedFailedQuerySounds(power: CommandOutcome)
    requires power.SpawnFailed? || power.InvalidUtf8?
    ensures Step(true, power) == SoundThenSleep(AlarmPauseMs)
  {
  }

  /** One pass of the loop, reading the flag through the monitor's handle. */
  method PollOnce(alarm: Alarm, power: CommandOutcome) returns (a: Action)
    ensures a == Step(alarm.active, power)
    ensures a.SoundThenSleep? <==> alarm.active && !IsPowerOn(power)
  {
    var on := alarm.IsAlarmOn();
    a := Step(on, power);
  }

  /** The actions of the loop over a sequence of passes. */
  function Trace(polls: seq<Poll>): (t: seq<Action>)
    ensures |t| == |polls|
    ensures forall i :: 0 <= i < |polls| ==> t[i] == Step(polls[i].armed, polls[i].power)
  {
    if polls == [] then []
    else
      var last := polls[|polls| - 1];
      Trace(polls[..|polls| - 1]) + [Step(last.armed, last.power)]
  }

  /** The loop run over `polls`, one pass per element. */
  method MonitorLoop(polls: seq<Poll>) returns (trace: seq<Action>)
    ensures |trace| == |polls|
    ensures forall i :: 0 <= i < |polls| ==>
      (trace[i].SoundThenSleep? <==> polls[i].armed && !IsPowerOn(polls[i].power))
    ensures trace == Trace(polls)
  {
    trace := [];
    var i := 0;
    while i < |polls|
      invariant 0 <= i <= |polls|
      invariant trace == Trace(polls[..i])
    {
      var a := Step(polls[i].armed, polls[i].power);
      assert polls[..i + 1][..i] == polls[..i];
      trace := trace + [a];
      i := i + 1;
    }
    assert polls[..i] == polls;
  }

  /** How many actions of `t` sound the alarm. */
  function SoundCount(t: seq<Action>): (n: nat)
    ensures n <= |t|
  {
    if t == [] then 0
    else SoundCount(t[..|t| - 1]) + (if t[|t| - 1].SoundThenSleep? then 1 else 0)
  }

  /** How many passes of `polls` are armed while not on mains. */
  function AlarmingCount(polls: seq<Poll>): (n: nat)
    ensures n <= |polls|
  {
    if polls == [] then 0
    else AlarmingCount(polls[..|polls| - 1]) + (if Alarming(polls[|polls| - 1]) then 1 else 0)
  }

  /** The total pause of the actions of `t`, in milliseconds. */
  function TotalPauseMs(t: seq<Action>): nat
  {
    if t == [] then 0 else TotalPauseMs(t[..|t| - 1]) + t[|t| - 1].ms
  }

  /** The loop sounds exactly once per pass that is armed and not on mains. */
  lemma {:induction false} SoundsMatchAlarming(polls: seq<Poll>)
    ensures SoundCount(Trace(polls)) == AlarmingCount(polls)
  {
    if polls != [] {
      var front := polls[..|polls| - 1];
      SoundsMatchAlarming(front);
      assert Trace(polls)[..|polls| - 1] == Trace(front);
    }
  }

  /** Each sounding pass pauses 200 ms and each other pass a full second. */
  lemma {:induction false} PauseTotal(polls: seq<Poll>)
    ensures TotalPauseMs(Trace(polls))
         == AlarmPauseMs * AlarmingCount(polls) + IdlePauseMs * (|polls| - AlarmingCount(polls))
  {
    if polls != [] {
      var front := polls[..|polls| - 1];
      PauseTotal(front);
      assert Trace(polls)[..|polls| - 1] == Trace(front);
    }
  }

  /**
   * Armed with the power query reporting "not on mains" or failing on every
   * pass, the loop sounds on every pass, with the short pause between.
   */
  lemma AlwaysAlarmingSoundsEveryPass(polls: seq<Poll>)
    requires forall i :: 0 <= i < |polls| ==> Alarming(polls[i])
    ensures forall i :: 0 <= i < |polls| ==> Trace(polls)[i] == SoundThenSleep(AlarmPauseMs)
    ensures SoundCount(Trace(polls)) == |polls|
    ensures TotalPauseMs(Trace(polls)) == AlarmPauseMs * |polls|
  {
    AllAlarmingCount(polls);
    SoundsMatchAlarming(polls);
    PauseTotal(polls);
  }

  /** When every pass is alarming, so is the count of them. */
  lemma {:induction false} AllAlarmingCount(polls: seq<Poll>)
    requires forall i :: 0 <= i < |polls| ==> Alarming(polls[i])
    ensures AlarmingCount(polls) == |polls|
  {
    if polls != [] {
      AllAlarmingCount(polls[..|polls| - 1]);
    }
  }

  /**
   * Disarmed from pass `k` on, the loop stops sounding from pass `k` on and
   * goes back to the one-second pause, whatever the power state.
   */
  lemma SilentOnceDisarmed(polls: seq<Poll>, k: nat)
    requires forall i :: k <= i < |polls| ==> !polls[i].armed
    ensures forall i :: k <= i < |polls| ==> Trace(polls)[i] == Sleep(IdlePauseMs)
    ensures SoundCount(Trace(polls)) == SoundCount(Trace(polls)[..if k <= |polls| then k else |polls|])
  {
    var t := Trace(polls);
    var m := if k <= |polls| then k else |polls|;
    SilentSuffix(t, m);
  }

  /** Appending only silent actions does not change the sound count. */
  lemma {:induction false} SilentSuffix(t: seq<Action>, m: nat)
    requires m <= |t|
    requires forall i :: m <= i < |t| ==> t[i].Sleep?
    ensures SoundCount(t) == SoundCount(t[..m])
    decreases |t|
  {
    if |t| > m {
      SilentSuffix(t[..|t| - 1], m);
      assert t[..|t| - 1][..m] == t[..m];
    } else {
      assert t[..m] == t;
    }
  }

  /**
   * The flag each pass reads when the foreground clicks the button once
   * before the passes marked in `clicks`, starting from `flag`.
   */
  function FlagsSeen(flag: bool, clicks: seq<bool>): (seen: seq<bool>)
    ensures |seen| == |clicks|
    decreases clicks
  {
    if clicks == [] then []
    else
      var now := if clicks[0] then Xor(flag, true) else flag;
      [now] + FlagsSeen(now, clicks[1..])
  }

  /**
   * The foreground and the loop taking turns on one shared handle: before
   * pass `i` the button is clicked when `clicks[i]` holds, then the pass
   * reads the flag. The readings are `FlagsSeen` of the start value.
   */
  method ReadsUnderClicks(alarm: Alarm, clicks: seq<bool>) returns (seen: seq<bool>)
    modifies alarm
    ensures seen == FlagsSeen(old(alarm.active), clicks)
    ensures |seen| > 0 ==> alarm.active == seen[|seen| - 1]
    ensures |seen| == 0 ==> alarm.active == old(alarm.active)
  {
    ghost var start := alarm.active;
    seen := [];
    var i := 0;
    while i < |clicks|
      invariant 0 <= i <= |clicks|
      invariant FlagsSeen(start, clicks) == seen + FlagsSeen(alarm.active, clicks[i..])
      invariant |seen| == i
      invariant alarm.active == if i == 0 then start else seen[i - 1]
    {
      ghost var before := alarm.active;
      if clicks[i] {
        alarm.InvertAlarm();
      }
      var f := alarm.IsAlarmOn();
      FlagsSeenUnfold(before, clicks[i..]);
      assert clicks[i..][1..] == clicks[i + 1..];
      ghost var rest := FlagsSeen(f, clicks[i + 1..]);
      assert FlagsSeen(before, clicks[i..]) == [f] + rest;
      assert seen + ([f] + rest) == (seen + [f]) + rest;
      seen := seen + [f];
      i := i + 1;
    }
    assert clicks[i..] == [];
  }

  /** The first reading is the flag after the first click, if any. */
  lemma FlagsSeenUnfold(flag: bool, clicks: seq<bool>)
    requires clicks != []
    ensures FlagsSeen(flag, clicks)
         == [if clicks[0] then !flag else flag] + FlagsSeen(if clicks[0] then !flag else flag, clicks[1..])
  {
  }

  /** Clicks that lead from `flag` to the readings `flags`: click wherever the value changes. */
  function ClicksFor(flag: bool, flags: seq<bool>): (clicks: seq<bool>)
    ensures |clicks| == |flags|
    decreases flags
  {
    if flags == [] then [] else [flags[0] != flag] + ClicksFor(flags[0], flags[1..])
  }

  /**
   * Every sequence of flag readings can be produced by clicks between
   * passes, from any start value and in particular from the armed start.
   * So a sequence of polls with arbitrary `armed` values covers every
   * schedule of the foreground.
   */
  lemma {:induction false} AnyFlagHistoryReachable(flag: bool, flags: seq<bool>)
    ensures FlagsSeen(flag, ClicksFor(flag, flags)) == flags
    decreases flags
  {
    if flags != [] {
      AnyFlagHistoryReachable(flags[0], flags[1..]);
      var clicks := ClicksFor(flag, flags);
      assert clicks[1..] == ClicksFor(flags[0], flags[1..]);
    }
  }
}
