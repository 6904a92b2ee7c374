/** The pomodoro timer page: three modes with configurable lengths in minutes, a
    one-second countdown, and a completion step that counts pomodoros and picks the
    next mode (a long break after every fourth pomodoro).

    React runs the page in steps: an event handler or interval callback sets state,
    then the effects whose dependencies changed run. The model keeps the steps apart
    (OnComplete is the callback's completion branch, OnModeEntry the effect on
    [mode, settings]) and composes them as React does. Completion always changes the
    mode, so mode entry always follows it and leaves the timer stopped: a requested
    auto-start never survives (CompletionEndsStopped). */
module Timer {
  import opened Text

  datatype Mode = Pomodoro | ShortBreak | LongBreak

  /** Lengths in minutes, and the two auto-start flags. */
  datatype Settings = Settings(pomodoro: int, shortBreak: int, longBreak: int,
                               autoStartBreaks: bool, autoStartPomodoros: bool)

  const DefaultSettings := Settings(25, 5, 15, false, false)

  predicate ValidSettings(s: Settings) {
    s.pomodoro >= 1 && s.shortBreak >= 1 && s.longBreak >= 1
  }

  function Minutes(s: Settings, m: Mode): int {
    match m
    case Pomodoro => s.pomodoro
    case ShortBreak => s.shortBreak
    case LongBreak => s.longBreak
  }

  /** Length in seconds of a countdown in mode `m`. */
  function Duration(s: Settings, m: Mode): (r: int)
    ensures ValidSettings(s) ==> r >= 60 && r % 60 == 0
  {
    Minutes(s, m) * 60
  }

  /** The page's state. `ticking` stands for `timerRef.current != null`: a
      one-second interval is scheduled. `completed` is `pomodorosCompleted`. */
  datatype Snapshot = Snapshot(mode: Mode, timeLeft: int, isRunning: bool, ticking: bool,
                               settings: Settings, completed: nat)

  const Initial := Snapshot(Pomodoro, 25 * 60, false, false, DefaultSettings, 0)

  /** The state between events: valid lengths, a countdown within the mode's length
      that never rests at zero, and an interval scheduled exactly while running. */
  predicate Settled(st: Snapshot) {
    && ValidSettings(st.settings)
    && 1 <= st.timeLeft <= Duration(st.settings, st.mode)
    && st.ticking == st.isRunning
  }

  /** The page opens settled, in pomodoro mode, with the full 25 minutes loaded. */
  lemma InitialSettled()
    ensures Settled(Initial)
    ensures Initial.timeLeft == Duration(Initial.settings, Initial.mode) == 1500
  {
  }

  /** The effect on [mode, settings]: load the mode's full length, stop, clear the interval. */
  function OnModeEntry(st: Snapshot): (r: Snapshot)
    ensures r.timeLeft == Duration(r.settings, r.mode) && !r.isRunning && !r.ticking
    ensures r.mode == st.mode && r.settings == st.settings && r.completed == st.completed
  {
    st.(timeLeft := Duration(st.settings, st.mode), isRunning := false, ticking := false)
  }

  /** Mode entry (and resetTimer, whose body is the same) leaves the timer settled,
      stopped, at the full length of the current mode, with the mode, the lengths and
      the pomodoro count untouched. */
  lemma ModeEntrySettles(st: Snapshot)
    requires ValidSettings(st.settings)
    ensures var r := OnModeEntry(st);
      && Settled(r) && !r.isRunning && !r.ticking
      && r.timeLeft == Duration(st.settings, st.mode)
      && r.mode == st.mode && r.completed == st.completed && r.settings == st.settings
  {
  }

  /** The mode that follows a finished countdown in `m`, given the pomodoro count
      after it. */
  function NextMode(m: Mode, count: nat): Mode {
    if m != Pomodoro then Pomodoro
    else if count % 4 == 0 then LongBreak
    else ShortBreak
  }

  /** The interval callback's completion branch: the countdown is set to zero, the
      interval cleared, the count and mode advanced, and the timer asked to run when
      the auto-start flag of the next mode's kind is set. */
  function OnComplete(st: Snapshot): (r: Snapshot)
    ensures r.timeLeft == 0 && !r.ticking && r.settings == st.settings
    ensures st.mode == Pomodoro ==> r.completed == st.completed + 1
    ensures st.mode == Pomodoro ==> r.mode != Pomodoro && (r.mode == LongBreak <==> r.completed % 4 == 0)
    ensures st.mode != Pomodoro ==> r.mode == Pomodoro && r.completed == st.completed
    ensures r.isRunning <==> (|| st.isRunning
                              || (st.mode == Pomodoro && st.settings.autoStartBreaks)
                              || (st.mode != Pomodoro && st.settings.autoStartPomodoros))
    ensures r.mode != st.mode
  {
    if st.mode == Pomodoro then
      var count := st.completed + 1;
      st.(timeLeft := 0, ticking := false, completed := count, mode := NextMode(st.mode, count),
          isRunning := st.isRunning || st.settings.autoStartBreaks)
    else
      st.(timeLeft := 0, ticking := false, mode := Pomodoro,
          isRunning := st.isRunning || st.settings.autoStartPomodoros)
  }

  /** One firing of the interval: above one second it counts down by one; otherwise it
      completes, and since completion always changes the mode, mode entry follows. */
  function OnTick(st: Snapshot): (r: Snapshot)
    requires st.ticking
    ensures r.settings == st.settings
    ensures r.mode == st.mode <==> st.timeLeft > 1
  {
    if st.timeLeft > 1 then st.(timeLeft := st.timeLeft - 1)
    else OnModeEntry(OnComplete(st))
  }

  /** Composed as the page runs them, completion and mode entry leave the timer
      stopped, whatever the auto-start flags say, at the full length of the next mode. */
  lemma CompletionEndsStopped(st: Snapshot)
    requires Settled(st) && st.isRunning && st.timeLeft <= 1
    ensures var r := OnTick(st);
      && Settled(r) && !r.isRunning && !r.ticking
      && r.mode == NextMode(st.mode, r.completed)
      && r.timeLeft == Duration(r.settings, r.mode)
      && r.completed == (if st.mode == Pomodoro then st.completed + 1 else st.completed)
  {
    ModeEntrySettles(OnComplete(st));
  }

  /** A tick keeps the state settled, and never takes the countdown below zero. */
  lemma TickKeepsSettled(st: Snapshot)
    requires Settled(st) && st.isRunning
    ensures Settled(OnTick(st))
    ensures st.timeLeft > 1 ==> OnTick(st) == st.(timeLeft := st.timeLeft - 1)
  {
    if st.timeLeft <= 1 {
      CompletionEndsStopped(st);
    }
  }

  /** `n` firings of the interval; none fire once it has been cleared. */
  function Ticks(st: Snapshot, n: nat): Snapshot
    decreases n
  {
    if n == 0 || !st.ticking then st else Ticks(OnTick(st), n - 1)
  }

  /** Before completion every tick takes exactly one second off and changes nothing else. */
  lemma {:induction false} Countdown(st: Snapshot, k: nat)
    requires Settled(st) && st.isRunning && k < st.timeLeft
    ensures Ticks(st, k) == st.(timeLeft := st.timeLeft - k)
    decreases k
  {
    if k > 0 {
      var next := st.(timeLeft := st.timeLeft - 1);
      assert OnTick(st) == next;
      Countdown(next, k - 1);
    }
  }

  /** A running countdown of `timeLeft` seconds completes after exactly that many ticks,
      and completes once only: later ticks never fire. */
  lemma {:induction false} SessionEnds(st: Snapshot, extra: nat)
    requires Settled(st) && st.isRunning
    ensures Ticks(st, st.timeLeft + extra) == OnModeEntry(OnComplete(st))
    decreases st.timeLeft
  {
    if st.timeLeft == 1 {
      var done := OnModeEntry(OnComplete(st));
      assert Ticks(st, 1 + extra) == Ticks(done, extra);
      assert !done.ticking;
    } else {
      var next := st.(timeLeft := st.timeLeft - 1);
      assert OnTick(st) == next;
      SessionEnds(next, extra);
      assert OnComplete(next) == OnComplete(st).(timeLeft := 0);
    }
  }

  /** `toggleTimer`: flip `isRunning`; the running effect then schedules or clears the interval. */
  function OnToggle(st: Snapshot): (r: Snapshot)
    ensures r.isRunning == !st.isRunning && r.ticking == r.isRunning
    ensures r.(isRunning := st.isRunning, ticking := st.ticking) == st
  {
    st.(isRunning := !st.isRunning, ticking := !st.isRunning)
  }

  /** Toggling twice without a tick in between restores the state. */
  lemma ToggleTwice(st: Snapshot)
    requires Settled(st)
    ensures Settled(OnToggle(st)) && OnToggle(OnToggle(st)) == st
  {
  }

  /** A whole session from the user's start: toggle, then let the countdown run out. */
  function RunSession(st: Snapshot): (r: Snapshot)
    requires Settled(st) && !st.isRunning
    ensures Settled(r) && !r.isRunning && r.settings == st.settings
    ensures r.completed == if st.mode == Pomodoro then st.completed + 1 else st.completed
    ensures r.mode == NextMode(st.mode, r.completed)
    ensures r.timeLeft == Duration(r.settings, r.mode)
  {
    var running := OnToggle(st);
    SessionEnds(running, 0);
    CompletionEndsStopped(running.(timeLeft := 1));
    assert OnModeEntry(OnComplete(running)) == OnTick(running.(timeLeft := 1));
    Ticks(running, running.timeLeft)
  }

  /** The modes of `n` consecutive sessions started from `st`. */
  function ModeTrace(st: Snapshot, n: nat): (r: seq<Mode>)
    requires Settled(st) && !st.isRunning
    ensures |r| == n
    decreases n
  {
    if n == 0 then [] else [st.mode] + ModeTrace(RunSession(st), n - 1)
  }

  /** A pomodoro session followed by the break it leads to: the count goes up by one
      and the next session is a pomodoro again. */
  lemma {:induction false} PomodoroAndBreak(st: Snapshot, n: nat)
    requires Settled(st) && !st.isRunning && st.mode == Pomodoro
    ensures var s2 := RunSession(RunSession(st));
      && Settled(s2) && !s2.isRunning && s2.mode == Pomodoro && s2.completed == st.completed + 1
      && ModeTrace(st, n + 2)
         == [Pomodoro, NextMode(Pomodoro, st.completed + 1)] + ModeTrace(s2, n)
  {
    var s1 := RunSession(st);
    assert ModeTrace(st, n + 2) == [st.mode] + ModeTrace(s1, n + 1);
    assert ModeTrace(s1, n + 1) == [s1.mode] + ModeTrace(RunSession(s1), n);
  }

  /** Two pomodoros, each with its break: the count goes up by two and the state
      `after` the four sessions is a stopped pomodoro again. */
  lemma {:induction false} TwoRounds(st: Snapshot, n: nat) returns (after: Snapshot)
    requires Settled(st) && !st.isRunning && st.mode == Pomodoro
    ensures Settled(after) && !after.isRunning && after.mode == Pomodoro
    ensures after.completed == st.completed + 2
    ensures ModeTrace(st, n + 4)
      == [Pomodoro, NextMode(Pomodoro, st.completed + 1), Pomodoro, NextMode(Pomodoro, st.completed + 2)]
         + ModeTrace(after, n)
  {
    PomodoroAndBreak(st, n + 2);
    var s2 := RunSession(RunSession(st));
    PomodoroAndBreak(s2, n);
    after := RunSession(RunSession(s2));
  }

  /** From a pomodoro with a count divisible by four, any run of at least eight sessions
      starts with pomodoro and short break three times over, then pomodoro and a long
      break. */
  lemma LongBreakEveryFourth(st: Snapshot, n: nat)
    requires Settled(st) && !st.isRunning && st.mode == Pomodoro && st.completed % 4 == 0
    ensures ModeTrace(st, n + 8)[..8]
      == [Pomodoro, ShortBreak, Pomodoro, ShortBreak, Pomodoro, ShortBreak, Pomodoro, LongBreak]
  {
    CountAfterMultipleOfFour(st.completed);
    var s4 := TwoRounds(st, n + 4);
    var s8 := TwoRounds(s4, n);
  }

  lemma CountAfterMultipleOfFour(c: nat)
    requires c % 4 == 0
    ensures (c + 1) % 4 == 1 && (c + 2) % 4 == 2 && (c + 3) % 4 == 3 && (c + 4) % 4 == 0
  {
  }

  /** `selectMode(m)` from the mode buttons: React skips the update, and with it mode
      entry, when `m` is already the mode. */
  function OnSelectMode(st: Snapshot, m: Mode): (r: Snapshot)
    ensures r.mode == m && r.completed == st.completed && r.settings == st.settings
  {
    if m == st.mode then st else OnModeEntry(st.(mode := m))
  }

  /** Selecting the current mode changes nothing; selecting another stops the timer and
      loads that mode's full length, keeping the pomodoro count. */
  lemma SelectModeSettles(st: Snapshot, m: Mode)
    requires Settled(st)
    ensures var r := OnSelectMode(st, m);
      && Settled(r) && r.mode == m && r.completed == st.completed && r.settings == st.settings
      && (m == st.mode ==> r == st)
      && (m != st.mode ==> !r.isRunning && r.timeLeft == Duration(st.settings, m))
  {
    if m != st.mode {
      ModeEntrySettles(st.(mode := m));
    }
  }

  /** One edit in the settings panel: a field name and its new value. */
  datatype SettingChange =
    | SetPomodoro(minutes: int)
    | SetShortBreak(minutes: int)
    | SetLongBreak(minutes: int)
    | SetAutoStartBreaks(on: bool)
    | SetAutoStartPomodoros(on: bool)

  predicate ValidChange(c: SettingChange) {
    (c.SetPomodoro? || c.SetShortBreak? || c.SetLongBreak?) ==> c.minutes >= 1
  }

  function ChangedMode(c: SettingChange): Option<Mode> {
    match c
    case SetPomodoro(_) => Some(Pomodoro)
    case SetShortBreak(_) => Some(ShortBreak)
    case SetLongBreak(_) => Some(LongBreak)
    case _ => None
  }

  /** `{...settings, [setting]: value}`: the named field takes the value, every other
      field is kept. */
  function ApplyChange(s: Settings, c: SettingChange): (r: Settings)
    ensures forall m :: Minutes(r, m) == if ChangedMode(c) == Some(m) then c.minutes else Minutes(s, m)
    ensures r.autoStartBreaks == if c.SetAutoStartBreaks? then c.on else s.autoStartBreaks
    ensures r.autoStartPomodoros == if c.SetAutoStartPomodoros? then c.on else s.autoStartPomodoros
    ensures ValidSettings(s) && ValidChange(c) ==> ValidSettings(r)
  {
    match c
    case SetPomodoro(v) => s.(pomodoro := v)
    case SetShortBreak(v) => s.(shortBreak := v)
    case SetLongBreak(v) => s.(longBreak := v)
    case SetAutoStartBreaks(b) => s.(autoStartBreaks := b)
    case SetAutoStartPomodoros(b) => s.(autoStartPomodoros := b)
  }

  /** `handleSettingChange`: a new settings object always differs from the old one, so
      mode entry follows every change, running or not. */
  function OnSettingChange(st: Snapshot, c: SettingChange): (r: Snapshot)
    ensures r.settings == ApplyChange(st.settings, c) && r.mode == st.mode && r.completed == st.completed
    ensures !r.isRunning && r.timeLeft == Duration(r.settings, r.mode)
  {
    OnModeEntry(st.(settings := ApplyChange(st.settings, c)))
  }

  /** Any settings change stops the timer and reloads the current mode with its (possibly
      new) length; mode and pomodoro count are kept. */
  lemma SettingChangeRestarts(st: Snapshot, c: SettingChange)
    requires Settled(st) && ValidChange(c)
    ensures var r := OnSettingChange(st, c);
      && Settled(r) && !r.isRunning && r.mode == st.mode && r.completed == st.completed
      && r.settings == ApplyChange(st.settings, c)
      && r.timeLeft == Minutes(r.settings, st.mode) * 60
  {
    ModeEntrySettles(st.(settings := ApplyChange(st.settings, c)));
  }

  /** The value the settings inputs pass on, `parseInt(text) || fallback`: a parse
      failure (NaN, here None) or a zero falls back to the default, any other number
      is passed through, negative ones included. */
  function InputMinutes(parsed: Option<int>, fallback: int): (r: int)
    ensures parsed.Some? && parsed.value != 0 ==> r == parsed.value
    ensures fallback >= 1 && (parsed.None? || parsed.value >= 0) ==> r >= 1
    ensures fallback != 0 ==> r != 0
    ensures parsed.None? || parsed.value == 0 ==> r == fallback
  {
    if parsed.Some? && parsed.value != 0 then parsed.value else fallback
  }

  /** `formatTime`: minutes and seconds, each zero-padded to two digits, joined by ':'. */
  function FormatTime(seconds: nat): (r: string)
    ensures |r| >= 5 && r[|r| - 3] == ':'
    ensures seconds < 6000 ==> |r| == 5
  {
    var mins, secs := PadStart(Decimal(seconds / 60), 2, '0'), PadStart(Decimal(seconds % 60), 2, '0');
    assert |secs| == 2;
    assert seconds < 6000 ==> seconds / 60 < 100;
    mins + ":" + secs
  }

  /** The displayed time reads back as the minutes and seconds it shows, and these
      give back the number of seconds. */
  lemma FormatTimeRoundTrip(seconds: nat)
    ensures ParseClock(FormatTime(seconds)) == Some((seconds / 60, seconds % 60))
    ensures (seconds / 60) * 60 + seconds % 60 == seconds
  {
    var mins, secs := PadStart(Decimal(seconds / 60), 2, '0'), PadStart(Decimal(seconds % 60), 2, '0');
    PadStartValue(Decimal(seconds / 60), 2);
    PadStartValue(Decimal(seconds % 60), 2);
    DecimalRoundTrip(seconds / 60);
    DecimalRoundTrip(seconds % 60);
    ParseClockJoin(mins, secs);
  }

  /** `getProgressPercent`, in exact arithmetic: the share of the mode's length already
      counted down, as a percentage. */
  function ProgressPercent(st: Snapshot): (r: real)
    requires ValidSettings(st.settings)
    ensures st.timeLeft == Duration(st.settings, st.mode) ==> r == 0.0
    ensures 0 <= st.timeLeft <= Duration(st.settings, st.mode) ==> 0.0 <= r <= 100.0
    ensures st.timeLeft == 0 ==> r == 100.0
  {
    var total := Duration(st.settings, st.mode) as real;
    var done := total - st.timeLeft as real;
    ShareBounds(done, total);
    (done / total) * 100.0
  }

  /** A share of a positive whole is between 0 and 1 when the part is between 0 and
      the whole. */
  lemma ShareBounds(part: real, whole: real)
    requires whole > 0.0
    ensures 0.0 <= part <= whole ==> 0.0 <= part / whole <= 1.0
  {
    assert part / whole * whole == part;
  }

  /** Every second counted down adds the same share, 100 / length percent, to the
      progress. */
  lemma ProgressPerSecond(st: Snapshot)
    requires ValidSettings(st.settings)
    ensures ProgressPercent(st.(timeLeft := st.timeLeft - 1))
      == ProgressPercent(st) + 100.0 / Duration(st.settings, st.mode) as real
  {
  }

  /** The page's state as mutable fields, one method per handler or effect. */
  class PomodoroTimer {
    var mode: Mode
    var timeLeft: int
    var isRunning: bool
    var ticking: bool
    var settings: Settings
    var pomodorosCompleted: nat

    function State(): Snapshot
      reads this
    {
      Snapshot(mode, timeLeft, isRunning, ticking, settings, pomodorosCompleted)
    }

    ghost predicate Valid()
      reads this
    {
      Settled(State())
    }

    constructor ()
      ensures State() == Initial && Valid()
    {
      mode, timeLeft, isRunning, ticking := Pomodoro, 25 * 60, false, false;
      settings := DefaultSettings;
      pomodorosCompleted := 0;
    }

    /** The effect on [mode, settings]. */
    method EnterMode()
      modifies this
      ensures State() == OnModeEntry(old(State()))
    {
      match mode {
        case Pomodoro => timeLeft := settings.pomodoro * 60;
        case ShortBreak => timeLeft := settings.shortBreak * 60;
        case LongBreak => timeLeft := settings.longBreak * 60;
      }
      isRunning := false;
      ticking := false;
    }

    /** The completion branch of the interval callback. */
    method Complete()
      modifies this
      ensures State() == OnComplete(old(State()))
    {
      ticking := false;
      if mode == Pomodoro {
        var count := pomodorosCompleted + 1;
        pomodorosCompleted := count;
        if count % 4 == 0 {
          mode := LongBreak;
        } else {
          mode := ShortBreak;
        }
        if settings.autoStartBreaks {
          isRunning := true;
        }
      } else {
        mode := Pomodoro;
        if settings.autoStartPomodoros {
          isRunning := true;
        }
      }
      timeLeft := 0;
    }

    /** One firing of the interval, followed by the mode entry that completion triggers. */
    method Tick()
      requires Valid() && ticking
      modifies this
      ensures State() == OnTick(old(State())) && Valid()
    {
      TickKeepsSettled(State());
      if timeLeft <= 1 {
        Complete();
        EnterMode();
      } else {
        timeLeft := timeLeft - 1;
      }
    }

    /** A mode button. */
    method SelectMode(m: Mode)
      requires Valid()
      modifies this
      ensures State() == OnSelectMode(old(State()), m) && Valid()
    {
      SelectModeSettles(State(), m);
      if m != mode {
        mode := m;
        EnterMode();
      }
    }

    /** `toggleTimer` and the running effect it triggers. */
    method ToggleTimer()
      requires Valid()
      modifies this
      ensures State() == OnToggle(old(State())) && Valid()
    {
      isRunning := !isRunning;
      ticking := isRunning;
    }

    /** `resetTimer`. */
    method ResetTimer()
      requires Valid()
      modifies this
      ensures State() == OnModeEntry(old(State())) && Valid()
      ensures mode == old(mode) && pomodorosCompleted == old(pomodorosCompleted)
    {
      ModeEntrySettles(State());
      isRunning := false;
      ticking := false;
      match mode {
        case Pomodoro => timeLeft := settings.pomodoro * 60;
        case ShortBreak => timeLeft := settings.shortBreak * 60;
        case LongBreak => timeLeft := settings.longBreak * 60;
      }
    }

    /** `handleSettingChange` and the mode entry it triggers. */
    method HandleSettingChange(c: SettingChange)
      requires Valid() && ValidChange(c)
      modifies this
      ensures State() == OnSettingChange(old(State()), c) && Valid()
    {
      SettingChangeRestarts(State(), c);
      settings := ApplyChange(settings, c);
      EnterMode();
    }
  }
}
