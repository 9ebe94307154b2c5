/** The per-task countdown of the main window. The start button takes a snapshot
    of the selected row of the task list the first time it is pressed and then
    pauses and resumes; minute ticks count the snapshot's time limit down, second
    ticks turn a 0..60 second display, and the stop button forgets the run.
    Each handler is a function from the state before to the state after, with what
    it showed; `TimeMaster.MainWindow` runs them in place. */
module TaskRunner {
  import opened Presentation

  const PausedMessage := "Task paused"
  const QuitMessage := "You have quited current task."

  /** A row of the task list: its description and its time limit in minutes.
      Nothing in the list forces the limit to be positive. */
  datatype Task = Task(description: string, timeLimit: int)

  function CurrentTaskMessage(t: Task): string
  {
    "Current task: " + t.description
  }

  function ExpiryNotice(t: Task): string
  {
    "Task " + t.description + " has run out of time."
  }

  datatype State = State(
    doing: bool,        // isDoingTask: the countdown is running
    isNew: bool,        // isNewTask: the next start press takes a new snapshot
    minutes: int,       // taskMinuteCounter
    seconds: int,       // taskSecondCounter
    task: Task,         // the snapshot of the selected row
    minuteLcd: int,     // the value last shown on the minute display
    secondLcd: int,     // the value last shown on the second display
    startCaption: Caption)  // the task start button

  /** What every handler keeps: the second counter stays in 0..60; before a
      snapshot is taken nothing runs, both counters are 0 and the button reads
      "Start"; a running countdown's button reads "Pause"; and a stopped countdown
      whose button still reads "Pause" is one whose time ran out. */
  predicate Valid(s: State)
  {
    0 <= s.seconds <= 60 &&
    (s.isNew ==> !s.doing && s.minutes == 0 && s.seconds == 0 && s.startCaption == Start) &&
    (s.doing ==> s.startCaption == Pause) &&
    (!s.doing && s.startCaption == Pause ==> !s.isNew && s.minutes < 0)
  }

  /** The state the constructor leaves. The snapshot is not read before the first
      start press replaces it. */
  function Initial(): (s: State)
    ensures Valid(s) && s.isNew
  {
    State(false, true, 0, 0, Task("", 0), 0, 0, Start)
  }

  /** A row index the task view can report: -1 for no current row, or a row of the list. */
  predicate RowOf(rows: seq<Task>, currentRow: int)
  {
    -1 <= currentRow < |rows|
  }

  /** The row a start press takes a snapshot of. */
  function SelectedRow(rows: seq<Task>, currentRow: int): (i: nat)
    requires RowOf(rows, currentRow) && |rows| > 0
    ensures i < |rows|
    ensures currentRow == -1 ==> i == 0
    ensures currentRow != -1 ==> i == currentRow
  {
    if currentRow == -1 then 0 else currentRow
  }

  /** `on_startTaskBtn_clicked`, given the rows of the task list and the view's current row. */
  function OnStart(s: State, rows: seq<Task>, currentRow: int): (r: Step<State>)
    requires RowOf(rows, currentRow)
    ensures Valid(s) ==> Valid(r.state)
  {
    if s.isNew then
      if |rows| == 0 then Step(s, Silent)
      else
        var t := rows[SelectedRow(rows, currentRow)];
        var m := t.timeLimit - 1;
        Step(s.(task := t, minutes := m, seconds := 60, doing := true, isNew := false,
                minuteLcd := m, startCaption := Pause),
             Output([], [CurrentTaskMessage(t)]))
    else
      var doing := !s.doing;
      Step(s.(doing := doing, startCaption := if doing then Pause else Resume),
           Output([], [if doing then CurrentTaskMessage(s.task) else PausedMessage]))
  }

  /** `on_stopTaskBtn_clicked`. The snapshot itself is kept. */
  function OnStop(s: State): (r: Step<State>)
    ensures Valid(r.state) && r.state.isNew
  {
    Step(s.(doing := false, isNew := true, startCaption := Start, minuteLcd := 0, secondLcd := 0,
            minutes := 0, seconds := 0),
         Output([], [QuitMessage]))
  }

  /** The task's part of `minuteLapse`: one minute less, and when the count goes
      below zero the countdown stops with a notice. */
  function OnMinute(s: State): (r: Step<State>)
    ensures Valid(s) ==> Valid(r.state)
  {
    if s.doing then
      var m := s.minutes - 1;
      if m < 0 then
        Step(s.(minutes := m, minuteLcd := 0, secondLcd := 0, doing := false),
             Output([ExpiryNotice(s.task)], []))
      else
        Step(s.(minutes := m, minuteLcd := m), Silent)
    else
      Step(s, Silent)
  }

  /** The task's part of `secondLapse`: one second less, with 0 followed by 60. */
  function OnSecond(s: State): (r: Step<State>)
    ensures Valid(s) ==> Valid(r.state)
  {
    if s.doing then
      var c := if s.seconds - 1 == -1 then 60 else s.seconds - 1;
      Step(s.(seconds := c, secondLcd := c), Silent)
    else
      Step(s, Silent)
  }

  /** `k` minute ticks in a row, with everything they showed. */
  function MinuteTicks(s: State, k: nat): Step<State>
    decreases k
  {
    if k == 0 then Step(s, Silent)
    else
      var first := OnMinute(s);
      var rest := MinuteTicks(first.state, k - 1);
      Step(rest.state, Then(first.out, rest.out))
  }

  /** `k` second ticks in a row. */
  function SecondTicks(s: State, k: nat): Step<State>
    decreases k
  {
    if k == 0 then Step(s, Silent)
    else
      var first := OnSecond(s);
      var rest := SecondTicks(first.state, k - 1);
      Step(rest.state, Then(first.out, rest.out))
  }

  /** The two ticks, as they reach the countdown in whatever order the timers fire. */
  datatype Tick = MinuteTick | SecondTick

  /** A run of ticks in the order given, with everything they showed. */
  function Run(s: State, ticks: seq<Tick>): Step<State>
    decreases |ticks|
  {
    if ticks == [] then Step(s, Silent)
    else
      var first := if ticks[0] == MinuteTick then OnMinute(s) else OnSecond(s);
      var rest := Run(first.state, ticks[1..]);
      Step(rest.state, Then(first.out, rest.out))
  }

  /** How many of `ticks` are minute ticks. */
  function MinuteCount(ticks: seq<Tick>): (n: nat)
    ensures n <= |ticks|
    decreases |ticks|
  {
    if ticks == [] then 0
    else (if ticks[0] == MinuteTick then 1 else 0) + MinuteCount(ticks[1..])
  }

  /** The part of the countdown that decides when it runs out. */
  predicate SameCountdown(a: State, b: State)
  {
    a.doing == b.doing && a.minutes == b.minutes && a.task == b.task
  }

  /** The number of minute ticks, while running, after which a countdown whose
      minute counter is `minutes` runs out: the limit for a fresh snapshot of a
      positive limit, and the very next tick once the count is below zero. */
  function TicksLeft(minutes: int): (n: nat)
    ensures n >= 1
    ensures minutes >= 0 ==> n == minutes + 1
  {
    if minutes >= 0 then minutes + 1 else 1
  }

  // ---------------------------------------------------------------------------
  // The buttons.

  /** The first start press with an empty list does nothing at all. */
  lemma StartWithoutRowsIsNoop(s: State)
    requires s.isNew
    ensures OnStart(s, [], -1) == Step(s, Silent)
  {
  }

  /** The first start press with a non-empty list takes a snapshot of the current
      row, the first row when there is none, and runs it from its time limit. */
  lemma StartTakesSnapshot(s: State, rows: seq<Task>, currentRow: int)
    requires s.isNew && RowOf(rows, currentRow) && |rows| > 0
    ensures var t := rows[if currentRow == -1 then 0 else currentRow];
      var r := OnStart(s, rows, currentRow);
      r.state.task == t && r.state.doing && !r.state.isNew &&
      r.state.minutes == t.timeLimit - 1 && r.state.seconds == 60 &&
      r.state.minuteLcd == t.timeLimit - 1 && r.state.secondLcd == s.secondLcd &&
      r.state.startCaption == Pause &&
      r.out == Output([], ["Current task: " + t.description])
  {
  }

  /** Once a snapshot is taken, the start button only pauses and resumes: the
      counters and the snapshot stay, whatever the task list now holds. */
  lemma LaterPressToggles(s: State, rows: seq<Task>, currentRow: int)
    requires !s.isNew && RowOf(rows, currentRow)
    ensures var r := OnStart(s, rows, currentRow);
      r.state == s.(doing := !s.doing, startCaption := if s.doing then Resume else Pause) &&
      r.out == Output([], [if s.doing then PausedMessage else CurrentTaskMessage(s.task)])
    ensures OnStart(s, rows, currentRow) == OnStart(s, [], -1)
  {
  }

  /** Pausing and resuming gives back the countdown exactly. */
  lemma PauseResumeRoundTrip(s: State, rows: seq<Task>, currentRow: int)
    requires Valid(s) && s.doing && RowOf(rows, currentRow)
    ensures var p := OnStart(s, rows, currentRow).state;
      !p.doing && p.startCaption == Resume && OnStart(p, rows, currentRow).state == s
  {
  }

  /** Stopping forgets the countdown and readies the next snapshot; stopping again
      changes nothing more. */
  lemma StopResetsAndIsIdempotent(s: State)
    ensures var t := OnStop(s).state;
      !t.doing && t.isNew && t.minutes == 0 && t.seconds == 0 &&
      t.minuteLcd == 0 && t.secondLcd == 0 && t.startCaption == Start &&
      OnStop(s).out == Output([], [QuitMessage]) &&
      OnStop(t).state == t
  {
  }

  // ---------------------------------------------------------------------------
  // The ticks, one at a time.

  /** A paused or finished countdown ignores both ticks. */
  lemma IdleTicksIgnored(s: State)
    requires !s.doing
    ensures OnMinute(s) == Step(s, Silent) && OnSecond(s) == Step(s, Silent)
  {
  }

  /** A second tick turns the second counter back by one modulo 61 and touches
      nothing else of the countdown. */
  lemma SecondTickWraps(s: State)
    requires s.doing && 0 <= s.seconds <= 60
    ensures var t := OnSecond(s).state;
      t.seconds == (s.seconds - 1) % 61 && 0 <= t.seconds <= 60 &&
      t == s.(seconds := t.seconds, secondLcd := t.seconds)
  {
  }

  /** Ticks never start, resume or re-arm a countdown, and never replace its snapshot. */
  lemma TicksKeepSnapshot(s: State)
    ensures OnMinute(s).state.isNew == s.isNew && OnMinute(s).state.task == s.task
    ensures OnSecond(s).state.isNew == s.isNew && OnSecond(s).state.task == s.task
    ensures OnMinute(s).state.doing ==> s.doing
    ensures OnSecond(s).state.doing == s.doing
  {
  }

  // ---------------------------------------------------------------------------
  // Runs of ticks.

  /** `k` second ticks of a running countdown turn the second counter back by
      `k` modulo 61. */
  lemma {:induction false} SecondTicksModulo(s: State, k: nat)
    requires s.doing && 0 <= s.seconds <= 60
    ensures var t := SecondTicks(s, k);
      t.out == Silent &&
      t.state == s.(seconds := (s.seconds - k) % 61,
                    secondLcd := if k == 0 then s.secondLcd else (s.seconds - k) % 61)
    decreases k
  {
    if k > 0 {
      var t := OnSecond(s).state;
      assert t.seconds == (s.seconds - 1) % 61;
      SecondTicksModulo(t, k - 1);
      var c := (s.seconds - 1) % 61;
      assert (c - (k - 1)) % 61 == (s.seconds - k) % 61 by {
        assert s.seconds - 1 == 61 * ((s.seconds - 1) / 61) + c;
        assert (s.seconds - k) == 61 * ((s.seconds - 1) / 61) + (c - (k - 1));
        ModAddMultiple(c - (k - 1), (s.seconds - 1) / 61);
      }
    }
  }

  lemma ModAddMultiple(x: int, m: int)
    ensures (61 * m + x) % 61 == x % 61
  {
  }

  /** A running countdown with `k` whole minutes still on its counter counts the
      next `k` minute ticks down silently and keeps running. */
  lemma {:induction false} CountsDown(s: State, k: nat)
    requires s.doing && k <= s.minutes
    ensures MinuteTicks(s, k) ==
      Step(if k == 0 then s else s.(minutes := s.minutes - k, minuteLcd := s.minutes - k), Silent)
    decreases k
  {
    if k > 0 {
      CountsDown(OnMinute(s).state, k - 1);
    }
  }

  /** A running countdown runs out on exactly the `TicksLeft(minutes)`-th minute
      tick: earlier ticks leave it running, and that tick stops it, clears both
      displays and raises the one expiry notice for its snapshot. */
  lemma {:induction false} RunsOutOnTime(s: State)
    requires s.doing
    ensures forall k: nat :: k < TicksLeft(s.minutes) ==> MinuteTicks(s, k).state.doing
    ensures var r := MinuteTicks(s, TicksLeft(s.minutes));
      r.state == s.(doing := false, minutes := if s.minutes >= 0 then -1 else s.minutes - 1,
                    minuteLcd := 0, secondLcd := 0) &&
      r.out == Output([ExpiryNotice(s.task)], [])
  {
    forall k: nat | k < TicksLeft(s.minutes) ensures MinuteTicks(s, k).state.doing {
      if k > 0 {
        CountsDown(s, k);
      }
    }
    if s.minutes >= 0 {
      CountsDown(s, s.minutes);
      MinuteTicksSplit(s, s.minutes, 1);
    }
  }

  /** A run of minute ticks is the run of its first part followed by the rest. */
  lemma {:induction false} MinuteTicksSplit(s: State, j: nat, k: nat)
    ensures var a := MinuteTicks(s, j); var b := MinuteTicks(a.state, k);
      MinuteTicks(s, j + k) == Step(b.state, Then(a.out, b.out))
    decreases j
  {
    if j > 0 {
      var first := OnMinute(s);
      MinuteTicksSplit(first.state, j - 1, k);
      var a := MinuteTicks(first.state, j - 1);
      var b := MinuteTicks(a.state, k);
      assert first.out.notices + (a.out.notices + b.out.notices)
          == (first.out.notices + a.out.notices) + b.out.notices;
      assert first.out.messages + (a.out.messages + b.out.messages)
          == (first.out.messages + a.out.messages) + b.out.messages;
    }
  }

  /** A second tick leaves the part of the countdown that decides expiry as it was,
      shows nothing, and so does not move the next minute tick's outcome. */
  lemma SecondTickKeepsExpiry(s: State)
    ensures SameCountdown(OnSecond(s).state, s) && OnSecond(s).out == Silent
    ensures SameCountdown(OnMinute(OnSecond(s).state).state, OnMinute(s).state)
    ensures OnMinute(OnSecond(s).state).out == OnMinute(s).out
  {
  }

  /** Minute ticks see only `doing`, `minutes` and the snapshot: two countdowns that
      agree on those agree after any number of minute ticks and show the same. */
  lemma {:induction false} MinuteTicksAgree(a: State, b: State, k: nat)
    requires SameCountdown(a, b)
    ensures SameCountdown(MinuteTicks(a, k).state, MinuteTicks(b, k).state)
    ensures MinuteTicks(a, k).out == MinuteTicks(b, k).out
    decreases k
  {
    if k > 0 {
      MinuteTicksAgree(OnMinute(a).state, OnMinute(b).state, k - 1);
    }
  }

  /** However the second ticks fall between the minute ticks, a run ends, as far as
      expiry goes, where its minute ticks alone would end, and shows the same. */
  lemma {:induction false} SecondTicksDoNotCount(s: State, ticks: seq<Tick>)
    ensures SameCountdown(Run(s, ticks).state, MinuteTicks(s, MinuteCount(ticks)).state)
    ensures Run(s, ticks).out == MinuteTicks(s, MinuteCount(ticks)).out
    decreases |ticks|
  {
    if ticks != [] {
      var rest := ticks[1..];
      var c := MinuteCount(rest);
      if ticks[0] == MinuteTick {
        SecondTicksDoNotCount(OnMinute(s).state, rest);
        assert MinuteCount(ticks) == c + 1;
      } else {
        var t := OnSecond(s).state;
        SecondTicksDoNotCount(t, rest);
        MinuteTicksAgree(t, s, c);
        assert MinuteCount(ticks) == c;
        var o := Run(t, rest).out;
        assert Then(Silent, o) == o by {
          assert [] + o.notices == o.notices && [] + o.messages == o.messages;
        }
      }
    }
  }

  /** A countdown that is not running ignores any number of minute ticks. */
  lemma {:induction false} IdleMinuteTicks(s: State, k: nat)
    requires !s.doing
    ensures MinuteTicks(s, k) == Step(s, Silent)
    decreases k
  {
    if k > 0 {
      IdleMinuteTicks(s, k - 1);
    }
  }

  /** A paused or finished countdown ignores any run of ticks. */
  lemma {:induction false} IdleRun(s: State, ticks: seq<Tick>)
    requires !s.doing
    ensures Run(s, ticks) == Step(s, Silent)
    decreases |ticks|
  {
    if ticks != [] {
      IdleRun(s, ticks[1..]);
    }
  }

  /** A task started with time limit `L` runs out on the `L`-th minute tick it runs
      for, or on the first one when `L` is not positive, however many second ticks
      arrive in between: it runs silently before that tick, and from that tick on
      it is stopped and has raised exactly the one expiry notice. */
  lemma RunsOutAfterLimit(s: State, rows: seq<Task>, currentRow: int, ticks: seq<Tick>)
    requires s.isNew && RowOf(rows, currentRow) && |rows| > 0
    ensures var t := rows[SelectedRow(rows, currentRow)];
      var r := Run(OnStart(s, rows, currentRow).state, ticks);
      var n := if t.timeLimit >= 1 then t.timeLimit else 1;
      (MinuteCount(ticks) < n ==> r.state.doing && r.out.notices == []) &&
      (MinuteCount(ticks) >= n ==> !r.state.doing && r.out.notices == [ExpiryNotice(t)])
  {
    var t := rows[SelectedRow(rows, currentRow)];
    var started := OnStart(s, rows, currentRow).state;
    var n := if t.timeLimit >= 1 then t.timeLimit else 1;
    var k := MinuteCount(ticks);
    SecondTicksDoNotCount(started, ticks);
    assert TicksLeft(started.minutes) == n;
    RunsOutOnTime(started);
    if k < n {
      if k > 0 {
        CountsDown(started, k);
      }
    } else {
      MinuteTicksSplit(started, n, k - n);
      var e := MinuteTicks(started, n);
      IdleMinuteTicks(e.state, k - n);
      assert e.out.notices + [] == e.out.notices;
    }
  }

  /** Pausing, any ticks while paused, and resuming give back the countdown exactly,
      so a pause/resume pair never moves the tick on which the task runs out. */
  lemma PausedRunChangesNothing(s: State, rows: seq<Task>, currentRow: int, ticks: seq<Tick>)
    requires Valid(s) && s.doing && RowOf(rows, currentRow)
    ensures var p := OnStart(s, rows, currentRow).state;
      Run(p, ticks) == Step(p, Silent) && OnStart(Run(p, ticks).state, rows, currentRow).state == s
  {
    var p := OnStart(s, rows, currentRow).state;
    IdleRun(p, ticks);
  }

  /** Running out does not ready a new snapshot: the next start press resumes the
      old snapshot whatever the list holds, and the minute tick after that runs it
      out again. */
  lemma ExpiredTaskResumes(s: State, rows: seq<Task>, currentRow: int)
    requires Valid(s) && s.doing && s.minutes <= 0 && RowOf(rows, currentRow)
    ensures var e := OnMinute(s).state;
      var again := OnStart(e, rows, currentRow);
      !e.doing && !e.isNew && e.startCaption == Pause &&
      again.state.doing && again.state.task == s.task &&
      again.out == Output([], [CurrentTaskMessage(s.task)]) &&
      OnMinute(again.state).out.notices == [ExpiryNotice(s.task)]
  {
  }
}
