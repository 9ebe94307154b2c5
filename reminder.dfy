/** The work/break reminder of the main window: a Work phase counted in minute
    ticks and a Break phase counted in second ticks, switched on and off by the
    start button, reset by the stop button, with phase lengths from two sliders.
    Each handler is a function from the state before to the state after, with what
    it showed; `TimeMaster.MainWindow` runs them in place. */
module Reminder {
  import opened Presentation

  const TakeBreakNotice := "Time to take a break."
  const MoveOnNotice := "Time to move on."
  const WorkingMessage := "Working time."
  const BreakingMessage := "Breaking time."
  const PausedMessage := "Timer paused."
  const StoppedMessage := "Timer stopped."

  datatype State = State(
    running: bool,      // isReminderWorking
    working: bool,      // isWorking: the Work phase when true, the Break phase when false
    minutes: int,       // reminderMinuteCounter, minutes spent in the Work phase
    seconds: int,       // reminderSecondCounter, seconds spent in the Break phase
    workLength: int,    // workTimeLength, minutes
    breakLength: int,   // breakTimeLength, seconds
    progress: int,      // the value last given to the progress bar
    startCaption: Caption,  // the start/pause button
    workText: string,   // the label beside the work slider
    breakText: string)  // the label beside the break slider

  /** The start button reads "Pause" while the reminder runs and "Start" otherwise. */
  function RunningCaption(running: bool): Caption
  {
    if running then Pause else Start
  }

  /** What every handler keeps: counters never negative, only the current phase's
      counter ever non-zero, and the start button's text matching `running`. */
  predicate Valid(s: State)
  {
    s.minutes >= 0 && s.seconds >= 0 &&
    (s.working ==> s.seconds == 0) &&
    (!s.working ==> s.minutes == 0) &&
    s.startCaption == RunningCaption(s.running)
  }

  /** Both counters strictly below their phase lengths: the bound that holds
      between ticks as long as the sliders are not moved below a counter. */
  predicate InPhase(s: State)
  {
    1 <= s.workLength && 1 <= s.breakLength &&
    s.minutes < s.workLength && s.seconds < s.breakLength
  }

  /** The state the constructor leaves, given the sliders' initial positions. */
  function Initial(workValue: int, breakValue: int): (s: State)
    ensures Valid(s) && !s.running && s.working
    ensures s.minutes == 0 && s.seconds == 0 && s.progress == 0 && s.startCaption == Start
    ensures s.workLength == workValue && s.breakLength == breakValue
  {
    State(false, true, 0, 0, workValue, breakValue, 0, Start,
          Decimal(workValue) + " min", Decimal(breakValue) + " sec")
  }

  /** The percentage shown for `count` ticks of a phase `length` ticks long:
      `ceil` is applied to a quotient that integer division already truncated. */
  function Progress(count: int, length: int): (p: int)
    requires length != 0
    ensures 0 <= count && 0 < length ==> p == 100 * count / length
    ensures count == 0 ==> p == 0
  {
    TruncDiv(100 * count, length)
  }

  /** A tick divides by the phase length only when it is processed. */
  predicate MinuteTickDefined(s: State)
  {
    s.running && s.working ==> s.workLength != 0
  }

  predicate SecondTickDefined(s: State)
  {
    s.running && !s.working ==> s.breakLength != 0
  }

  /** The reminder's part of `minuteLapse`. */
  function OnMinute(s: State): (r: Step<State>)
    requires MinuteTickDefined(s)
    ensures Valid(s) ==> Valid(r.state)
  {
    if s.running && s.working then
      var m := s.minutes + 1;
      var p := Progress(m, s.workLength);
      if m >= s.workLength then
        Step(s.(minutes := 0, working := false, progress := p),
             Output([TakeBreakNotice], [BreakingMessage]))
      else
        Step(s.(minutes := m, progress := p), Silent)
    else
      Step(s, Silent)
  }

  /** The reminder's part of `secondLapse`. */
  function OnSecond(s: State): (r: Step<State>)
    requires SecondTickDefined(s)
    ensures Valid(s) ==> Valid(r.state)
  {
    if s.running && !s.working then
      var c := s.seconds + 1;
      var p := Progress(c, s.breakLength);
      if c >= s.breakLength then
        Step(s.(seconds := 0, working := true, progress := 0),
             Output([MoveOnNotice], [WorkingMessage]))
      else
        Step(s.(seconds := c, progress := p), Silent)
    else
      Step(s, Silent)
  }

  /** `on_startReminderBtn_clicked`: start or pause. */
  function OnStart(s: State): (r: Step<State>)
    ensures Valid(s) ==> Valid(r.state)
  {
    var running := !s.running;
    Step(s.(running := running, startCaption := RunningCaption(running)),
         Output([], [if !running then PausedMessage
                     else if s.working then WorkingMessage else BreakingMessage]))
  }

  /** `on_stopReminderBtn_clicked`. */
  function OnStop(s: State): (r: Step<State>)
    ensures Valid(r.state) && !r.state.running && r.state.progress == 0
  {
    Step(s.(running := false, working := true, startCaption := Start, progress := 0,
            minutes := 0, seconds := 0),
         Output([], [StoppedMessage]))
  }

  /** `on_workTimeSlider_valueChanged`. */
  function OnWorkSlider(s: State, val: int): (r: State)
    ensures Valid(s) ==> Valid(r)
  {
    s.(workLength := val, workText := Decimal(val) + " min")
  }

  /** `on_breakTimeSlider_valueChanged`. */
  function OnBreakSlider(s: State, val: int): (r: State)
    ensures Valid(s) ==> Valid(r)
  {
    s.(breakLength := val, breakText := Decimal(val) + " sec")
  }

  /** `k` minute ticks in a row, with everything they showed. */
  function MinuteTicks(s: State, k: nat): (r: Step<State>)
    requires MinuteTickDefined(s)
    ensures r.state.workLength == s.workLength && r.state.breakLength == s.breakLength
    ensures MinuteTickDefined(r.state)
    decreases k
  {
    if k == 0 then Step(s, Silent)
    else
      var first := OnMinute(s);
      var rest := MinuteTicks(first.state, k - 1);
      Step(rest.state, Then(first.out, rest.out))
  }

  /** `k` second ticks in a row, with everything they showed. */
  function SecondTicks(s: State, k: nat): (r: Step<State>)
    requires SecondTickDefined(s)
    ensures r.state.workLength == s.workLength && r.state.breakLength == s.breakLength
    ensures SecondTickDefined(r.state)
    decreases k
  {
    if k == 0 then Step(s, Silent)
    else
      var first := OnSecond(s);
      var rest := SecondTicks(first.state, k - 1);
      Step(rest.state, Then(first.out, rest.out))
  }

  // ---------------------------------------------------------------------------
  // The invariants.

  /** Ticks and buttons keep both counters below their phase lengths; a slider
      keeps them there exactly when its new value is positive and above the
      current counter of its phase. */
  lemma HandlersKeepInPhase(s: State, val: int)
    requires Valid(s) && InPhase(s)
    ensures InPhase(OnMinute(s).state) && InPhase(OnSecond(s).state)
    ensures InPhase(OnStart(s).state) && InPhase(OnStop(s).state)
    ensures InPhase(OnWorkSlider(s, val)) <==> 1 <= val && s.minutes < val
    ensures InPhase(OnBreakSlider(s, val)) <==> 1 <= val && s.seconds < val
  {
  }

  /** Once a tick has been processed the counter of its phase is below the phase
      length even when a slider had been moved below it: the tick that finds the
      counter at or past the length ends the phase. */
  lemma TickEndsOverrunPhase(s: State)
    requires Valid(s) && s.running
    ensures s.working && 1 <= s.workLength ==> OnMinute(s).state.minutes < s.workLength
    ensures s.working && 1 <= s.workLength && s.minutes + 1 >= s.workLength ==>
              !OnMinute(s).state.working
    ensures !s.working && 1 <= s.breakLength ==> OnSecond(s).state.seconds < s.breakLength
    ensures !s.working && 1 <= s.breakLength && s.seconds + 1 >= s.breakLength ==>
              OnSecond(s).state.working
  {
  }

  // ---------------------------------------------------------------------------
  // The buttons.

  /** Stopping leaves the reminder off, in the Work phase, with both counters and
      the progress bar at 0 and the button reading "Start"; stopping again changes
      nothing more. */
  lemma StopResetsAndIsIdempotent(s: State)
    ensures var t := OnStop(s).state;
      !t.running && t.working && t.minutes == 0 && t.seconds == 0 &&
      t.progress == 0 && t.startCaption == Start &&
      t.workLength == s.workLength && t.breakLength == s.breakLength &&
      OnStop(s).out == Output([], [StoppedMessage]) &&
      OnStop(t).state == t
  {
  }

  /** The start button flips `running` and relabels itself, touching neither the
      phase nor the counters; pressing it twice gives back the state it started from. */
  lemma StartOnlyToggles(s: State)
    ensures OnStart(s).state == s.(running := !s.running, startCaption := RunningCaption(!s.running))
    ensures OnStart(s).out.notices == []
    ensures Valid(s) ==> OnStart(OnStart(s).state).state == s
  {
  }

  /** The status message of the start button names the phase being resumed. */
  lemma StartAnnouncesPhase(s: State)
    ensures !s.running && s.working ==> OnStart(s).out.messages == [WorkingMessage]
    ensures !s.running && !s.working ==> OnStart(s).out.messages == [BreakingMessage]
    ensures s.running ==> OnStart(s).out.messages == [PausedMessage]
  {
  }

  /** Setting a slider twice is setting it to the second value. */
  lemma SliderLastValueWins(s: State, v: int, w: int)
    ensures OnWorkSlider(OnWorkSlider(s, v), w) == OnWorkSlider(s, w)
    ensures OnBreakSlider(OnBreakSlider(s, v), w) == OnBreakSlider(s, w)
    ensures ParseDecimal(OnWorkSlider(s, v).workText[..|OnWorkSlider(s, v).workText| - 4]) == v
    ensures ParseDecimal(OnBreakSlider(s, v).breakText[..|OnBreakSlider(s, v).breakText| - 4]) == v
  {
    var t := OnWorkSlider(s, v).workText;
    assert t[..|t| - 4] == Decimal(v);
    var u := OnBreakSlider(s, v).breakText;
    assert u[..|u| - 4] == Decimal(v);
    DecimalRoundTrip(v);
  }

  // ---------------------------------------------------------------------------
  // The ticks, one at a time.

  /** A reminder that is off ignores both ticks; the Break phase ignores minute
      ticks and the Work phase ignores second ticks. */
  lemma TicksFiltered(s: State)
    ensures !(s.running && s.working) ==> OnMinute(s) == Step(s, Silent)
    ensures !(s.running && !s.working) ==> OnSecond(s) == Step(s, Silent)
  {
  }

  /** A processed minute tick counts one more minute of work; reaching the work
      length ends the phase with a notice, and otherwise the phase goes on. */
  lemma MinuteTickLaw(s: State)
    requires s.running && s.working && s.workLength != 0
    ensures var r := OnMinute(s);
      r.state.progress == Progress(s.minutes + 1, s.workLength) &&
      if s.minutes + 1 >= s.workLength then
        r.state == s.(minutes := 0, working := false, progress := r.state.progress) &&
        r.out == Output([TakeBreakNotice], [BreakingMessage])
      else
        r.state == s.(minutes := s.minutes + 1, progress := r.state.progress) &&
        r.out == Silent
  {
  }

  /** A processed second tick counts one more second of break; reaching the break
      length ends the phase with a notice and clears the progress bar. */
  lemma SecondTickLaw(s: State)
    requires s.running && !s.working && s.breakLength != 0
    ensures var r := OnSecond(s);
      if s.seconds + 1 >= s.breakLength then
        r.state == s.(seconds := 0, working := true, progress := 0) &&
        r.out == Output([MoveOnNotice], [WorkingMessage])
      else
        r.state == s.(seconds := s.seconds + 1,
                      progress := Progress(s.seconds + 1, s.breakLength)) &&
        r.out == Silent
  {
  }

  // ---------------------------------------------------------------------------
  // The progress bar.

  /** With the counter between 0 and the length the bar shows 0 to 100: 0 at the
      start of a phase and 100 on the tick that reaches the length. */
  lemma {:induction false} ProgressBounds(count: int, length: int)
    requires 0 <= count <= length && 1 <= length
    ensures 0 <= Progress(count, length) <= 100
    ensures Progress(0, length) == 0 && Progress(length, length) == 100
  {
    assert 100 * count <= 100 * length;
    DivMonotone(100 * count, 100 * length, length);
    assert 100 * length / length == 100;
  }

  lemma {:induction false} DivMonotone(a: int, b: int, d: int)
    requires 0 <= a <= b && 1 <= d
    ensures 0 <= a / d <= b / d
  {
    var qa, ra, qb, rb := a / d, a % d, b / d, b % d;
    assert a == d * qa + ra && 0 <= ra < d;
    assert b == d * qb + rb && 0 <= rb < d;
    assert d * (qa - qb) == (a - ra) - (b - rb);
    MulAtLeast(d, qa - qb);
    assert d * (0 - qa) == ra - a;
    MulAtLeast(d, 0 - qa);
  }

  lemma {:induction false} MulAtLeast(d: int, q: int)
    requires 1 <= d
    ensures 1 <= q ==> d <= d * q
    decreases if q > 0 then q else 0
  {
    if q > 1 {
      MulAtLeast(d, q - 1);
      assert d * q == d * (q - 1) + d;
    }
  }

  /** Within a phase the bar never goes back: more ticks show at least as much. */
  lemma {:induction false} ProgressMonotone(c1: int, c2: int, length: int)
    requires 0 <= c1 <= c2 && 1 <= length
    ensures Progress(c1, length) <= Progress(c2, length)
  {
    DivMonotone(100 * c1, 100 * c2, length);
  }

  // ---------------------------------------------------------------------------
  // Runs of ticks.

  /** A running Work phase counts minute ticks one by one, silently, as long as
      the count stays below the work length. */
  lemma {:induction false} WorkPhaseCounts(s: State, k: nat)
    requires Valid(s) && s.running && s.working && s.minutes + k < s.workLength
    ensures MinuteTicks(s, k) ==
      Step(if k == 0 then s
           else s.(minutes := s.minutes + k, progress := Progress(s.minutes + k, s.workLength)),
           Silent)
    decreases k
  {
    if k > 0 {
      var t := OnMinute(s).state;
      assert t == s.(minutes := s.minutes + 1, progress := Progress(s.minutes + 1, s.workLength));
      WorkPhaseCounts(t, k - 1);
    }
  }

  /** Starting from a counter below the work length, the Work phase ends on exactly
      the tick that brings the counter to the work length, with one notice, one
      status message and a full progress bar. */
  lemma {:induction false} WorkPhaseEnds(s: State)
    requires Valid(s) && s.running && s.working && s.minutes < s.workLength
    ensures var r := MinuteTicks(s, s.workLength - s.minutes);
      r.state == s.(minutes := 0, working := false, progress := 100) &&
      r.out == Output([TakeBreakNotice], [BreakingMessage])
  {
    var k := s.workLength - s.minutes - 1;
    WorkPhaseCounts(s, k);
    var t := MinuteTicks(s, k).state;
    assert t.minutes == s.workLength - 1;
    ProgressBounds(s.workLength, s.workLength);
    MinuteTicksSplit(s, k, 1);
  }

  /** A run of minute ticks is the run of its first part followed by the rest. */
  lemma {:induction false} MinuteTicksSplit(s: State, j: nat, k: nat)
    requires MinuteTickDefined(s)
    ensures MinuteTickDefined(MinuteTicks(s, j).state)
    ensures var a := MinuteTicks(s, j); var b := MinuteTicks(a.state, k);
      MinuteTicks(s, j + k) == Step(b.state, Then(a.out, b.out))
    decreases j
  {
    if j > 0 {
      var first := OnMinute(s);
      MinuteTicksSplit(first.state, j - 1, k);
      var a := MinuteTicks(first.state, j - 1);
      var b := MinuteTicks(a.state, k);
      assert first.out.notices + (a.out.notices + b.out.notices)
          == (first.out.notices + a.out.notices) + b.out.notices;
      assert first.out.messages + (a.out.messages + b.out.messages)
          == (first.out.messages + a.out.messages) + b.out.messages;
    }
  }

  /** A run of second ticks is the run of its first part followed by the rest. */
  lemma {:induction false} SecondTicksSplit(s: State, j: nat, k: nat)
    requires SecondTickDefined(s)
    ensures SecondTickDefined(SecondTicks(s, j).state)
    ensures var a := SecondTicks(s, j); var b := SecondTicks(a.state, k);
      SecondTicks(s, j + k) == Step(b.state, Then(a.out, b.out))
    decreases j
  {
    if j > 0 {
      var first := OnSecond(s);
      SecondTicksSplit(first.state, j - 1, k);
      var a := SecondTicks(first.state, j - 1);
      var b := SecondTicks(a.state, k);
      assert first.out.notices + (a.out.notices + b.out.notices)
          == (first.out.notices + a.out.notices) + b.out.notices;
      assert first.out.messages + (a.out.messages + b.out.messages)
          == (first.out.messages + a.out.messages) + b.out.messages;
    }
  }

  /** A running Break phase counts second ticks one by one, silently, as long as
      the count stays below the break length. */
  lemma {:induction false} BreakPhaseCounts(s: State, k: nat)
    requires Valid(s) && s.running && !s.working && s.seconds + k < s.breakLength
    ensures SecondTicks(s, k) ==
      Step(if k == 0 then s
           else s.(seconds := s.seconds + k, progress := Progress(s.seconds + k, s.breakLength)),
           Silent)
    decreases k
  {
    if k > 0 {
      var t := OnSecond(s).state;
      assert t == s.(seconds := s.seconds + 1, progress := Progress(s.seconds + 1, s.breakLength));
      BreakPhaseCounts(t, k - 1);
    }
  }

  /** Starting from a counter below the break length, the Break phase ends on
      exactly the tick that brings the counter to the break length, with one
      notice, one status message and the progress bar back at 0. */
  lemma {:induction false} BreakPhaseEnds(s: State)
    requires Valid(s) && s.running && !s.working && s.seconds < s.breakLength
    ensures var r := SecondTicks(s, s.breakLength - s.seconds);
      r.state == s.(seconds := 0, working := true, progress := 0) &&
      r.out == Output([MoveOnNotice], [WorkingMessage])
  {
    var k := s.breakLength - s.seconds - 1;
    BreakPhaseCounts(s, k);
    SecondTicksSplit(s, k, 1);
  }

  /** Ticks the reminder ignores, however many, change nothing and show nothing. */
  lemma {:induction false} IgnoredTicks(s: State, k: nat)
    ensures !(s.running && s.working) ==> MinuteTicks(s, k) == Step(s, Silent)
    ensures !(s.running && !s.working) ==> SecondTicks(s, k) == Step(s, Silent)
    decreases k
  {
    if k > 0 {
      IgnoredTicks(s, k - 1);
    }
  }

  /** A whole cycle: from the start of a running Work phase with positive lengths,
      `workLength` minute ticks and then `breakLength` second ticks bring the
      reminder back to where it was, with the two notices in order. */
  lemma CycleReturns(s: State)
    requires Valid(s) && s.running && s.working && s.minutes == 0 && s.progress == 0
    requires 1 <= s.workLength && 1 <= s.breakLength
    ensures var w := MinuteTicks(s, s.workLength);
      var b := SecondTicks(w.state, s.breakLength);
      b.state == s && Then(w.out, b.out) == Output([TakeBreakNotice, MoveOnNotice],
                                                    [BreakingMessage, WorkingMessage])
  {
    WorkPhaseEnds(s);
    var w := MinuteTicks(s, s.workLength);
    var t := s.(minutes := 0, working := false, progress := 100);
    assert w.state == t && w.out == Output([TakeBreakNotice], [BreakingMessage]);
    BreakPhaseEnds(t);
    assert t.breakLength - t.seconds == s.breakLength;
    var b := SecondTicks(t, s.breakLength);
    assert b.state == t.(seconds := 0, working := true, progress := 0) == s;
    assert b.out == Output([MoveOnNotice], [WorkingMessage]);
    Pair(TakeBreakNotice, MoveOnNotice);
    Pair(BreakingMessage, WorkingMessage);
  }
}
