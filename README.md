# Time Master: the main window's two timers

Time Master is a Qt desktop helper with two timers in its main window. Both
are driven by one timer that fires every minute and one that fires every second.

- **Work/break reminder.** The Work phase is counted in minute ticks up to the
  work-slider length. The Break phase is counted in second ticks up to the
  break-slider length. When a phase runs out, the reminder raises a tray
  notification, posts a status-bar message and switches phase. A start/pause
  button switches the reminder on and off, and a stop button resets it. A
  progress bar shows the percentage of the current phase.
- **Per-task countdown.** The first start press takes a snapshot of the task
  selected in the task list, that is its description and its time limit in
  minutes. Minute ticks then count the limit down, and second ticks turn a
  0..60 second display. When the minute counter goes below zero the
  countdown stops and raises a notification. Later start presses pause and
  resume it, and the stop button forgets the run.

The project has four modules:

- `Presentation` (`presentation.dfy`) holds what a handler hands to the user:
  `Output`, the notifications and status messages it shows, in order. It also
  holds the button captions and two pieces of arithmetic the handlers use.
  `TruncDiv` is C++ `int` division. `Decimal` is `QString::number`, and it is
  proved to read back.
- `Reminder` (`reminder.dfy`) is the reminder as a pure state machine. Each
  handler is a function from the state before to the state after, together with
  its `Output`. The file holds the lemmas about single handlers and about runs
  of ticks.
- `TaskRunner` (`task_runner.dfy`) is the task countdown in the same form.
- `TimeMaster` (`time_master.dfy`) is the class `MainWindow`.
  - It has the source's own fields, updated in place, and one method per
    handler.
  - Ghost logs record every tray notification and every status-bar message.
  - Each method's `ensures` says that the reminder's fields (`ReminderView`)
    and the countdown's fields (`TaskView`) end up exactly as the step
    functions say. It also says that the logs grow by exactly that step's
    `Output`.
  - Every lemma about the step functions therefore holds of the window.

The two ticks and every button and slider handler are methods the caller
invokes. The task list appears only as the sequence of rows it holds and the
row the table view reports as current, where -1 means no row.

A few behaviours follow the code where a plain reading of the program's
intent might differ:

- The task countdown starts from `timeLimit - 1` minutes, with the second
  counter at 60. The second display is not updated until the next second
  tick. The countdown runs out on the minute tick that takes the counter
  below zero. That is the `L`-th minute tick it runs for when `L >= 1`, and
  the first one otherwise. Second ticks in between, and ticks while it is
  paused, do not move that tick (`TaskRunner.RunsOutAfterLimit`,
  `TaskRunner.PausedRunChangesNothing`).
- Progress is `ceil(100 * counter / length)` on C++ `int`s. The division
  truncates before `ceil` sees it, so the bar shows the truncated percentage
  (`Reminder.Progress`).
- Moving a slider to or below the current counter breaks "counter below length"
  until the next processed tick. That tick finds the counter at or past the
  length and ends the phase (`Reminder.HandlersKeepInPhase`,
  `Reminder.TickEndsOverrunPhase`).
- Running out does not re-arm the countdown.
  - The start button keeps reading "Pause".
  - The next start press resumes the old snapshot and posts "Current task: …".
  - The minute tick after that runs it out again (`TaskRunner.ExpiredTaskResumes`).
- The stop button clears the counters and the displays, but the snapshot
  itself stays until the next start press.

## Model

| member | source | states |
|---|---|---|
| Presentation.Shown | MainWindow.cpp:100 | the status bar keeps its text when nothing is posted and otherwise shows the last message posted; `ShownThen` shows that two handlers in a row leave it as showing both outputs at once, and `TimeMaster.MainWindow.StatusValid`, kept by every handler, ties it to the last entry of the status log |
| Presentation.CaptionTextsDiffer | MainWindow.cpp:130 | the captions "Start", "Pause" and "Resume" read differently, so a button's text determines its caption |
| Presentation.TruncDiv | MainWindow.cpp:61 | C++ division agrees with Euclidean division on a non-negative dividend and a positive divisor |
| Presentation.TruncDivSigns | MainWindow.cpp:81 | C++ division is odd in each operand, so it rounds toward zero (-7/2 is -3, where Euclidean division gives -4) |
| Presentation.Digits | MainWindow.cpp:146 | the text of a number is a non-empty string of decimal digits without a leading zero |
| Presentation.Decimal | MainWindow.cpp:146 | `QString::number(n)` starts with a minus sign exactly when `n` is negative, and every other character is a decimal digit |
| Presentation.DigitsRoundTrip | MainWindow.cpp:146 | reading the digits of a natural number back gives the number |
| Presentation.DecimalRoundTrip | MainWindow.cpp:151 | reading `QString::number(n)` back gives `n`, negative numbers included |
| Reminder.Initial | MainWindow.cpp:24-35 | the constructor leaves the reminder valid, off, in the Work phase, with both counters and the progress at 0, the caption "Start", and the slider values as lengths |
| Reminder.Progress | MainWindow.cpp:61 | the bar shows `100 * counter / length` truncated, which is 0 at a counter of 0; `ProgressBounds` and `ProgressMonotone` bound it |
| Reminder.OnMinute | MainWindow.cpp:59-68 | the reminder's part of the minute tick keeps the invariant `Valid` |
| Reminder.OnSecond | MainWindow.cpp:79-89 | the reminder's part of the second tick keeps `Valid` |
| Reminder.OnStart | MainWindow.cpp:97-101 | the start/pause button keeps `Valid` |
| Reminder.OnStop | MainWindow.cpp:103-111 | after the stop button the reminder is valid and off, with progress 0 |
| Reminder.OnWorkSlider | MainWindow.cpp:144-147 | the work slider keeps `Valid` |
| Reminder.OnBreakSlider | MainWindow.cpp:149-152 | the break slider keeps `Valid` |
| Reminder.MinuteTicks | MainWindow.cpp:59-68 | runs of minute ticks never change the phase lengths and stay defined |
| Reminder.SecondTicks | MainWindow.cpp:79-89 | runs of second ticks never change the phase lengths and stay defined |
| Reminder.HandlersKeepInPhase | MainWindow.cpp:59-89 | ticks and buttons keep both counters below their lengths; a slider keeps them there if and only if its value is positive and above its phase's counter |
| Reminder.TickEndsOverrunPhase | MainWindow.cpp:62-67 | a processed tick always leaves its phase's counter below the length, and the tick that reaches the length switches phase |
| Reminder.StopResetsAndIsIdempotent | MainWindow.cpp:103-111 | stop leaves the reminder off, in Work, counters and progress 0, caption "Start", lengths kept, "Timer stopped." posted; a second stop changes nothing |
| Reminder.StartOnlyToggles | MainWindow.cpp:97-99 | start flips only `running` and the caption, raises no notification, and two presses give back the state |
| Reminder.StartAnnouncesPhase | MainWindow.cpp:100 | start posts "Timer paused." when pausing and otherwise the name of the phase being resumed |
| Reminder.SliderLastValueWins | MainWindow.cpp:144-152 | setting a slider twice equals setting it once to the second value, and each label's text (" min" and " sec") reads back as the value |
| Reminder.TicksFiltered | MainWindow.cpp:59-79 | an off reminder ignores both ticks, Break ignores minute ticks and Work ignores second ticks |
| Reminder.MinuteTickLaw | MainWindow.cpp:59-68 | a processed minute tick either counts one more minute silently or, on reaching the length, resets, switches to Break, notifies "Time to take a break." and posts "Breaking time." |
| Reminder.SecondTickLaw | MainWindow.cpp:79-89 | a processed second tick either counts one more second silently or, on reaching the length, resets, switches to Work, clears the bar, notifies "Time to move on." and posts "Working time." |
| Reminder.ProgressBounds | MainWindow.cpp:61 | with 0 <= counter <= length and length >= 1 the bar shows 0..100, 0 at the start and 100 at the length |
| Reminder.ProgressMonotone | MainWindow.cpp:81 | more ticks of the same phase never show less progress |
| Reminder.WorkPhaseCounts | MainWindow.cpp:59-61 | k minute ticks below the length count k minutes, silently |
| Reminder.WorkPhaseEnds | MainWindow.cpp:59-68 | the Work phase ends on exactly the tick that reaches the work length, with one notice and one message |
| Reminder.BreakPhaseCounts | MainWindow.cpp:79-81 | k second ticks below the length count k seconds, silently |
| Reminder.BreakPhaseEnds | MainWindow.cpp:79-89 | the Break phase ends on exactly the tick that reaches the break length, with one notice, one message and the bar at 0 |
| Reminder.IgnoredTicks | MainWindow.cpp:59-79 | any number of ticks the reminder ignores change nothing and show nothing |
| Reminder.CycleReturns | MainWindow.cpp:59-89 | `workLength` minute ticks and then `breakLength` second ticks bring a fresh Work phase back to itself, with both notices in order |
| TaskRunner.Initial | MainWindow.cpp:26-33 | the constructor leaves a valid countdown that takes a new snapshot on the next start |
| TaskRunner.SelectedRow | MainWindow.cpp:116-117 | start reads the current row, or row 0 when there is none |
| TaskRunner.OnStart | MainWindow.cpp:113-131 | the start button keeps the invariant `Valid` |
| TaskRunner.OnStop | MainWindow.cpp:133-142 | after stop the countdown is valid and takes a new snapshot on the next start |
| TaskRunner.OnMinute | MainWindow.cpp:48-57 | the countdown's part of the minute tick keeps `Valid` |
| TaskRunner.OnSecond | MainWindow.cpp:73-77 | the countdown's part of the second tick keeps `Valid` |
| TaskRunner.TicksLeft | MainWindow.cpp:49-51 | the closed-form tick count: `m + 1` for a counter at `m >= 0`, one for a counter below zero; `TaskRunner.RunsOutOnTime` proves the minute ticks run the countdown out on exactly that tick |
| TaskRunner.StartWithoutRowsIsNoop | MainWindow.cpp:114-115 | the first start with an empty list changes nothing and shows nothing |
| TaskRunner.StartTakesSnapshot | MainWindow.cpp:114-129 | the first start with rows snapshots the current row (row 0 for -1), runs it with counters `timeLimit - 1` and 60, sets "Pause" and posts "Current task: …" |
| TaskRunner.LaterPressToggles | MainWindow.cpp:126-130 | later starts only toggle running, with caption Pause/Resume and the matching message, whatever the list holds |
| TaskRunner.PauseResumeRoundTrip | MainWindow.cpp:127-130 | pausing shows "Resume", and resuming gives back the countdown exactly |
| TaskRunner.StopResetsAndIsIdempotent | MainWindow.cpp:133-142 | stop leaves the countdown idle, ready for a new snapshot, counters and displays 0, caption "Start", message posted; a second stop changes nothing |
| TaskRunner.IdleTicksIgnored | MainWindow.cpp:48-77 | a countdown that is not running ignores both ticks |
| TaskRunner.SecondTickWraps | MainWindow.cpp:73-76 | a second tick turns the counter back by one modulo 61, stays in 0..60, and changes nothing else but the display |
| TaskRunner.TicksKeepSnapshot | MainWindow.cpp:47-77 | ticks never take a new snapshot, never replace it and never start a countdown |
| TaskRunner.SecondTicksModulo | MainWindow.cpp:73-76 | k second ticks turn the counter back by k modulo 61, silently |
| TaskRunner.CountsDown | MainWindow.cpp:48-50 | with k whole minutes on the counter the next k minute ticks count down silently and keep running |
| TaskRunner.RunsOutOnTime | MainWindow.cpp:48-56 | a running countdown runs out on exactly the `TicksLeft`-th minute tick, clears both displays and raises one expiry notice |
| TaskRunner.MinuteTicksSplit | MainWindow.cpp:48-56 | a run of minute ticks is its first part followed by the rest |
| TaskRunner.SecondTickKeepsExpiry | MainWindow.cpp:73-76 | a second tick leaves running, the minute counter and the snapshot as they were, shows nothing, and does not change what the next minute tick does |
| TaskRunner.MinuteTicksAgree | MainWindow.cpp:48-56 | minute ticks depend only on running, the minute counter and the snapshot |
| TaskRunner.SecondTicksDoNotCount | MainWindow.cpp:47-77 | any run of ticks ends, as far as running, the minute counter and the snapshot go, where its minute ticks alone would end, and shows the same |
| TaskRunner.IdleMinuteTicks | MainWindow.cpp:48 | a countdown that is not running ignores any number of minute ticks |
| TaskRunner.IdleRun | MainWindow.cpp:48-77 | a countdown that is not running ignores any run of ticks |
| TaskRunner.RunsOutAfterLimit | MainWindow.cpp:113-125 | a task started with limit L, under any interleaving of second ticks, runs silently while fewer than max(L, 1) minute ticks have come, and from the max(L, 1)-th on is stopped with exactly the one notice "Task … has run out of time." |
| TaskRunner.PausedRunChangesNothing | MainWindow.cpp:127-130 | pausing, any ticks while paused and resuming give back the countdown exactly, so a pause/resume pair does not move expiry |
| TaskRunner.ExpiredTaskResumes | MainWindow.cpp:51-54 | after running out, from any counter at or below 0, the caption stays "Pause", the next start resumes the old snapshot, and the next minute tick runs it out again |
| TimeMaster.MainWindow.constructor | MainWindow.cpp:19-36 | the window starts with the reminder and the countdown in their initial states and nothing shown |
| TimeMaster.MainWindow.RemindUser | MainWindow.cpp:154-156 | a tray notification is appended to the notification log |
| TimeMaster.MainWindow.ShowMessage | MainWindow.cpp:65 | the status bar shows the message, which is appended to the status log |
| TimeMaster.MainWindow.MinuteLapse | MainWindow.cpp:47-70 | the minute tick runs the countdown's and then the reminder's step on the fields and shows both outputs in that order |
| TimeMaster.MainWindow.TaskMinuteLapse | MainWindow.cpp:48-57 | the countdown's fields follow `TaskRunner.OnMinute`, and the reminder's fields and the status bar stay |
| TimeMaster.MainWindow.ReminderMinuteLapse | MainWindow.cpp:59-68 | the reminder's fields follow `Reminder.OnMinute` and the logs grow by its output |
| TimeMaster.MainWindow.SecondLapse | MainWindow.cpp:72-90 | the second tick runs the countdown's and then the reminder's step and shows both outputs |
| TimeMaster.MainWindow.TaskSecondLapse | MainWindow.cpp:73-77 | the countdown's fields follow `TaskRunner.OnSecond` and nothing is shown |
| TimeMaster.MainWindow.ReminderSecondLapse | MainWindow.cpp:79-89 | the reminder's fields follow `Reminder.OnSecond` and the logs grow by its output |
| TimeMaster.MainWindow.StartReminderClicked | MainWindow.cpp:97-101 | the reminder's fields follow `Reminder.OnStart`, the countdown stays, and its message is posted |
| TimeMaster.MainWindow.ToggleReminder | MainWindow.cpp:98-99 | running and the caption are switched as `Reminder.OnStart` says |
| TimeMaster.MainWindow.StopReminderClicked | MainWindow.cpp:103-111 | the reminder's fields follow `Reminder.OnStop`, the countdown stays, and "Timer stopped." is posted |
| TimeMaster.MainWindow.ResetReminder | MainWindow.cpp:104-109 | the reminder's fields are reset as `Reminder.OnStop` says |
| TimeMaster.MainWindow.StartTaskClicked | MainWindow.cpp:113-131 | the countdown's fields follow `TaskRunner.OnStart`, including the early return on an empty list, the reminder stays, and its message is posted |
| TimeMaster.MainWindow.StartOrToggleTask | MainWindow.cpp:114-130 | a snapshot is taken or the countdown toggled as `TaskRunner.OnStart` says |
| TimeMaster.MainWindow.StopTaskClicked | MainWindow.cpp:133-142 | the countdown's fields follow `TaskRunner.OnStop`, the reminder stays, and the quit message is posted |
| TimeMaster.MainWindow.ResetCountdown | MainWindow.cpp:134-140 | the countdown's fields are reset as `TaskRunner.OnStop` says |
| TimeMaster.MainWindow.WorkTimeSliderChanged | MainWindow.cpp:144-147 | the reminder's fields follow `Reminder.OnWorkSlider`, and nothing else changes or is shown |
| TimeMaster.MainWindow.BreakTimeSliderChanged | MainWindow.cpp:149-152 | the reminder's fields follow `Reminder.OnBreakSlider`, and nothing else changes or is shown |

## Left out

- Qt widget calls (LCD `display`, progress-bar `setValue`, button `setText`, `statusBar()->showMessage`) are assignments to the fields that stand for what each widget shows. Widget behaviour is not modelled, for example the progress bar ignoring a value outside its range (which `Reminder.Progress` can produce after a slider is moved to or below the counter) or a status message timing out.
- `startTimer` and the dispatch of `timerEvent` by timer id (MainWindow.cpp:28-29, 42-45) are left out: the two ticks are methods the caller invokes.
- The tray icon, its menu and actions and `iconActivated` (MainWindow.cpp:158-178, 209-225) are left out, and so is `closeEvent` (92-95). They are UI and OS integration without state logic. `remindUser` only appends to a notification log.
- SQLite and the table model (`initializeTable`, `on_addTaskBtn_clicked`, `on_deleteTaskBtn_clicked`, MainWindow.cpp:180-207, 227-241) are left out. They wrap a foreign library and modal dialogs. The start handler receives the list's rows and current row as inputs, and the field conversions `toString`/`toInt` are taken as already done. The constructor's empty status bar and logs assume the database opens: when `db.open()` fails, `initializeTable` posts "Unable to establish a database connection." (MainWindow.cpp:184-186) and leaves `model` unset, so the start handler's row count at line 115 would read through an unset pointer; neither is modelled.
- The initial texts of the widgets come from the form file, which is not part of this model. The model assumes both start buttons read "Start", the displays and the progress bar show 0, the status bar is empty, and each slider label shows its slider's value.
- A non-zero phase length is a precondition of the ticks (`Reminder.MinuteTickDefined`, `Reminder.SecondTickDefined`), because the source divides by `workTimeLength` and `breakTimeLength` (MainWindow.cpp:61, 81), and a slider at 0 makes that a division by zero. The ticks require a non-zero length only when they process a tick of that phase; what the program does on a division by zero is not modelled.
- C++ `int` is modelled as an unbounded integer: 32-bit overflow of the counters or of `100 * counter` is not modelled.
- `ceil` from `<cmath>` is not modelled as floating point: it only ever receives an integer quotient, so it changes nothing.
- Presentation.TruncDiv: its own `ensures` covers only non-negative dividends with positive divisors; the sign cases are stated separately by `Presentation.TruncDivSigns`.
- MainWindow.h is not part of this model: it declares an older set of fields that does not match MainWindow.cpp.
