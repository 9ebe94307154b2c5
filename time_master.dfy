/** The main window of Time Master: the fields its handlers update in place, one
    method per handler, and ghost logs of the tray notifications and status-bar
    messages it has shown. Each method leaves the reminder's fields and the task
    countdown's fields exactly as the step functions of `Reminder` and
    `TaskRunner` say, so everything proved there holds of the window. */
module TimeMaster {
  import opened Presentation
  import Reminder
  import TaskRunner

  class MainWindow {
    // The reminder.
    var isReminderWorking: bool
    var isWorking: bool
    var reminderMinuteCounter: int
    var reminderSecondCounter: int
    var workTimeLength: int
    var breakTimeLength: int

    // The task countdown.
    var isDoingTask: bool
    var isNewTask: bool
    var taskMinuteCounter: int
    var taskSecondCounter: int
    var task: TaskRunner.Task

    // What the widgets show.
    var progressValue: int
    var minuteLcdValue: int
    var secondLcdValue: int
    var startReminderCaption: Caption
    var startTaskCaption: Caption
    var workTimeText: string
    var breakTimeText: string
    var statusMessage: string

    /** Every tray notification raised so far, in order. */
    ghost var notifications: seq<string>
    /** Every status-bar message posted so far, in order. */
    ghost var statusLog: seq<string>

    /** The reminder's fields as one value. */
    function ReminderView(): Reminder.State
      reads this`isReminderWorking, this`isWorking, this`reminderMinuteCounter,
            this`reminderSecondCounter, this`workTimeLength, this`breakTimeLength,
            this`progressValue, this`startReminderCaption, this`workTimeText, this`breakTimeText
    {
      Reminder.State(isReminderWorking, isWorking, reminderMinuteCounter, reminderSecondCounter,
                     workTimeLength, breakTimeLength, progressValue, startReminderCaption,
                     workTimeText, breakTimeText)
    }

    /** The task countdown's fields as one value. */
    function TaskView(): TaskRunner.State
      reads this`isDoingTask, this`isNewTask, this`taskMinuteCounter, this`taskSecondCounter,
            this`task, this`minuteLcdValue, this`secondLcdValue, this`startTaskCaption
    {
      TaskRunner.State(isDoingTask, isNewTask, taskMinuteCounter, taskSecondCounter, task,
                       minuteLcdValue, secondLcdValue, startTaskCaption)
    }

    /** The status bar holds the last message posted. */
    ghost predicate StatusValid()
      reads this`statusMessage, this`statusLog
    {
      statusLog != [] ==> statusMessage == statusLog[|statusLog| - 1]
    }

    ghost predicate Valid()
      reads this
    {
      Reminder.Valid(ReminderView()) && TaskRunner.Valid(TaskView()) && StatusValid()
    }

    /** Since the method began, exactly the notices and messages of `o` were shown. */
    twostate predicate Shows(o: Output)
      reads this`notifications, this`statusLog, this`statusMessage
    {
      notifications == old(notifications) + o.notices &&
      statusLog == old(statusLog) + o.messages &&
      statusMessage == Shown(old(statusMessage), o)
    }

    /** The constructor, given the sliders' initial positions. */
    constructor (workValue: int, breakValue: int)
      ensures Valid()
      ensures ReminderView() == Reminder.Initial(workValue, breakValue)
      ensures TaskView() == TaskRunner.Initial()
      ensures notifications == [] && statusLog == [] && statusMessage == ""
    {
      isReminderWorking := false;
      isWorking := true;
      isDoingTask := false;
      isNewTask := true;
      reminderMinuteCounter := 0;
      reminderSecondCounter := 0;
      taskMinuteCounter := 0;
      taskSecondCounter := 0;
      workTimeLength := workValue;
      breakTimeLength := breakValue;
      task := TaskRunner.Task("", 0);
      progressValue := 0;
      minuteLcdValue := 0;
      secondLcdValue := 0;
      startReminderCaption := Start;
      startTaskCaption := Start;
      workTimeText := Decimal(workValue) + " min";
      breakTimeText := Decimal(breakValue) + " sec";
      statusMessage := "";
      notifications := [];
      statusLog := [];
    }

    /** Raises a tray notification. */
    method RemindUser(prompt: string)
      modifies this`notifications
      ensures notifications == old(notifications) + [prompt]
    {
      notifications := notifications + [prompt];
    }

    /** Posts a status-bar message. */
    method ShowMessage(message: string)
      modifies this`statusMessage, this`statusLog
      ensures statusMessage == message && statusLog == old(statusLog) + [message]
      ensures StatusValid()
    {
      statusMessage := message;
      statusLog := statusLog + [message];
    }

    /** The minute tick: the task countdown first, then the reminder. */
    method MinuteLapse()
      requires Valid() && Reminder.MinuteTickDefined(ReminderView())
      modifies this
      ensures Valid()
      ensures var t := TaskRunner.OnMinute(old(TaskView()));
        var r := Reminder.OnMinute(old(ReminderView()));
        TaskView() == t.state && ReminderView() == r.state && Shows(Then(t.out, r.out))
    {
      ghost var t := TaskRunner.OnMinute(TaskView());
      ghost var r := Reminder.OnMinute(ReminderView());
      TaskMinuteLapse();
      ReminderMinuteLapse();
      ShownThen(old(statusMessage), t.out, r.out);
    }

    /** The task countdown's block of the minute tick. */
    method TaskMinuteLapse()
      requires TaskRunner.Valid(TaskView())
      modifies this`isDoingTask, this`taskMinuteCounter, this`minuteLcdValue,
               this`secondLcdValue, this`notifications
      ensures TaskRunner.Valid(TaskView())
      ensures var t := TaskRunner.OnMinute(old(TaskView()));
        TaskView() == t.state && notifications == old(notifications) + t.out.notices &&
        t.out.messages == []
      ensures isReminderWorking == old(isReminderWorking) && isWorking == old(isWorking)
      ensures reminderMinuteCounter == old(reminderMinuteCounter)
      ensures reminderSecondCounter == old(reminderSecondCounter)
      ensures workTimeLength == old(workTimeLength) && breakTimeLength == old(breakTimeLength)
      ensures progressValue == old(progressValue) && startReminderCaption == old(startReminderCaption)
      ensures workTimeText == old(workTimeText) && breakTimeText == old(breakTimeText)
    {
      if isDoingTask {
        taskMinuteCounter := taskMinuteCounter - 1;
        minuteLcdValue := taskMinuteCounter;
        if taskMinuteCounter < 0 {
          minuteLcdValue := 0;
          secondLcdValue := 0;
          isDoingTask := false;
          RemindUser(TaskRunner.ExpiryNotice(task));
        }
      }
    }

    /** The reminder's block of the minute tick. */
    method ReminderMinuteLapse()
      requires Reminder.Valid(ReminderView()) && Reminder.MinuteTickDefined(ReminderView())
      requires StatusValid()
      modifies this`reminderMinuteCounter, this`progressValue, this`isWorking,
               this`notifications, this`statusMessage, this`statusLog
      ensures Reminder.Valid(ReminderView()) && StatusValid()
      ensures var r := Reminder.OnMinute(old(ReminderView()));
        ReminderView() == r.state && Shows(r.out)
    {
      if isReminderWorking && isWorking {
        reminderMinuteCounter := reminderMinuteCounter + 1;
        progressValue := Reminder.Progress(reminderMinuteCounter, workTimeLength);
        if reminderMinuteCounter >= workTimeLength {
          reminderMinuteCounter := 0;
          RemindUser(Reminder.TakeBreakNotice);
          ShowMessage(Reminder.BreakingMessage);
          isWorking := !isWorking;
        }
      }
    }

    /** The second tick: the task countdown first, then the reminder. */
    method SecondLapse()
      requires Valid() && Reminder.SecondTickDefined(ReminderView())
      modifies this
      ensures Valid()
      ensures var t := TaskRunner.OnSecond(old(TaskView()));
        var r := Reminder.OnSecond(old(ReminderView()));
        TaskView() == t.state && ReminderView() == r.state && Shows(Then(t.out, r.out))
    {
      TaskSecondLapse();
      ReminderSecondLapse();
    }

    /** The task countdown's block of the second tick. */
    method TaskSecondLapse()
      requires TaskRunner.Valid(TaskView())
      modifies this`taskSecondCounter, this`secondLcdValue
      ensures TaskRunner.Valid(TaskView())
      ensures var t := TaskRunner.OnSecond(old(TaskView()));
        TaskView() == t.state && t.out == Silent
    {
      if isDoingTask {
        taskSecondCounter := taskSecondCounter - 1;
        if taskSecondCounter == -1 {
          taskSecondCounter := 60;
        }
        secondLcdValue := taskSecondCounter;
      }
    }

    /** The reminder's block of the second tick. */
    method ReminderSecondLapse()
      requires Reminder.Valid(ReminderView()) && Reminder.SecondTickDefined(ReminderView())
      requires StatusValid()
      modifies this`reminderSecondCounter, this`progressValue, this`isWorking,
               this`notifications, this`statusMessage, this`statusLog
      ensures Reminder.Valid(ReminderView()) && StatusValid()
      ensures var r := Reminder.OnSecond(old(ReminderView()));
        ReminderView() == r.state && Shows(r.out)
    {
      if isReminderWorking && !isWorking {
        reminderSecondCounter := reminderSecondCounter + 1;
        progressValue := Reminder.Progress(reminderSecondCounter, breakTimeLength);
        if reminderSecondCounter >= breakTimeLength {
          reminderSecondCounter := 0;
          RemindUser(Reminder.MoveOnNotice);
          ShowMessage(Reminder.WorkingMessage);
          isWorking := !isWorking;
          progressValue := 0;
        }
      }
    }

    /** The reminder's start/pause button. */
    method StartReminderClicked()
      requires Valid()
      modifies this`isReminderWorking, this`startReminderCaption, this`statusMessage, this`statusLog
      ensures Valid()
      ensures var r := Reminder.OnStart(old(ReminderView()));
        ReminderView() == r.state && TaskView() == old(TaskView()) && Shows(r.out)
    {
      ToggleReminder();
      ShowMessage(if !isReminderWorking then Reminder.PausedMessage
                  else if isWorking then Reminder.WorkingMessage else Reminder.BreakingMessage);
    }

    /** The fields the reminder's start/pause button changes. */
    method ToggleReminder()
      requires Reminder.Valid(ReminderView())
      modifies this`isReminderWorking, this`startReminderCaption
      ensures Reminder.Valid(ReminderView())
      ensures ReminderView() == Reminder.OnStart(old(ReminderView())).state
    {
      isReminderWorking := !isReminderWorking;
      startReminderCaption := if !isReminderWorking then Start else Pause;
    }

    /** The reminder's stop button. */
    method StopReminderClicked()
      requires Valid()
      modifies this`isReminderWorking, this`isWorking, this`startReminderCaption, this`progressValue,
               this`reminderMinuteCounter, this`reminderSecondCounter,
               this`statusMessage, this`statusLog
      ensures Valid()
      ensures var r := Reminder.OnStop(old(ReminderView()));
        ReminderView() == r.state && TaskView() == old(TaskView()) && Shows(r.out)
    {
      ResetReminder();
      ShowMessage(Reminder.StoppedMessage);
    }

    /** The fields the reminder's stop button changes. */
    method ResetReminder()
      requires Reminder.Valid(ReminderView())
      modifies this`isReminderWorking, this`isWorking, this`startReminderCaption, this`progressValue,
               this`reminderMinuteCounter, this`reminderSecondCounter
      ensures Reminder.Valid(ReminderView())
      ensures ReminderView() == Reminder.OnStop(old(ReminderView())).state
    {
      isReminderWorking := false;
      isWorking := true;
      startReminderCaption := Start;
      progressValue := 0;
      reminderMinuteCounter := 0;
      reminderSecondCounter := 0;
    }

    /** The task start/pause/resume button, given the rows of the task list and the
        row the table view reports as current (-1 when there is none). */
    method StartTaskClicked(rows: seq<TaskRunner.Task>, currentRow: int)
      requires Valid() && TaskRunner.RowOf(rows, currentRow)
      modifies this`task, this`taskMinuteCounter, this`taskSecondCounter, this`isDoingTask,
               this`isNewTask, this`minuteLcdValue, this`startTaskCaption,
               this`statusMessage, this`statusLog
      ensures Valid()
      ensures var t := TaskRunner.OnStart(old(TaskView()), rows, currentRow);
        TaskView() == t.state && ReminderView() == old(ReminderView()) && Shows(t.out)
    {
      if isNewTask && |rows| == 0 {
        return;
      }
      StartOrToggleTask(rows, currentRow);
      ShowMessage(if isDoingTask then TaskRunner.CurrentTaskMessage(task)
                  else TaskRunner.PausedMessage);
    }

    /** The fields the task start button changes when it does not return early:
        a new snapshot, or a pause or resume of the current one. */
    method StartOrToggleTask(rows: seq<TaskRunner.Task>, currentRow: int)
      requires TaskRunner.Valid(TaskView()) && TaskRunner.RowOf(rows, currentRow)
      requires isNewTask ==> |rows| > 0
      modifies this`task, this`taskMinuteCounter, this`taskSecondCounter, this`isDoingTask,
               this`isNewTask, this`minuteLcdValue, this`startTaskCaption
      ensures TaskRunner.Valid(TaskView())
      ensures TaskView() == TaskRunner.OnStart(old(TaskView()), rows, currentRow).state
    {
      if isNewTask {
        var row := currentRow;
        if row == -1 {
          row := 0;
        }
        var record := rows[row];
        task := TaskRunner.Task(record.description, record.timeLimit);
        taskMinuteCounter := task.timeLimit - 1;
        taskSecondCounter := 60;
        isDoingTask := true;
        isNewTask := false;
        minuteLcdValue := taskMinuteCounter;
      } else {
        isDoingTask := !isDoingTask;
      }
      startTaskCaption := if isDoingTask then Pause else Resume;
    }

    /** The task stop button. */
    method StopTaskClicked()
      requires Valid()
      modifies this`isDoingTask, this`isNewTask, this`startTaskCaption, this`minuteLcdValue,
               this`secondLcdValue, this`taskMinuteCounter, this`taskSecondCounter,
               this`statusMessage, this`statusLog
      ensures Valid()
      ensures var t := TaskRunner.OnStop(old(TaskView()));
        TaskView() == t.state && ReminderView() == old(ReminderView()) && Shows(t.out)
    {
      ResetCountdown();
      ShowMessage(TaskRunner.QuitMessage);
    }

    /** The fields the task stop button changes. */
    method ResetCountdown()
      requires TaskRunner.Valid(TaskView())
      modifies this`isDoingTask, this`isNewTask, this`startTaskCaption, this`minuteLcdValue,
               this`secondLcdValue, this`taskMinuteCounter, this`taskSecondCounter
      ensures TaskRunner.Valid(TaskView())
      ensures TaskView() == TaskRunner.OnStop(old(TaskView())).state
    {
      isDoingTask := false;
      isNewTask := true;
      startTaskCaption := Start;
      minuteLcdValue := 0;
      secondLcdValue := 0;
      taskMinuteCounter := 0;
      taskSecondCounter := 0;
    }

    /** The work-length slider moved to `val` minutes. */
    method WorkTimeSliderChanged(val: int)
      requires Valid()
      modifies this`workTimeLength, this`workTimeText
      ensures Valid()
      ensures ReminderView() == Reminder.OnWorkSlider(old(ReminderView()), val)
      ensures TaskView() == old(TaskView()) && Shows(Silent)
    {
      workTimeLength := val;
      workTimeText := Decimal(workTimeLength) + " min";
    }

    /** The break-length slider moved to `val` seconds. */
    method BreakTimeSliderChanged(val: int)
      requires Valid()
      modifies this`breakTimeLength, this`breakTimeText
      ensures Valid()
      ensures ReminderView() == Reminder.OnBreakSlider(old(ReminderView()), val)
      ensures TaskView() == old(TaskView()) && Shows(Silent)
    {
      breakTimeLength := val;
      breakTimeText := Decimal(breakTimeLength) + " sec";
    }
  }

  /** A two-minute work phase, driven through the window. */
  method ReminderScenario()
  {
    var w := new MainWindow(2, 3);
    w.StartReminderClicked();
    w.MinuteLapse();
    w.MinuteLapse();
    assert !w.isWorking && w.reminderMinuteCounter == 0;
    assert w.notifications == [Reminder.TakeBreakNotice];
    assert w.statusMessage == Reminder.BreakingMessage;
  }

  /** A one-minute task runs out on the first minute tick it runs for; the tick
      that arrives while it is paused does not count. */
  method TaskScenario()
  {
    var w := new MainWindow(25, 30);
    var rows := [TaskRunner.Task("Read", 1)];
    w.StartTaskClicked(rows, -1);
    assert w.task == rows[0] && w.isDoingTask && w.taskMinuteCounter == 0;
    w.StartTaskClicked(rows, 0);
    w.MinuteLapse();
    assert !w.isDoingTask && w.startTaskCaption == Resume && w.notifications == [];
    w.StartTaskClicked([], -1);
    w.MinuteLapse();
    assert !w.isDoingTask && w.notifications == [TaskRunner.ExpiryNotice(rows[0])];
  }
}
