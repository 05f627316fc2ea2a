/** Conversations a user can have with the bot, driven through the
    handlers from a fresh process. Each assert states what the user sees
    or what the store holds at that point. */
module Scenarios {
  import opened Wrappers
  import opened Digits
  import opened TimeFormat
  import opened Schedule
  import opened Routing
  import opened Bot

  /** "Add task", then "12:30 Обед": the store holds that one task. */
  method AddLunch(u: UserId) {
    var bot := new Scheduler();
    var state, reply := bot.HandleMessage(u, ADD_LABEL);
    assert state == Time && reply == AskTaskInput;
    LunchInput();
    state, reply := bot.AddTaskTime(u, "12:30 Обед");
    assert state == End && reply == Added("12:30", "Обед");
    assert bot.tasks == map[u := [Entry("12:30", "Обед")]];
  }

  lemma LunchInput()
    ensures ParseAddInput("12:30 Обед") == Some(("12:30", "Обед"))
    ensures Upsert([], "12:30", "Обед") == [Entry("12:30", "Обед")]
  {
    assert Lookup([], "12:30").None?;
    assert IsValidTime("12:30") by { assert "12:30"[..2] == "12" && "12:30"[3..] == "30"; }
    AddInputRoundTrip("12:30", "Обед");
    assert "12:30 Обед" == "12:30" + " " + "Обед";
  }

  lemma TwoTasksWellFormed(a: Entry, b: Entry)
    requires a == Entry("09:00", "A") && b == Entry("10:00", "B")
    ensures WellFormed([a, b])
  {
    assert IsValidTime("09:00") by { assert "09:00"[..2] == "09" && "09:00"[3..] == "00"; }
    assert IsValidTime("10:00") by { assert "10:00"[..2] == "10" && "10:00"[3..] == "00"; }
  }

  lemma EditInputs()
    ensures ParseInt("1") == Some(1) && IsValidTime("09:15")
  {
    assert IsValidTime("09:15") by { assert "09:15"[..2] == "09" && "09:15"[3..] == "15"; }
    assert DigitsValue("1") == 1 by { assert "1"[..0] == []; }
  }

  lemma EditFirstCommit(a: Entry, b: Entry, c: Entry)
    requires a == Entry("09:00", "A") && b == Entry("10:00", "B") && c == Entry("09:15", "C")
    ensures EditCommit([a, b], "09:00", "09:15", "C") == [b, c]
  {
    assert IndexOf([a, b], "09:00") == 0;
    assert Remove([a, b], "09:00") == [a, b][1..] == [b];
    assert "10:00" != "09:15" by { assert "10:00"[0] != "09:15"[0]; }
    assert IndexOf([b], "09:15") == -1;
    assert Upsert([b], "09:15", "C") == [b] + [c];
  }

  /** "Edit task" with nothing stored: the flow is not entered. */
  method EditEmpty(u: UserId) {
    var bot := new Scheduler();
    var state, reply := bot.HandleMessage(u, EDIT_LABEL);
    assert state == End && reply == NothingToEdit;
  }

  /** Editing the first of two tasks to a new time and description: the
      old key is gone, the other task is kept, and the edited task is now
      last in insertion order. */
  method EditFirst(u: UserId) {
    var a, b, c := Entry("09:00", "A"), Entry("10:00", "B"), Entry("09:15", "C");
    TwoTasksWellFormed(a, b);
    EditInputs();
    EditFirstCommit(a, b, c);
    var bot := new Scheduler();
    bot.tasks := map[u := [a, b]];
    var state, reply := bot.EditTaskStart(u);
    assert reply == EditMenu([a, b]);
    state, reply := bot.EditTaskChoice(u, "1");
    assert bot.tasks == map[u := [a, b]] && bot.userData[u].editTime == Some("09:00");
    state, reply := bot.EditTaskTime(u, "09:15");
    assert bot.tasks == map[u := [a, b]] && bot.userData[u] == Scratch(Some("09:00"), Some("09:15"));
    state, reply := bot.EditTaskDescription(u, "C");
    assert reply == Updated("09:15", "C");
    assert bot.tasks[u] == [b, c];
  }

  /** "Delete task", then an hour past 23 (refused, asked again), then a
      stored time: that task is deleted. */
  method DeleteAfterBadTime(u: UserId) {
    var entry := Entry("09:15", "C");
    var bot := new Scheduler();
    bot.tasks := map[u := [entry]];
    assert IsValidTime("09:15") by { assert "09:15"[..2] == "09" && "09:15"[3..] == "15"; }

    var state, reply := bot.HandleMessage(u, DELETE_LABEL);
    assert state == DeleteTime;
    assert !IsValidTime("25:00") by { assert "25:00"[..2] == "25"; }
    state, reply := bot.RemoveTaskTime(u, "25:00");
    assert state == DeleteTime && reply == BadDeleteTime;
    assert Lookup([entry], "09:15") == Some("C");
    state, reply := bot.RemoveTaskTime(u, "09:15");
    assert state == End && reply == Deleted("09:15");
    assert bot.tasks[u] == [];
  }

  /** Clearing twice leaves the same store as clearing once. */
  method ClearTwice(u: UserId) {
    var bot := new Scheduler();
    var state, reply := bot.HandleMessage(u, CLEAR_LABEL);
    var once := bot.tasks;
    state, reply := bot.HandleMessage(u, CLEAR_LABEL);
    assert bot.tasks == once && state == End && reply == Cleared;
  }
}
