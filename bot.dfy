/** The handlers of bot.py over the process-wide state they share: the
    store user_tasks (bot.py:21) and each user's context.user_data, where
    the edit flow keeps its scratch keys. Each handler is a method that
    returns the conversation state it hands back to the library together
    with an abstract tag for the text it sends. */
module Bot {
  import opened Wrappers
  import opened Digits
  import opened TimeFormat
  import opened Schedule
  import opened Routing

  type UserId = int

  /** The conversation states of bot.py:20 and ConversationHandler.END.
      The source also declares TASK, which no handler returns. */
  datatype State = End | Time | DeleteTime | EditChoice | EditTime | EditTask

  /** context.user_data['edit_time'] and context.user_data['new_time']. */
  datatype Scratch = Scratch(editTime: Option<string>, newTime: Option<string>)

  /** What the bot answers, without the message text and the keyboard. */
  datatype Reply =
    | AskTaskInput | BadTaskInput | Added(time: string, task: string)
    | NothingToEdit | EditMenu(items: seq<Entry>) | NotANumber | BadNumber
    | AskNewTime | BadNewTime | AskNewDescription | Updated(time: string, task: string)
    | AskDeleteTime | BadDeleteTime | Deleted(time: string) | NotFound
    | EmptySchedule | Listing(items: seq<Entry>)
    | Cleared | HelpText | UseTheButtons
    | Unanswered  // no handler of the model takes the message; nothing is sent

  type Store = map<UserId, seq<Entry>>

  /** What every schedule the handlers build satisfies: no time key twice,
      and every key accepted by is_valid_time. */
  predicate WellFormed(s: seq<Entry>) {
    UniqueTimes(s) && forall i | 0 <= i < |s| :: IsValidTime(s[i].time)
  }

  /** Every user's schedule in the store is well formed. */
  ghost predicate StoreWellFormed(store: Store) {
    forall u | u in store :: WellFormed(store[u])
  }

  /** Replacing one user's schedule by a well-formed one keeps the whole
      store well formed. */
  lemma ReplaceWellFormed(store: Store, u: UserId, s: seq<Entry>)
    requires StoreWellFormed(store) && WellFormed(s)
    ensures StoreWellFormed(store[u := s])
  {
  }

  lemma UpsertWellFormed(s: seq<Entry>, time: string, task: string)
    requires WellFormed(s) && IsValidTime(time)
    ensures WellFormed(Upsert(s, time, task))
  {
    UpsertSpec(s, time, task);
    var r := Upsert(s, time, task);
    var at := if IndexOf(s, time) < 0 then |s| else IndexOf(s, time);
    forall j | 0 <= j < |r|
      ensures IsValidTime(r[j].time)
    {
      if j != at {
        assert r[j] == s[j];
      }
    }
  }

  lemma RemoveWellFormed(s: seq<Entry>, time: string)
    requires WellFormed(s)
    ensures WellFormed(Remove(s, time))
  {
    RemoveSpec(s, time);
    var r := Remove(s, time);
    var i := IndexOf(s, time);
    if i >= 0 {
      RemovedShift(s, time);
      forall j | 0 <= j < |r|
        ensures IsValidTime(r[j].time)
      {
        assert r[j] == s[if j < i then j else j + 1];
      }
    }
  }

  lemma EditCommitWellFormed(s: seq<Entry>, oldTime: string, newTime: string, newTask: string)
    requires WellFormed(s) && IsValidTime(newTime)
    ensures WellFormed(EditCommit(s, oldTime, newTime, newTask))
  {
    RemoveWellFormed(s, oldTime);
    UpsertWellFormed(Remove(s, oldTime), newTime, newTask);
  }

  /** user_tasks[user_id].clear() when the user has a schedule. The entry
      itself stays, emptied. */
  function ClearedFor(store: Store, u: UserId): (r: Store)
    ensures u in store <==> u in r
    ensures u in r ==> r[u] == []
    ensures forall v | v != u :: (v in r <==> v in store) && (v in r ==> r[v] == store[v])
  {
    if u in store then store[u := []] else store
  }

  /** Clearing twice is clearing once. */
  lemma ClearedIdempotent(store: Store, u: UserId)
    ensures ClearedFor(ClearedFor(store, u), u) == ClearedFor(store, u)
  {
  }

  /** The task the edit menu numbers n (from 1, in insertion order), or
      None when n is not a position of the menu. */
  function ChosenTime(s: seq<Entry>, n: int): (r: Option<string>)
    ensures r.Some? <==> 1 <= n <= |s|
    ensures r.Some? ==> Lookup(s, r.value).Some?
  {
    if 1 <= n <= |s| then Some(s[n - 1].time) else None
  }

  /** What the handler of a state needs from the steps before it, given
      the user's schedule (None when user_tasks has no entry for the user)
      and scratch data: the edit handlers index user_tasks[user_id], and
      the later ones read the scratch keys the earlier ones wrote. The key
      chosen for editing is one of the stored keys, since within one
      conversation nothing else changes this user's schedule while the
      edit flow waits. */
  predicate Prepared(state: State, schedule: Option<seq<Entry>>, scratch: Scratch) {
    match state
    case EditChoice => schedule.Some?
    case EditTime =>
      schedule.Some? && scratch.editTime.Some? && Lookup(schedule.value, scratch.editTime.value).Some?
    case EditTask =>
      && schedule.Some? && scratch.editTime.Some? && scratch.newTime.Some?
      && Lookup(schedule.value, scratch.editTime.value).Some?
    case _ => true
  }

  /** The effect of one message on its sender's part of the state. */
  datatype Outcome = Outcome(next: State, reply: Reply, schedule: Option<seq<Entry>>, scratch: Scratch)

  /** handle_message: the outcome of a text outside any flow. */
  function MessageOutcome(schedule: Option<seq<Entry>>, scratch: Scratch, text: string): (o: Outcome)
    ensures o.scratch == scratch
    ensures o.schedule != schedule ==> Route(text) == ClearAll && o.schedule == Some([])
    ensures o.next != End <==> Route(text) in {StartAdd, StartDelete} || (Route(text) == StartEdit && schedule.Some? && schedule.value != [])
  {
    var empty := schedule.None? || schedule.value == [];
    match Route(text)
    case StartAdd => Outcome(Time, AskTaskInput, schedule, scratch)
    case StartDelete => Outcome(DeleteTime, AskDeleteTime, schedule, scratch)
    case StartEdit =>
      if empty then Outcome(End, NothingToEdit, schedule, scratch)
      else Outcome(EditChoice, EditMenu(schedule.value), schedule, scratch)
    case ShowSchedule =>
      if empty then Outcome(End, EmptySchedule, schedule, scratch)
      else Outcome(End, Listing(SortedView(schedule.value)), schedule, scratch)
    case ClearAll => Outcome(End, Cleared, if schedule.Some? then Some([]) else None, scratch)
    case ShowHelp => Outcome(End, HelpText, schedule, scratch)
    case UseButtons => Outcome(End, UseTheButtons, schedule, scratch)
  }

  /** add_task_time. */
  function AddTimeOutcome(schedule: Option<seq<Entry>>, scratch: Scratch, text: string): (o: Outcome)
    ensures o.scratch == scratch
    ensures o.next == Time <==> !MatchesAddPattern(text)
    ensures o.next == Time ==> o.schedule == schedule
    ensures o.next != Time ==> o.next == End && o.schedule.Some? && o.reply.Added? && Entry(o.reply.time, o.reply.task) in o.schedule.value
  {
    var parsed := ParseAddInput(text);
    if parsed.None? then Outcome(Time, BadTaskInput, schedule, scratch)
    else
      var (time, task) := parsed.value;
      var before := if schedule.Some? then schedule.value else [];
      UpsertKeepsOthers(before, time, task);
      Outcome(End, Added(time, task), Some(Upsert(before, time, task)), scratch)
  }

  /** remove_task_time. */
  function RemoveTimeOutcome(schedule: Option<seq<Entry>>, scratch: Scratch, text: string): (o: Outcome)
    ensures o.scratch == scratch
    ensures o.next == DeleteTime <==> !IsValidTime(text)
    ensures o.next != DeleteTime ==> o.next == End
    ensures o.schedule != schedule <==> o.reply == Deleted(text)
  {
    if !IsValidTime(text) then Outcome(DeleteTime, BadDeleteTime, schedule, scratch)
    else if schedule.Some? && Lookup(schedule.value, text).Some? then
      Outcome(End, Deleted(text), Some(Remove(schedule.value, text)), scratch)
    else Outcome(End, NotFound, schedule, scratch)
  }

  /** edit_task_choice. */
  function EditChoiceOutcome(schedule: Option<seq<Entry>>, scratch: Scratch, text: string): (o: Outcome)
    requires schedule.Some?
    ensures o.schedule == schedule && o.scratch.newTime == scratch.newTime
    ensures o.next == EditTime <==> ParseInt(text).Some? && 1 <= ParseInt(text).value <= |schedule.value|
    ensures o.next == EditTime ==> o.scratch.editTime.Some? && Lookup(schedule.value, o.scratch.editTime.value).Some?
    ensures o.next != EditTime ==> o.next == EditChoice && o.scratch == scratch
  {
    var number := ParseInt(text);
    if number.None? then Outcome(EditChoice, NotANumber, schedule, scratch)
    else
      var chosen := ChosenTime(schedule.value, number.value);
      if chosen.None? then Outcome(EditChoice, BadNumber, schedule, scratch)
      else Outcome(EditTime, AskNewTime, schedule, scratch.(editTime := chosen))
  }

  /** edit_task_time. */
  function EditTimeOutcome(schedule: Option<seq<Entry>>, scratch: Scratch, text: string): (o: Outcome)
    ensures o.schedule == schedule
    ensures o.next == EditTask <==> IsValidTime(text)
    ensures o.next == EditTask ==> o.scratch == scratch.(newTime := Some(text))
    ensures o.next != EditTask ==> o.next == EditTime && o.scratch == scratch
  {
    if !IsValidTime(text) then Outcome(EditTime, BadNewTime, schedule, scratch)
    else Outcome(EditTask, AskNewDescription, schedule, scratch.(newTime := Some(text)))
  }

  /** edit_task_description. */
  function EditDescriptionOutcome(schedule: Option<seq<Entry>>, scratch: Scratch, text: string): (o: Outcome)
    requires schedule.Some? && scratch.editTime.Some? && scratch.newTime.Some?
    ensures o.next == End && o.scratch == scratch && o.schedule.Some?
    ensures Entry(scratch.newTime.value, text) in o.schedule.value
    ensures forall e | e in o.schedule.value && e != Entry(scratch.newTime.value, text) :: e in schedule.value
  {
    var (oldTime, newTime) := (scratch.editTime.value, scratch.newTime.value);
    Outcome(End, Updated(newTime, text), Some(EditCommit(schedule.value, oldTime, newTime, text)), scratch)
  }

  /** The conversation of one user as a pure transition: the handler of
      state applied to text, or handle_message outside a flow. */
  function Transition(state: State, schedule: Option<seq<Entry>>, scratch: Scratch, text: string): (o: Outcome)
    requires Prepared(state, schedule, scratch)
    ensures Prepared(o.next, o.schedule, o.scratch)
    ensures o.schedule != schedule ==> o.next == End
    ensures o.next == state && state != End ==> o.schedule == schedule && o.scratch == scratch
    ensures schedule.Some? ==> o.schedule.Some?
    ensures state != Time ==> o.schedule.Some? == schedule.Some?
  {
    match state
    case End => MessageOutcome(schedule, scratch, text)
    case Time => AddTimeOutcome(schedule, scratch, text)
    case DeleteTime => RemoveTimeOutcome(schedule, scratch, text)
    case EditChoice => EditChoiceOutcome(schedule, scratch, text)
    case EditTime => EditTimeOutcome(schedule, scratch, text)
    case EditTask => EditDescriptionOutcome(schedule, scratch, text)
  }

  /** The user's part of the invariant: the schedule, if any, is well
      formed and a recorded new_time passed is_valid_time. */
  predicate Sound(schedule: Option<seq<Entry>>, scratch: Scratch) {
    && (schedule.Some? ==> WellFormed(schedule.value))
    && (scratch.newTime.Some? ==> IsValidTime(scratch.newTime.value))
  }

  lemma MessageKeepsSound(schedule: Option<seq<Entry>>, scratch: Scratch, text: string)
    requires Sound(schedule, scratch)
    ensures var o := MessageOutcome(schedule, scratch, text); Sound(o.schedule, o.scratch)
  {
    var o := MessageOutcome(schedule, scratch, text);
    assert o.scratch == scratch && (o.schedule == schedule || o.schedule == Some([]));
  }

  lemma EditChoiceKeepsSound(schedule: Option<seq<Entry>>, scratch: Scratch, text: string)
    requires schedule.Some? && Sound(schedule, scratch)
    ensures var o := EditChoiceOutcome(schedule, scratch, text); Sound(o.schedule, o.scratch)
  {
    var o := EditChoiceOutcome(schedule, scratch, text);
    assert o.schedule == schedule && o.scratch.newTime == scratch.newTime;
  }

  lemma EditTimeKeepsSound(schedule: Option<seq<Entry>>, scratch: Scratch, text: string)
    requires Sound(schedule, scratch)
    ensures var o := EditTimeOutcome(schedule, scratch, text); Sound(o.schedule, o.scratch)
  {
  }

  lemma AddTimeKeepsSound(schedule: Option<seq<Entry>>, scratch: Scratch, text: string)
    requires Sound(schedule, scratch)
    ensures var o := AddTimeOutcome(schedule, scratch, text); Sound(o.schedule, o.scratch)
  {
    var parsed := ParseAddInput(text);
    if parsed.Some? {
      var (time, task) := parsed.value;
      UpsertWellFormed(if schedule.Some? then schedule.value else [], time, task);
    }
  }

  lemma RemoveTimeKeepsSound(schedule: Option<seq<Entry>>, scratch: Scratch, text: string)
    requires Sound(schedule, scratch)
    ensures var o := RemoveTimeOutcome(schedule, scratch, text); Sound(o.schedule, o.scratch)
  {
    if schedule.Some? {
      RemoveWellFormed(schedule.value, text);
    }
  }

  lemma EditDescriptionKeepsSound(schedule: Option<seq<Entry>>, scratch: Scratch, text: string)
    requires schedule.Some? && scratch.editTime.Some? && scratch.newTime.Some?
    requires Sound(schedule, scratch)
    ensures var o := EditDescriptionOutcome(schedule, scratch, text); Sound(o.schedule, o.scratch)
  {
    EditCommitWellFormed(schedule.value, scratch.editTime.value, scratch.newTime.value, text);
  }

  /** Every transition keeps the user's part of the invariant. */
  lemma TransitionKeepsSound(state: State, schedule: Option<seq<Entry>>, scratch: Scratch, text: string)
    requires Prepared(state, schedule, scratch) && Sound(schedule, scratch)
    ensures var o := Transition(state, schedule, scratch, text); Sound(o.schedule, o.scratch)
  {
    match state
    case End => MessageKeepsSound(schedule, scratch, text);
    case Time => AddTimeKeepsSound(schedule, scratch, text);
    case DeleteTime => RemoveTimeKeepsSound(schedule, scratch, text);
    case EditChoice => EditChoiceKeepsSound(schedule, scratch, text);
    case EditTime => EditTimeKeepsSound(schedule, scratch, text);
    case EditTask => EditDescriptionKeepsSound(schedule, scratch, text);
  }

  class Scheduler {
    var tasks: Store
    var userData: map<UserId, Scratch>

    /** Stored schedules are well formed, and a new_time in the scratch
        always passed is_valid_time. */
    ghost predicate Valid()
      reads this
    {
      && StoreWellFormed(tasks)
      && (forall u | u in userData && userData[u].newTime.Some? :: IsValidTime(userData[u].newTime.value))
    }

    constructor ()
      ensures Valid() && tasks == map[] && userData == map[]
    {
      tasks := map[];
      userData := map[];
    }

    function ScheduleOf(u: UserId): Option<seq<Entry>>
      reads this
    {
      if u in tasks then Some(tasks[u]) else None
    }

    function ScratchOf(u: UserId): Scratch
      reads this
    {
      if u in userData then userData[u] else Scratch(None, None)
    }

    /** What the steps before a state have set up for u's handler of it. */
    ghost predicate Ready(u: UserId, state: State)
      reads this
    {
      Prepared(state, ScheduleOf(u), ScratchOf(u))
    }

    /** add_task_start: prompt for "time description" and wait in TIME. */
    method AddTaskStart() returns (next: State, reply: Reply)
      ensures next == Time && reply == AskTaskInput
    {
      next, reply := Time, AskTaskInput;
    }

    /** add_task_time: input that does not match the add pattern re-prompts
        in TIME and changes nothing; matching input is split at its first
        space and stored under the time, creating the user's schedule if
        need be, and the flow ends. */
    method AddTaskTime(u: UserId, text: string) returns (next: State, reply: Reply)
      requires Valid()
      modifies this
      ensures Valid() && userData == old(userData)
      ensures ParseAddInput(text).None? ==> next == Time && reply == BadTaskInput && tasks == old(tasks)
      ensures ParseAddInput(text).Some? ==>
        var (time, task) := ParseAddInput(text).value;
        var before := if u in old(tasks) then old(tasks)[u] else [];
        && next == End && reply == Added(time, task)
        && tasks == old(tasks)[u := Upsert(before, time, task)]
      ensures var o := AddTimeOutcome(old(ScheduleOf(u)), old(ScratchOf(u)), text);
        next == o.next && reply == o.reply && ScheduleOf(u) == o.schedule
    {
      ghost var outcome := AddTimeOutcome(ScheduleOf(u), ScratchOf(u), text);
      var parsed := ParseAddInput(text);
      if parsed.None? {
        assert outcome.next == Time && outcome.reply == BadTaskInput && outcome.schedule == ScheduleOf(u);
        return Time, BadTaskInput;
      }
      var (time, task) := parsed.value;
      var before := if u in tasks then tasks[u] else [];
      var after := Upsert(before, time, task);
      assert outcome == Outcome(End, Added(time, task), Some(after), ScratchOf(u));
      UpsertWellFormed(before, time, task);
      ReplaceWellFormed(tasks, u, after);
      tasks := tasks[u := after];
      next, reply := End, Added(time, task);
    }

    /** edit_task_start: with no schedule or an empty one the flow is not
        entered; otherwise the tasks are listed in insertion order and the
        flow waits in EDIT_CHOICE. Nothing is changed. */
    method EditTaskStart(u: UserId) returns (next: State, reply: Reply)
      ensures u !in tasks || tasks[u] == [] ==> next == End && reply == NothingToEdit
      ensures u in tasks && tasks[u] != [] ==> next == EditChoice && reply == EditMenu(tasks[u])
      ensures Ready(u, next)
    {
      if u !in tasks || tasks[u] == [] {
        return End, NothingToEdit;
      }
      next, reply := EditChoice, EditMenu(tasks[u]);
    }

    /** edit_task_choice: text that int() refuses, or a number outside
        1..len, re-prompts in EDIT_CHOICE; a number n in range records the
        time of the n-th task in insertion order as edit_time and moves to
        EDIT_TIME. The store is never changed. */
    method EditTaskChoice(u: UserId, text: string) returns (next: State, reply: Reply)
      requires Valid() && u in tasks
      modifies this
      ensures Valid() && tasks == old(tasks)
      ensures ParseInt(text).None? ==> next == EditChoice && reply == NotANumber && userData == old(userData)
      ensures ParseInt(text).Some? && ChosenTime(tasks[u], ParseInt(text).value).None? ==>
        next == EditChoice && reply == BadNumber && userData == old(userData)
      ensures ParseInt(text).Some? && ChosenTime(tasks[u], ParseInt(text).value).Some? ==>
        && next == EditTime && reply == AskNewTime
        && userData == old(userData)[u := old(ScratchOf(u)).(editTime := ChosenTime(tasks[u], ParseInt(text).value))]
      ensures Ready(u, next)
      ensures var o := EditChoiceOutcome(old(ScheduleOf(u)), old(ScratchOf(u)), text);
        next == o.next && reply == o.reply && ScheduleOf(u) == o.schedule && ScratchOf(u) == o.scratch
    {
      var number := ParseInt(text);
      if number.None? {
        return EditChoice, NotANumber;
      }
      var chosen := ChosenTime(tasks[u], number.value);
      if chosen.None? {
        return EditChoice, BadNumber;
      }
      userData := userData[u := ScratchOf(u).(editTime := chosen)];
      next, reply := EditTime, AskNewTime;
    }

    /** edit_task_time: an invalid time re-prompts in EDIT_TIME; a valid one
        is recorded as new_time and the flow moves to EDIT_TASK. The store is
        never changed. */
    method EditTaskTime(u: UserId, text: string) returns (next: State, reply: Reply)
      requires Valid()
      modifies this
      ensures Valid() && tasks == old(tasks)
      ensures !IsValidTime(text) ==> next == EditTime && reply == BadNewTime && userData == old(userData)
      ensures IsValidTime(text) ==>
        && next == EditTask && reply == AskNewDescription
        && userData == old(userData)[u := old(ScratchOf(u)).(newTime := Some(text))]
      ensures old(Ready(u, EditTime)) ==> Ready(u, next)
      ensures var o := EditTimeOutcome(old(ScheduleOf(u)), old(ScratchOf(u)), text);
        next == o.next && reply == o.reply && ScheduleOf(u) == o.schedule && ScratchOf(u) == o.scratch
    {
      if !IsValidTime(text) {
        return EditTime, BadNewTime;
      }
      userData := userData[u := ScratchOf(u).(newTime := Some(text))];
      next, reply := EditTask, AskNewDescription;
    }

    /** edit_task_description: any text is the new description; the old
        key is deleted if present, the new key is assigned, and the flow
        ends. The scratch keys are left in place, as the source leaves them. */
    method EditTaskDescription(u: UserId, text: string) returns (next: State, reply: Reply)
      requires Valid() && u in tasks && ScratchOf(u).editTime.Some? && ScratchOf(u).newTime.Some?
      modifies this
      ensures Valid() && userData == old(userData)
      ensures var scratch := old(ScratchOf(u));
        && next == End && reply == Updated(scratch.newTime.value, text)
        && tasks == old(tasks)[u := EditCommit(old(tasks)[u], scratch.editTime.value, scratch.newTime.value, text)]
      ensures var (before, oldTime, newTime) := (old(tasks)[u], old(ScratchOf(u)).editTime.value, old(ScratchOf(u)).newTime.value);
        Lookup(before, oldTime).Some? ==>
          |tasks[u]| == if oldTime != newTime && Lookup(before, newTime).Some? then |before| - 1 else |before|
      ensures var o := EditDescriptionOutcome(old(ScheduleOf(u)), old(ScratchOf(u)), text);
        next == o.next && reply == o.reply && ScheduleOf(u) == o.schedule && ScratchOf(u) == o.scratch
    {
      var scratch := userData[u];
      var oldTime, newTime := scratch.editTime.value, scratch.newTime.value;
      var edited := EditCommit(tasks[u], oldTime, newTime, text);
      EditCommitWellFormed(tasks[u], oldTime, newTime, text);
      EditCommitSpec(tasks[u], oldTime, newTime, text);
      ReplaceWellFormed(tasks, u, edited);
      tasks := tasks[u := edited];
      next, reply := End, Updated(newTime, text);
    }

    /** remove_task_start: prompt for a time and wait in DELETE_TIME. */
    method RemoveTaskStart() returns (next: State, reply: Reply)
      ensures next == DeleteTime && reply == AskDeleteTime
    {
      next, reply := DeleteTime, AskDeleteTime;
    }

    /** remove_task_time: an invalid time re-prompts in DELETE_TIME and
        changes nothing; a valid time ends the flow, deleting the task when
        the user has one at exactly that key and reporting "not found",
        with the store unchanged, otherwise. */
    method RemoveTaskTime(u: UserId, text: string) returns (next: State, reply: Reply)
      requires Valid()
      modifies this
      ensures Valid() && userData == old(userData)
      ensures !IsValidTime(text) ==> next == DeleteTime && reply == BadDeleteTime && tasks == old(tasks)
      ensures IsValidTime(text) && u in old(tasks) && Lookup(old(tasks)[u], text).Some? ==>
        && next == End && reply == Deleted(text)
        && tasks == old(tasks)[u := Remove(old(tasks)[u], text)]
      ensures IsValidTime(text) && (u !in old(tasks) || Lookup(old(tasks)[u], text).None?) ==>
        next == End && reply == NotFound && tasks == old(tasks)
      ensures var o := RemoveTimeOutcome(old(ScheduleOf(u)), old(ScratchOf(u)), text);
        next == o.next && reply == o.reply && ScheduleOf(u) == o.schedule && ScratchOf(u) == o.scratch
    {
      if !IsValidTime(text) {
        return DeleteTime, BadDeleteTime;
      }
      if u in tasks && Lookup(tasks[u], text).Some? {
        var after := Remove(tasks[u], text);
        RemoveWellFormed(tasks[u], text);
        ReplaceWellFormed(tasks, u, after);
        tasks := tasks[u := after];
        next, reply := End, Deleted(text);
      } else {
        next, reply := End, NotFound;
      }
    }

    /** view_schedule: with no tasks the "empty" answer; otherwise the
        stored entries listed in ascending order of their time keys. Nothing
        is changed. */
    method ViewSchedule(u: UserId) returns (next: State, reply: Reply)
      ensures next == End
      ensures reply == EmptySchedule <==> u !in tasks || tasks[u] == []
      ensures reply != EmptySchedule ==>
        reply.Listing? && SortedByTime(reply.items) && multiset(reply.items) == multiset(tasks[u])
      ensures reply != EmptySchedule ==> reply == Listing(SortedView(tasks[u]))
    {
      if u !in tasks || tasks[u] == [] {
        return End, EmptySchedule;
      }
      next, reply := End, Listing(SortedView(tasks[u]));
    }

    /** clear_schedule: empties the caller's schedule, if any, and nobody
        else's. */
    method ClearSchedule(u: UserId) returns (next: State, reply: Reply)
      requires Valid()
      modifies this
      ensures Valid() && userData == old(userData)
      ensures next == End && reply == Cleared
      ensures tasks == ClearedFor(old(tasks), u)
    {
      if u in tasks {
        ReplaceWellFormed(tasks, u, []);
        tasks := tasks[u := []];
      }
      next, reply := End, Cleared;
    }

    /** handle_message: a label runs its handler and passes on the state
        that handler returns; any other text gets the "use the buttons"
        answer. Only the clear label changes the store. */
    method HandleMessage(u: UserId, text: string) returns (next: State, reply: Reply)
      requires Valid()
      modifies this
      ensures Valid() && userData == old(userData)
      ensures Route(text) == ClearAll ==> tasks == ClearedFor(old(tasks), u) && next == End && reply == Cleared
      ensures Route(text) != ClearAll ==> tasks == old(tasks)
      ensures Route(text) == StartAdd ==> next == Time && reply == AskTaskInput
      ensures Route(text) == StartDelete ==> next == DeleteTime && reply == AskDeleteTime
      ensures Route(text) == StartEdit ==>
        if u in tasks && tasks[u] != [] then next == EditChoice && reply == EditMenu(tasks[u])
        else next == End && reply == NothingToEdit
      ensures Route(text) == ShowSchedule ==> next == End && (reply == EmptySchedule <==> u !in tasks || tasks[u] == [])
      ensures Route(text) == ShowSchedule && reply != EmptySchedule ==>
        reply.Listing? && SortedByTime(reply.items) && multiset(reply.items) == multiset(tasks[u])
      ensures Route(text) == ShowSchedule && reply != EmptySchedule ==> reply == Listing(SortedView(tasks[u]))
      ensures Route(text) == ShowHelp ==> next == End && reply == HelpText
      ensures Route(text) == UseButtons ==> next == End && reply == UseTheButtons
      ensures Ready(u, next)
      ensures var o := MessageOutcome(old(ScheduleOf(u)), old(ScratchOf(u)), text);
        next == o.next && reply == o.reply && ScheduleOf(u) == o.schedule && ScratchOf(u) == o.scratch
    {
      match Route(text)
      case StartAdd =>
        next, reply := AddTaskStart();
      case StartDelete =>
        next, reply := RemoveTaskStart();
      case StartEdit =>
        next, reply := EditTaskStart(u);
      case ShowSchedule =>
        next, reply := ViewSchedule(u);
      case ClearAll =>
        next, reply := ClearSchedule(u);
      case ShowHelp =>
        next, reply := End, HelpText;
      case UseButtons =>
        next, reply := End, UseTheButtons;
    }

    /** One incoming text for a user whose conversation is in state.
        command says whether Telegram marked the text as a bot command (a
        command entity at its start). Every handler here is registered
        with filters.TEXT & ~filters.COMMAND, so a command reaches none of
        them: the state, the store and the scratch data stay as they are
        and nothing is sent. Any other text goes to the handler of that
        state, or to handle_message when no flow is active. The sender's
        schedule, scratch data, next state and reply are those of
        Transition; other users' schedules and scratch data are never
        touched; the store only changes on a step that ends a flow (or
        clears outside one); a step that re-prompts in its own state
        changes nothing; and the next state finds what it needs. */
    method Step(u: UserId, state: State, text: string, command: bool) returns (next: State, reply: Reply)
      requires Valid() && Ready(u, state)
      modifies this
      ensures Valid() && Ready(u, next)
      ensures command ==> next == state && reply == Unanswered && tasks == old(tasks) && userData == old(userData)
      ensures !command ==> var o := old(Transition(state, ScheduleOf(u), ScratchOf(u), text));
        && next == o.next && reply == o.reply && ScheduleOf(u) == o.schedule && ScratchOf(u) == o.scratch
      ensures forall v | v != u :: (v in tasks <==> v in old(tasks)) && (v in tasks ==> tasks[v] == old(tasks)[v])
      ensures forall v | v != u :: (v in userData <==> v in old(userData)) && (v in userData ==> userData[v] == old(userData)[v])
      ensures tasks != old(tasks) ==> next == End
      ensures next == state && state != End ==> tasks == old(tasks) && userData == old(userData)
    {
      if command {
        return state, Unanswered;
      }
      ghost var (schedule, scratch) := (ScheduleOf(u), ScratchOf(u));
      match state
      case End =>
        assert Transition(state, schedule, scratch, text) == MessageOutcome(schedule, scratch, text);
        next, reply := HandleMessage(u, text);
      case Time =>
        assert Transition(state, schedule, scratch, text) == AddTimeOutcome(schedule, scratch, text);
        next, reply := AddTaskTime(u, text);
      case DeleteTime =>
        assert Transition(state, schedule, scratch, text) == RemoveTimeOutcome(schedule, scratch, text);
        next, reply := RemoveTaskTime(u, text);
      case EditChoice =>
        assert Transition(state, schedule, scratch, text) == EditChoiceOutcome(schedule, scratch, text);
        next, reply := EditTaskChoice(u, text);
      case EditTime =>
        assert Transition(state, schedule, scratch, text) == EditTimeOutcome(schedule, scratch, text);
        next, reply := EditTaskTime(u, text);
      case EditTask =>
        assert Transition(state, schedule, scratch, text) == EditDescriptionOutcome(schedule, scratch, text);
        next, reply := EditTaskDescription(u, text);
    }
  }
}
