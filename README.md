# Scheduling bot: time format, schedule store and conversation flows

This project models the core of a Telegram bot that keeps a per-user daily
schedule, from the single file `bot.py`. The bot lets a user add, edit, delete,
list and clear tasks keyed by a time of day. The model covers four parts:

- the time validator `is_valid_time` and the add-flow input pattern (module
  `TimeFormat`, with decimal digits and `int()` in `Digits`);
- the per-user schedule, a Python dict that keeps insertion order (module
  `Schedule`). Assigning to an existing key keeps its place, a new key goes
  last, and a delete closes the gap. `sorted()` orders by Python's string order
  (module `Lexicographic`);
- the routing of the six button labels in `handle_message` (module `Routing`);
- the handlers over the shared state (module `Bot`). Class `Scheduler` holds
  `user_tasks` as `tasks` and each user's `context.user_data` as `userData`.
  It has one method per handler, and each returns the next conversation state
  and an abstract reply tag. `Step` passes one message to the handler of the
  user's current state. Every handler is registered with
  `filters.TEXT & ~filters.COMMAND` (bot.py:188, 196-198, 206, 214), so a
  command message reaches none of them and changes nothing.

The object invariant `Scheduler.Valid` says two things. No schedule holds a
time key twice. Every stored key, and every `new_time` kept in the scratch data,
passed `is_valid_time`. `Prepared` (and `Scheduler.Ready` for one user) says
what each state needs from the steps before it. The edit states need the user's
schedule. They also need the scratch keys that the earlier edit steps wrote,
with `edit_time` one of the stored keys.

`Transition` describes one message's effect on its sender as a pure function.
It gives the next state, the reply, the sender's schedule and the sender's
scratch data. It has one function per handler (`MessageOutcome`,
`AddTimeOutcome`, ...), and `Scheduler.Step` is proved to agree with it. Module
`Scenarios` drives sample conversations through the handlers in verified
methods, and asserts what the user is shown and what the store holds.

Some behaviours of `bot.py` that a reader might not expect, as the model
states them:

- The add pattern at bot.py:65 shares `is_valid_time`'s hour and minute parts.
  It is anchored only at the start, and after the space it needs one character
  that is not a line feed (`.+`). The description is then everything after the
  first space (bot.py:70).
- A Python dict keeps insertion order, and the edit menu (bot.py:84) numbers the
  tasks in that order. An edit deletes the old key and inserts the new one
  (bot.py:115-117). So the edited task moves to the end, even when its time does
  not change. Editing `09:00 A` in `[09:00 A, 10:00 B]` to `09:15 C` leaves
  `10:00 B` then `09:15 C` (`Scenarios.EditFirst`).
- Keys are stored as typed. `9:30` and `09:30` are different keys. The listing
  (bot.py:147) orders `9:30` after `23:00`, because it compares text.

## Model

| member | source | states |
|---|---|---|
| `TimeFormat.IsValidTime` | bot.py:32-33 | an accepted string has 4 or 5 characters and a non-digit in exactly one place, a colon third from the end; all other characters are ASCII digits |
| `TimeFormat.ValidTimeIff` | bot.py:32-33 | a string is accepted exactly when it is the text of a time of day: an hour 0-23 (one digit only for 0-9), a colon, and a two-digit minute 0-59 |
| `TimeFormat.TimeTextIsValid` | bot.py:32-33 | every time of day, written with a one- or two-digit hour, is accepted, and its hour and minute read back unchanged |
| `TimeFormat.ValidTimeIsTimeText` | bot.py:32-33 | every accepted string has an hour below 24 (below 10 if it has one digit) and a minute below 60, and is that time's text |
| `TimeFormat.TimeExamples` | bot.py:32-33 | "24:00", "12:60", "1230", "", "123:45" and "1:5" are refused; "9:30", "09:30", "0:00" and "23:59" are accepted, and "9:30" and "09:30" are different keys |
| `TimeFormat.ValidTimeHasNoSpace` | bot.py:70 | an accepted time contains no space, so the first space of add input follows the time |
| `TimeFormat.MatchesAddPattern` | bot.py:65 | the add pattern: a valid 4- or 5-character time, one space, then a character that is not a line feed; anything may follow |
| `TimeFormat.AddPatternAtFirstSpace` | bot.py:65 | the add pattern matches exactly when the text has a space, the text before its first space is a valid time, and the character after that space is not a line feed |
| `TimeFormat.FirstSpace` | bot.py:70 | the result is the index of the first space, or -1 exactly when there is no space |
| `TimeFormat.SplitOnce` | bot.py:70 | `split(' ', 1)` gives the whole text when there is no space; otherwise two parts that rebuild the text around one space, the first part holding no space |
| `TimeFormat.ParseAddInput` | bot.py:63-70 | add input is accepted exactly when it matches the pattern; then the key is a valid time, the description is non-empty and does not start with a line feed, and key + " " + description is the input |
| `TimeFormat.AddInputRoundTrip` | bot.py:63-70 | a valid time, a space and a description that does not start with a line feed are accepted and read back as that time and description |
| `Digits.ParseInt` | bot.py:90 | `int()` succeeds exactly on an optional sign followed by digits, and digit-only text gives its decimal value |
| `Digits.Numeral` | bot.py:84 | the menu number printed for a position is a non-empty string of decimal digits |
| `Digits.NumeralValue` | bot.py:84 | the numeral the edit menu prints for a position has that position as its value |
| `Digits.ParseNumeral` | bot.py:84-90 | the number the menu prints for a task parses back to that number |
| `Digits.ParseIntExamples` | bot.py:89-90 | "-1", "+2" and "007" parse to -1, 2 and 7; "", "-" and "1a" are refused |
| `Lexicographic.LessEqReflexive` | bot.py:147 | Python's string order is reflexive |
| `Lexicographic.LessEqTotal` | bot.py:147 | any two strings are comparable |
| `Lexicographic.LessEqAntisymmetric` | bot.py:147 | two strings ordered both ways are equal |
| `Lexicographic.LessEqTransitive` | bot.py:147 | the string order is transitive |
| `Schedule.IndexOf` | bot.py:115 | gives the position of the first entry with the key, or -1 exactly when no entry has it |
| `Schedule.Lookup` | bot.py:133 | `time in d` holds exactly when some entry has that key; the value found is stored under the key, and with unique keys it is that entry's description |
| `Schedule.Upsert` | bot.py:74 | `d[time] = task` appends a new entry when the key is new; otherwise it replaces the entry in place |
| `Schedule.Remove` | bot.py:133-134 | `del d[time]` leaves the schedule unchanged when the key is absent; otherwise it removes that one entry and keeps the order of the rest |
| `Schedule.UpsertSpec` | bot.py:72-74 | after the assignment the key holds the task and no other key changes; keys stay unique, and the size grows by one exactly when the key was new |
| `Schedule.RemoveSpec` | bot.py:133-134 | after the delete the key is absent and no other key changes; keys stay unique, and the size drops by one exactly when the key was present |
| `Schedule.RemoveKeepsOthers` | bot.py:133-134 | a delete leaves only entries that were stored before, and, with unique keys, none under the deleted key |
| `Schedule.UpsertKeepsOthers` | bot.py:74 | after `d[time] = task` the entry (time, task) is stored, and every other entry was stored before |
| `Schedule.EditCommit` | bot.py:115-117 | after the edit commit the entry (new time, new description) is stored; every other entry was stored before; with unique keys none of them has the old key |
| `Schedule.EditCommitSpec` | bot.py:115-117 | after the edit commit the new key holds the new description; the old key is gone unless it equals the new key; other keys are unchanged; keys stay unique; and when the old key was present the size is kept, or drops by one when the new time overwrote another entry |
| `Schedule.EditKeepingTimeMovesToEnd` | bot.py:115-117 | an edit that keeps the time moves the task to the end of insertion order |
| `Schedule.InsertByTime` | bot.py:147 | inserting into an ascending list keeps it ascending and adds exactly that entry |
| `Schedule.SortedView` | bot.py:147 | the listing is in ascending order of time key and is a rearrangement of the stored entries |
| `Schedule.SortedArrangementIsUnique` | bot.py:147 | with unique keys only one ascending rearrangement exists, so the listing is determined |
| `Schedule.PaddedTimesSortChronologically` | bot.py:147 | for keys with two-digit hours, text order equals time-of-day order |
| `Schedule.UnpaddedHourSortsLate` | bot.py:147 | "9:30" is listed after "10:00" and after "23:00" |
| `Routing.Route` | bot.py:160-176 | the fallback is chosen exactly when the text is none of the six labels; otherwise the chosen action's label is the text |
| `Routing.RouteLabel` | bot.py:160-173 | each label leads to its own action |
| `Bot.UpsertWellFormed` | bot.py:65-74 | storing under a valid time keeps a schedule free of duplicate keys and keeps every key valid |
| `Bot.RemoveWellFormed` | bot.py:133-134 | a delete keeps a schedule free of duplicate keys and keeps every key valid |
| `Bot.EditCommitWellFormed` | bot.py:110-117 | the edit commit under a valid new time keeps a schedule free of duplicate keys and keeps every key valid |
| `Bot.ClearedFor` | bot.py:154-155 | after a clear the caller's schedule, if it existed, is empty; no other user's schedule changes |
| `Bot.ClearedIdempotent` | bot.py:152-157 | clearing twice gives the same store as clearing once |
| `Bot.ChosenTime` | bot.py:90-93 | a choice is accepted exactly for a number from 1 to the number of tasks; it selects a key that is stored in the schedule |
| `Bot.MessageOutcome` | bot.py:160-176 | outside a flow, the scratch data never changes; the schedule changes only for the clear label, and then to an empty one; a flow state is entered exactly for the add and delete labels, and for the edit label when there are tasks |
| `Bot.AddTimeOutcome` | bot.py:63-76 | the flow stays in TIME exactly when the add pattern does not match, with the schedule unchanged; otherwise it ends with the parsed entry stored; the scratch data never changes |
| `Bot.RemoveTimeOutcome` | bot.py:127-138 | the flow stays in DELETE_TIME exactly when the text is not a valid time, and otherwise ends; the schedule changes exactly when the reply is "deleted"; the scratch data never changes |
| `Bot.EditChoiceOutcome` | bot.py:87-101 | the flow moves to EDIT_TIME exactly when the text is a number from 1 to the number of tasks, recording a stored key as `edit_time`; otherwise it stays in EDIT_CHOICE with nothing changed; the schedule never changes |
| `Bot.EditTimeOutcome` | bot.py:102-109 | the flow moves to EDIT_TASK exactly when the text is a valid time, recording it as `new_time`; otherwise it stays in EDIT_TIME with nothing changed; the schedule never changes |
| `Bot.EditDescriptionOutcome` | bot.py:110-119 | the flow ends; the entry (`new_time`, text) is stored, every other entry was stored before, and the scratch data is left in place |
| `Bot.Transition` | bot.py:185-214 | every step leaves the conversation in a state whose handler finds what it needs; a user's schedule changes only on a step that ends a flow; a step that re-prompts in its own state changes neither schedule nor scratch; a schedule, once created, is never removed |
| `Bot.MessageKeepsSound` | bot.py:160-176 | handling a message outside a flow keeps the user's schedule well formed and the recorded `new_time` valid |
| `Bot.AddTimeKeepsSound` | bot.py:63-76 | the add step keeps the user's schedule well formed and the recorded `new_time` valid |
| `Bot.RemoveTimeKeepsSound` | bot.py:127-138 | the delete step keeps the user's schedule well formed and the recorded `new_time` valid |
| `Bot.EditChoiceKeepsSound` | bot.py:87-101 | the choice step keeps the user's schedule well formed and the recorded `new_time` valid |
| `Bot.EditTimeKeepsSound` | bot.py:102-109 | recording a new time keeps the recorded `new_time` valid, since only a valid time is recorded |
| `Bot.EditDescriptionKeepsSound` | bot.py:110-119 | the edit commit keeps the user's schedule well formed |
| `Bot.TransitionKeepsSound` | bot.py:185-214 | every step keeps the user's schedule well formed and the recorded `new_time` valid |
| `Bot.Scheduler.constructor` | bot.py:21 | the process starts with no schedules and no scratch data |
| `Bot.Scheduler.AddTaskStart` | bot.py:58-60 | asks for input and moves to TIME |
| `Bot.Scheduler.AddTaskTime` | bot.py:63-76 | rejected input stays in TIME and changes no schedule; accepted input stores the task under its time, creating the user's schedule if needed, and ends the flow; the outcome is `AddTimeOutcome`; the invariant is kept |
| `Bot.Scheduler.EditTaskStart` | bot.py:79-86 | with no schedule, or an empty one, the flow ends and no state is entered; otherwise the tasks are listed in insertion order and the flow moves to EDIT_CHOICE; nothing changes |
| `Bot.Scheduler.EditTaskChoice` | bot.py:87-101 | non-numeric or out-of-range input stays in EDIT_CHOICE; a number n in range records the n-th key in insertion order as `edit_time` and moves to EDIT_TIME, ready with a stored key; the store never changes; the outcome is `EditChoiceOutcome` |
| `Bot.Scheduler.EditTaskTime` | bot.py:102-109 | an invalid time stays in EDIT_TIME; a valid one is recorded as `new_time` and moves to EDIT_TASK; the store never changes; the outcome is `EditTimeOutcome` |
| `Bot.Scheduler.EditTaskDescription` | bot.py:110-119 | commits the edit to the user's schedule, ends the flow and keeps the invariant; when `edit_time` is stored, the schedule keeps its size, or loses one entry when the new time overwrote another task; the outcome is `EditDescriptionOutcome` |
| `Bot.Scheduler.RemoveTaskStart` | bot.py:122-124 | asks for a time and moves to DELETE_TIME |
| `Bot.Scheduler.RemoveTaskTime` | bot.py:127-138 | an invalid time stays in DELETE_TIME with the store unchanged; a valid time ends the flow, deleting the task at that key when present and otherwise reporting "not found" with the store unchanged; the outcome is `RemoveTimeOutcome` |
| `Bot.Scheduler.ViewSchedule` | bot.py:141-149 | replies "empty" exactly when the user has no tasks; otherwise lists the stored entries in ascending key order (the `SortedView`) |
| `Bot.Scheduler.ClearSchedule` | bot.py:152-157 | empties the caller's schedule and no one else's, and ends |
| `Bot.Scheduler.HandleMessage` | bot.py:160-176 | each label calls its handler and passes on that handler's state; only the clear label changes the store; other text gets the "use the buttons" reply; the outcome is `MessageOutcome` |
| `Bot.Scheduler.Step` | bot.py:185-214 | a command message reaches no handler: nothing is sent and state, store and scratch data stay as they were; any other text goes to the handler of the current state; the next state, the reply, the sender's schedule and scratch data are those of `Transition`; no other user's schedule or scratch data changes; the store changes only on a step that returns END; a re-prompt changes nothing; `Valid` and `Ready` are kept |

## Left out

- Telegram I/O: the text of the replies, the reply keyboard (`get_main_keyboard`), `Update`/`context` objects and async/await. Replies are abstract tags.
- The `start` and `help` commands and `main()`: handler registration, the token and `run_polling`. Whether Telegram marks a text as a command is an input of `Step` (`command`); the `/start` and `/help` replies of the command handlers at bot.py:182-183 are not modelled, and every command reply is the tag `Unanswered`. The help label's reply is the tag `HelpText`.
- How the library's three `ConversationHandler`s interact. In the real bot, the add label can start the add flow while the edit or delete flow waits, and each handler keeps its own state. The library keys each conversation state by (chat, user), while `user_tasks` and `user_data` are kept per user only; so a user in two chats can delete the task chosen for editing, or overwrite the scratch keys, while an edit flow waits in the other chat, and EDIT_TASK is then reached with `edit_time` no longer stored. `Step` models one conversation state per user, and its `Ready` precondition excludes that case.
- Logging configuration.
- `TimeFormat.IsValidTime` does not model `$` in Python regexes, which also matches before a final line feed: "12:30\n" is accepted by the source and refused here.
- `Digits.ParseInt`: `int()` also accepts surrounding whitespace, underscores between digits and non-ASCII decimal digits. The model refuses them. So on input such as `"1 "`, `"1_0"` or a non-ASCII digit, the model re-prompts in EDIT_CHOICE with `NotANumber`. The source instead selects the task with that number, when it is in range, and moves to EDIT_TIME (bot.py:89-95). A Telegram message text holds at most 4096 characters, so the 4300-digit limit of CPython's `int()` is never reached.
- When `edit_task_choice` or `edit_task_description` would raise `KeyError`, the user has no schedule or a scratch key is missing. Their preconditions exclude this, and `Prepared` shows that a flow reaches them with these set up.
- Concurrent dispatch and global state shared across threads: all handlers run one after another.
