# StudySync pages in Dafny

StudySync is a React single-page study planner. This project models the state and
handlers of its four working pages and proves properties about them:

- **Timer** (`Timer.dfy`): a pomodoro timer with three modes, a one-second countdown,
  a completion step that counts pomodoros (a long break after every fourth) and a
  settings panel. React's state setters and effects are modelled as steps on a
  `Snapshot`: `OnComplete` is the interval callback's completion branch, and
  `OnModeEntry` is the effect on `[mode, settings]`. They are composed the way React
  runs them. The class `PomodoroTimer` holds the same state as mutable fields and is
  proved step for step against those functions. Because completion always changes
  the mode, mode entry always follows it. The timer therefore always ends stopped at
  the full length of the next mode: the auto-start flags never have a lasting effect
  (`CompletionEndsStopped`). Every settings change, even while running, reloads the
  current mode and stops the timer, because `setSettings` always builds a new object.
- **Tasks** (`Tasks.dfy`): add, toggle and delete tasks, filter them (all, active,
  completed) and sort them (due date, priority, creation time; ascending or
  descending). The list shown (`TaskList.Visible`) is proved to be a permutation of
  the filtered tasks, in the order the comparator is meant to produce.
- **Notes** (`Notes.dfy`): a newest-first list of notes with one active note and an
  edit mode. The class invariant (`NoteBook.Valid`) is that edit mode needs an active
  note and that the active note's id is in the list. Every handler keeps it.
- **Timetable** (`Timetable.dfy`): weekly class slots, a form that adds a slot or
  rewrites the one being edited, and the grid arithmetic (one column per day,
  60 pixels per hour from 7 AM).

Two shared modules model the JavaScript built-ins the pages rely on:

- `Text.dfy`: `trim` with the ECMAScript whitespace set, `toString` and `padStart`
  for non-negative integers, and `split(':').map(Number)` on clock strings.
- `Lists.dfy`: `filter`, a `map` that rewrites the selected elements, and `indexOf`.

Ids and timestamps come from the clock in the source, so they are parameters here.
Ids are not assumed to be unique: toggling, saving, updating and deleting act on
every element carrying the id, as the source's `map` and `filter` do.

## Model

| member | source | states |
|---|---|---|
| Text.TrimStartRemovesLeading | src/pages/Tasks.tsx:39 | trimming the start removes a prefix that is all whitespace, and the result starts with a non-whitespace character |
| Text.TrimEndRemovesTrailing | src/pages/Tasks.tsx:39 | trimming the end removes a suffix that is all whitespace, and the result ends with a non-whitespace character |
| Text.Trim | src/pages/Tasks.tsx:39 | `trim()` never lengthens a string, and a non-empty result starts and ends with a non-whitespace character |
| Text.TrimEmptyIffBlank | src/pages/Timetable.tsx:51 | `trim()` gives the empty string exactly when every character is whitespace, so a title or subject is refused exactly when it is blank |
| Text.Decimal | src/pages/Timer.tsx:142 | `toString` of a non-negative integer is a non-empty digit string, one digit below 10, at most two below 100, with no leading zero |
| Text.DecimalRoundTrip | src/pages/Timer.tsx:142 | reading back the decimal rendering of n gives n |
| Text.PadStart | src/pages/Timer.tsx:142 | `padStart` gives length max(width, \|s\|), ends with s, and has fill characters before it |
| Text.LeadingZeros | src/pages/Timer.tsx:142 | prefixing zeros keeps a digit string's value |
| Text.PadStartValue | src/pages/Timer.tsx:142 | zero-padding keeps a digit string's value |
| Text.FirstIndexOf | src/pages/Timetable.tsx:122 | the first position of a character, or the length when it is absent |
| Text.ParseClock | src/pages/Timetable.tsx:122 | a string without ':' does not read as a time, and one that does has a digit string before its first ':' |
| Text.ParseClockJoin | src/pages/Timetable.tsx:122 | splitting "H:M" at ':' and reading both fields as numbers gives back the two digit strings' values |
| Lists.Filter | src/pages/Tasks.tsx:67 | `filter` never lengthens the list and keeps only elements that pass |
| Lists.FilterCount | src/pages/Tasks.tsx:67 | every passing element is kept as often as it occurs and no other element is kept |
| Lists.FilterMembership | src/pages/Tasks.tsx:67 | an element is in the result exactly when it is in the list and passes |
| Lists.FilterAppend | src/pages/Tasks.tsx:67 | filtering distributes over concatenation, so the kept elements keep their order |
| Lists.FilterKeepsAll | src/pages/Tasks.tsx:67 | a list whose elements all pass is returned unchanged |
| Lists.FilterIdempotent | src/pages/Tasks.tsx:67 | filtering twice with the same test is filtering once |
| Lists.FilterComplement | src/pages/Tasks.tsx:79-84 | a test and its negation split a list: the two results together hold every element exactly once |
| Lists.MapSelected | src/pages/Tasks.tsx:60-62 | `map` with a conditional rewrite keeps the length, rewrites the selected elements and leaves the others unchanged |
| Lists.IndexOf | src/pages/Timetable.tsx:126-128 | `indexOf` gives -1 exactly when the element is absent, and otherwise the first position holding it |
| Timer.Duration | src/pages/Timer.tsx:21-42 | with lengths of at least one minute, a mode's countdown is a positive whole number of minutes in seconds |
| Timer.InitialSettled | src/pages/Timer.tsx:5-16 | the page opens settled in pomodoro mode with the full 25 minutes (1500 s) loaded |
| Timer.OnModeEntry | src/pages/Timer.tsx:20-41 | mode entry loads the full length of the current mode and stops the timer and its interval; mode, settings and count are kept |
| Timer.ModeEntrySettles | src/pages/Timer.tsx:21-42 | mode entry loads the mode's full length and stops the timer, keeping mode, settings and count |
| Timer.OnComplete | src/pages/Timer.tsx:62-84 | completion zeroes the countdown and clears the interval; after a pomodoro the count goes up by one and the next mode is a long break exactly when the new count is divisible by four; after a break the next mode is a pomodoro; the run flag is requested exactly when the matching auto-start flag is set (or it was already running); the mode always changes |
| Timer.OnTick | src/pages/Timer.tsx:47-89 | a firing never changes the settings, and it keeps the mode exactly when more than one second was left |
| Timer.CompletionEndsStopped | src/pages/Timer.tsx:47-89 | the last tick, composed with the mode entry it triggers, leaves the timer settled and stopped at the full length of the next mode, whatever the auto-start flags say |
| Timer.TickKeepsSettled | src/pages/Timer.tsx:45-102 | a tick keeps the settled invariant and, above one second, takes exactly one second off and changes nothing else |
| Timer.Countdown | src/pages/Timer.tsx:88 | k ticks below the remaining time take exactly k seconds off and change nothing else |
| Timer.SessionEnds | src/pages/Timer.tsx:45-102 | a running countdown completes after exactly `timeLeft` ticks and only once: no later tick fires |
| Timer.OnToggle | src/pages/Timer.tsx:104-106 | the start/pause button flips the run flag, schedules or clears the interval with it, and changes nothing else |
| Timer.ToggleTwice | src/pages/Timer.tsx:104-106 | toggling keeps the timer settled, and toggling twice restores the state |
| Timer.RunSession | src/pages/Timer.tsx:45-106 | one session started by the user ends settled and stopped, in the next mode, at its full length, with the count raised exactly when a pomodoro finished |
| Timer.ModeTrace | src/pages/Timer.tsx:62-84 | the trace of n consecutive sessions has n modes |
| Timer.PomodoroAndBreak | src/pages/Timer.tsx:62-84 | a pomodoro and the break it leads to raise the count by one and return to a pomodoro; the break is long exactly when the new count is divisible by four |
| Timer.TwoRounds | src/pages/Timer.tsx:62-84 | four sessions from a pomodoro run pomodoro, break, pomodoro, break, raise the count by two and end at a stopped pomodoro |
| Timer.LongBreakEveryFourth | src/pages/Timer.tsx:66-77 | from a count divisible by four, the first eight sessions run pomodoro and short break three times, then pomodoro and long break |
| Timer.OnSelectMode | src/pages/Timer.tsx:168-188 | a mode button sets the mode and keeps settings and count |
| Timer.SelectModeSettles | src/pages/Timer.tsx:168-188 | selecting the current mode changes nothing; selecting another stops the timer and loads that mode's full length, keeping the count |
| Timer.ApplyChange | src/pages/Timer.tsx:132-137 | a settings change replaces exactly the named field and keeps valid settings valid |
| Timer.OnSettingChange | src/pages/Timer.tsx:132-137 | a settings change applies the change, keeps mode and count, and leaves the timer stopped at the new full length of the mode |
| Timer.SettingChangeRestarts | src/pages/Timer.tsx:132-137 | any settings change, running or not, stops the timer and reloads the current mode with its new length, keeping mode and count |
| Timer.InputMinutes | src/pages/Timer.tsx:284-312 | `parseInt(text) \|\| fallback` passes through any non-zero number (negative ones included) and falls back on NaN or zero |
| Timer.FormatTime | src/pages/Timer.tsx:139-143 | the display is at least "MM:SS" long with ':' before the last two characters, and exactly five characters below 100 minutes |
| Timer.FormatTimeRoundTrip | src/pages/Timer.tsx:139-143 | the display reads back as the minutes and seconds it shows, and they give back the number of seconds |
| Timer.ProgressPercent | src/pages/Timer.tsx:145-159 | progress is 0 at the full length, 100 at zero, and within 0 to 100 in between |
| Timer.ProgressPerSecond | src/pages/Timer.tsx:145-159 | every second that passes adds 100 / (length in seconds) percent of progress |
| Timer.PomodoroTimer.constructor | src/pages/Timer.tsx:5-16 | the initial state, settled |
| Timer.PomodoroTimer.EnterMode | src/pages/Timer.tsx:21-42 | the fields become the mode-entry step of the old state |
| Timer.PomodoroTimer.Complete | src/pages/Timer.tsx:62-84 | the fields become the completion step of the old state |
| Timer.PomodoroTimer.Tick | src/pages/Timer.tsx:47-89 | one firing, then mode entry if it completed; the settled invariant is kept |
| Timer.PomodoroTimer.SelectMode | src/pages/Timer.tsx:168-188 | a mode button, with mode entry when the mode changes; the settled invariant is kept |
| Timer.PomodoroTimer.ToggleTimer | src/pages/Timer.tsx:104-106 | flips running and the scheduled interval together; the settled invariant is kept |
| Timer.PomodoroTimer.ResetTimer | src/pages/Timer.tsx:108-126 | stops and reloads the current mode's full length, keeping mode and count; the settled invariant is kept |
| Timer.PomodoroTimer.HandleSettingChange | src/pages/Timer.tsx:132-137 | the settings change followed by mode entry; the settled invariant is kept |
| Tasks.Toggled | src/pages/Tasks.tsx:58-64 | every task with the id has its completion flag flipped; every other field and every other task is unchanged |
| Tasks.ToggleTwice | src/pages/Tasks.tsx:58-64 | toggling the same id twice gives back the list |
| Tasks.Deleted | src/pages/Tasks.tsx:66-68 | no task with the id remains |
| Tasks.DeleteKeepsOthers | src/pages/Tasks.tsx:66-68 | every task with another id stays, as often as it occurred and in order |
| Tasks.DeleteIdempotent | src/pages/Tasks.tsx:66-68 | deleting twice is deleting once |
| Tasks.AddThenDelete | src/pages/Tasks.tsx:38-56 | a task added under an unused id and then deleted leaves the list as it was |
| Tasks.Filtered | src/pages/Tasks.tsx:79-84 | the shown tasks are all of the chosen kind and no more than the list |
| Tasks.FilterViews | src/pages/Tasks.tsx:79-84 | "all" shows the list; "active" and "completed" show exactly the uncompleted and completed tasks and split the list between them |
| Tasks.Clicked | src/pages/Tasks.tsx:70-77 | a sort button selects its key; the direction is ascending unless the key was current and ascending |
| Tasks.ClickTwice | src/pages/Tasks.tsx:70-77 | two clicks on the current key restore the order; two clicks on another key sort by it descending |
| Tasks.BeforeTotalPreorder | src/pages/Tasks.tsx:86-106 | the intended order of each key and direction is total and transitive |
| Tasks.Compare | src/pages/Tasks.tsx:86-106 | the comparator's sign agrees with the intended order: a negative or zero answer lets the first task come first, a positive one the second |
| Tasks.UndatedCompareBothWays | src/pages/Tasks.tsx:88 | for two undated tasks the comparator answers "the other first" whichever way round it is asked |
| Tasks.Insert | src/pages/Tasks.tsx:86 | inserting adds exactly the one task |
| Tasks.SortTasks | src/pages/Tasks.tsx:86 | sorting gives a permutation of its input |
| Tasks.InsertSorted | src/pages/Tasks.tsx:86-106 | inserting into a sorted list keeps it sorted |
| Tasks.SortTasksSorted | src/pages/Tasks.tsx:86-106 | the sorted list is in the intended order of the chosen key and direction |
| Tasks.ApplyEdit | src/pages/Tasks.tsx:156-197 | the field an input edits takes its value; every other field, and the completion flag, keep theirs |
| Tasks.TaskList.constructor | src/pages/Tasks.tsx:15-31 | the saved tasks, an empty hidden form, the "all" filter, due date ascending |
| Tasks.TaskList.Visible | src/pages/Tasks.tsx:79-106 | the displayed list is a permutation of the filtered tasks, in the chosen order |
| Tasks.TaskList.AddTask | src/pages/Tasks.tsx:38-56 | a blank title changes nothing; otherwise exactly one task from the form is appended, and the form is cleared and hidden |
| Tasks.TaskList.ToggleTaskCompletion | src/pages/Tasks.tsx:58-64 | the list is toggled at the id; nothing else changes |
| Tasks.TaskList.DeleteTask | src/pages/Tasks.tsx:66-68 | the list loses the tasks with the id; nothing else changes |
| Tasks.TaskList.HandleSort | src/pages/Tasks.tsx:70-77 | the sort order takes the click; nothing else changes |
| Tasks.TaskList.SetFilter | src/pages/Tasks.tsx:223-243 | the filter takes the view; nothing else changes |
| Tasks.TaskList.ToggleForm | src/pages/Tasks.tsx:136 | the form's visibility flips and its contents are kept |
| Tasks.TaskList.EditDraft | src/pages/Tasks.tsx:156-197 | the form field takes the input; nothing else changes |
| Notes.Deleted | src/pages/Notes.tsx:44-46 | no note with the id remains, and the list does not grow |
| Notes.DeleteKeepsOthers | src/pages/Notes.tsx:44-46 | a note is kept exactly when it was listed under another id, as often as it occurred; every other id stays present; deleting distributes over concatenation, so order is kept |
| Notes.CreateThenDelete | src/pages/Notes.tsx:28-42 | a new note under an unused id, deleted again, leaves the list as it was |
| Notes.Saved | src/pages/Notes.tsx:62-75 | saving keeps length, ids and creation times; notes with the id take the buffers and the save time; the others are unchanged |
| Notes.SaveKeepsIds | src/pages/Notes.tsx:62-75 | saving keeps the set of ids present |
| Notes.SaveIdempotent | src/pages/Notes.tsx:62-75 | saving the same buffers twice at the same time is saving once |
| Notes.NoteBook.constructor | src/pages/Notes.tsx:13-21 | the saved notes, no active note, not editing, empty buffers |
| Notes.NoteBook.CreateNewNote | src/pages/Notes.tsx:28-42 | an untitled note is prepended, becomes active and is opened for editing; the invariant is kept |
| Notes.NoteBook.DeleteNote | src/pages/Notes.tsx:44-52 | the list loses the id; if the active note went, the first remaining note (or none) becomes active and editing ends, otherwise nothing else changes; the invariant is kept |
| Notes.NoteBook.StartEditingNote | src/pages/Notes.tsx:54-60 | with an active note, editing starts with its title and content in the buffers; without one, nothing changes |
| Notes.NoteBook.SaveNote | src/pages/Notes.tsx:62-84 | with an active note, the list and the active copy take the buffers, each with its own save time, and editing ends; without one, nothing changes; the invariant is kept |
| Notes.NoteBook.CancelEdit | src/pages/Notes.tsx:86-88 | editing ends and the buffers keep what was typed |
| Notes.NoteBook.SelectNote | src/pages/Notes.tsx:90-93 | the chosen listed note becomes active and editing ends |
| Notes.NoteBook.SetEditTitle | src/pages/Notes.tsx:164 | only the title buffer changes |
| Notes.NoteBook.SetEditContent | src/pages/Notes.tsx:215 | only the content buffer changes |
| Timetable.FormRoundTrip | src/pages/Timetable.tsx:87-98 | loading a slot into the form and submitting it under its own id gives back the slot |
| Timetable.Updated | src/pages/Timetable.tsx:53-62 | an edit keeps the length and every id; slots with the edited id take the form's contents; the others are unchanged |
| Timetable.UpdateOfMissingIdIsLost | src/pages/Timetable.tsx:53-62 | submitting an edit whose slot was deleted meanwhile changes nothing: the edit is lost, not re-added |
| Timetable.UnchangedEditIsIdentity | src/pages/Timetable.tsx:53-62 | submitting a slot's form unchanged leaves the list as it was |
| Timetable.Deleted | src/pages/Timetable.tsx:83-85 | no slot with the id remains, and the list does not grow |
| Timetable.DeleteKeepsOthers | src/pages/Timetable.tsx:83-85 | a slot is kept exactly when it was listed under another id, as often as it occurred; every other id stays present; deleting distributes over concatenation, so order is kept |
| Timetable.AddThenDelete | src/pages/Timetable.tsx:64-70 | a slot appended under an unused id and deleted again leaves the list as it was |
| Timetable.Submitted | src/pages/Timetable.tsx:53-70 | an edit keeps the number of slots; otherwise exactly the one new slot is appended at the end |
| Timetable.DayIndex | src/pages/Timetable.tsx:126-128 | the day's position in the week, -1 exactly for a name that is not a day |
| Timetable.DayColumns | src/pages/Timetable.tsx:299 | each day's grid column is its position in the week plus one |
| Timetable.TimePosition | src/pages/Timetable.tsx:121-124 | a time has a position exactly when it reads as two numbers, and it is never more than 7 hours above the grid's top |
| Timetable.PixelOffset | src/pages/Timetable.tsx:296-297 | a time has an offset exactly when it reads as two numbers, and it is never more than 420 pixels above the grid's top |
| Timetable.OffsetOfParsed | src/pages/Timetable.tsx:121-124 | a time that reads as h:m lies h * 60 + m - 420 pixels down the grid: one pixel per minute after 7:00 |
| Timetable.SlotHeight | src/pages/Timetable.tsx:296-298 | a slot has a height exactly when both of its times are readable |
| Timetable.SlotHeightOfParsed | src/pages/Timetable.tsx:296-298 | for times that read as sh:sm and eh:em the height is the slot's length in minutes, negative when the end comes first |
| Timetable.TwoDigits | src/pages/Timetable.tsx:122 | a two-digit field's value |
| Timetable.PixelOffsetOfHhMm | src/pages/Timetable.tsx:121-124 | an "HH:MM" time's pixel offset is its minutes after 7:00 |
| Timetable.NineOClock | src/pages/Timetable.tsx:121-124 | 9:00 lies 120 pixels below the top of the grid |
| Timetable.TenOClock | src/pages/Timetable.tsx:121-124 | 10:00 lies 180 pixels below the top of the grid |
| Timetable.DefaultAndReversedHeights | src/pages/Timetable.tsx:296-298 | the default form's class is 60 pixels high; with its times swapped, the height is -60, as nothing checks that the end follows the start |
| Timetable.ApplyChange | src/pages/Timetable.tsx:113-119 | the field a change names takes its value and every other field keeps its value |
| Timetable.ChangesCompose | src/pages/Timetable.tsx:113-119 | of two changes to one field only the later shows; changes to different fields commute |
| Timetable.ChangesReachAnyForm | src/pages/Timetable.tsx:113-119 | one change per field turns any form into any other |
| Timetable.Schedule.constructor | src/pages/Timetable.tsx:29-43 | the saved slots, a hidden default form, no edit |
| Timetable.Schedule.AddTimeSlot | src/pages/Timetable.tsx:50-81 | a blank subject changes nothing; otherwise the edited slot is updated or a new slot appended, the edit ends, and the form is reset and hidden |
| Timetable.Schedule.DeleteTimeSlot | src/pages/Timetable.tsx:83-85 | the list loses the id; an edit in progress stays open |
| Timetable.Schedule.EditTimeSlot | src/pages/Timetable.tsx:87-98 | the slot is remembered, loaded into the form, and the form is shown |
| Timetable.Schedule.CancelForm | src/pages/Timetable.tsx:100-111 | the form is hidden and reset and the edit ends |
| Timetable.Schedule.HandleInputChange | src/pages/Timetable.tsx:113-119 | the form takes the change; nothing else changes |
| Timetable.Schedule.ToggleForm | src/pages/Timetable.tsx:135 | only visibility flips: an edit in progress and the form's contents survive |

## Left out

- Persistence: reading and writing the browser's local storage is not modelled. Each
  page class's constructor takes the list that was stored.
- Clocks: `Date.now()` ids and ISO timestamps become parameters. Timestamps are
  integers, and a note's two `new Date()` readings on save are two parameters.
  Date strings are represented by their parsed millisecond values; a due date that is
  not a valid date (NaN) is not modelled, and an empty due date is `None`.
- Timer scheduling: the one-second `setInterval`, the notification sound and its
  console fallback are left out. The interval is a boolean, and one firing is one
  `Tick`.
- Timer.PomodoroTimer.HandleSettingChange: requires a length of at least one minute.
  The settings inputs pass negative numbers through (`Timer.InputMinutes` shows which
  values get through), but the timer is modelled only for positive lengths.
- Timer.SettingChangeRestarts: requires a length of at least one minute, for the same reason.
- Notes.NoteBook.SelectNote: requires the note to be in the list; the page calls it
  only with a note of the rendered list.
- Timer.ProgressPercent: computed in exact real arithmetic, not in IEEE floating point.
- Timer.Countdown: integers are exact here, while JavaScript numbers are doubles. A
  length typed so large that its seconds exceed 2^53 would make `prevTime - 1` round
  back to the same value, and `Text.Decimal` would not match `toString`, which switches
  to exponent notation from 10^21. Lengths that large are not modelled.
- Text.ParseClock: `Number` is modelled on digit strings only. The empty field reads
  as 0, any other string as NaN (`None`). Signs, spaces, decimals and exponents are
  not modelled; the time inputs produce "HH:MM".
- Tasks.SortTasks: `Array.prototype.sort` is modelled as a stable insertion sort
  driven by the same comparator. With this comparator, JavaScript's order is
  implementation-defined where the comparator is inconsistent: two undated tasks
  both answer "the other first" (`Tasks.UndatedCompareBothWays`). The proved
  guarantee is the intended order, not a particular engine's arrangement.
- Tasks: the creation-time sort key is implemented but not offered by any button;
  the model allows it in `HandleSort`.
- Timetable colours: a slot stores the CSS classes of a palette entry. The model
  stores the palette entry; the class strings are presentation.
- Presentation: formatting dates, priority colours, icons, the settings panel's
  visibility, and all layout except the grid position arithmetic.
- The other pages and components of the application (dashboard, navigation, theme).

## Settings changes while running

A settings change while the timer runs does more than resize later countdowns. The
code reloads the current mode on every settings change, because `setSettings` always
builds a new object and the mode-entry effect depends on it. The running countdown is
therefore reset and stopped. The model follows the code (`Timer.SettingChangeRestarts`).
