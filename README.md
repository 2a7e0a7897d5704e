# FokusYard dashboard logic in Dafny

FokusYard is a browser productivity dashboard. This project models the logic under its pages and widgets and proves properties of that logic:

- the Pomodoro focus timer and the session ledger it appends to;
- the focus-history statistics, achievement cards, chart buckets and recent-sessions list computed from that ledger;
- the dashboard shell's periodic achievement check and the notification panel that shows and closes achievements;
- the list stores: to-dos, habits, daily goals, planner events, and the sticky-note board with its drag-to-delete gesture;
- the to-do statistics page, the life-balance wheel's weekly save and load, the header's name editor and location search, and the weather service's response checks.

There is one module per source file, plus `Common`. `Common` holds `Option`/`Result`, JavaScript's `trim`, decimal rendering, `includes`, `Math.round` of ratios, and the `filter`/`map`/`slice` idioms the stores are built from.

The model follows each part's style in the source:

- **Components whose handlers overwrite state** are classes: `Pomodoro.PomodoroTimer`, `Header.HeaderState`, `QuickWidgets.StickyBoard`, `Notifications.NotificationPanel` and `App.AchievementCenter`.
  - Each handler is a method.
  - Its `ensures` ties the new state to a step function of the old state (`State() == SaveStep(old(State()))`).
  - The lemmas about those step functions state what the handlers promise.
- **Loops** are methods with loop invariants. Each is proved equal to a specification function:
  - `getChartData`;
  - the category `forEach`;
  - `generateCalendarDays`;
  - the `reduce` in `saveWeekData`.
- **Operations that only compute a value** (filter, map, spread) are functions with named results.

Inputs the source takes from its environment are parameters:

- `Date.now()`;
- today's ISO date and the date a week earlier;
- the week key;
- the days in a month and the weekday of the 1st;
- the window size;
- the values `Math.random()` returns.

Browser storage becomes values:

- the ledger and the lists are `seq`s;
- the life-balance storage is a `map` from storage key to the saved id-to-value map;
- the header's stored name is an `Option<string>`.

A focus session takes 1501 ticks, not 1500: 1500 ticks bring a started 25:00 timer to 00:00 and write nothing, and the 1501st tick (the one that finds 00:00) writes the completed record (`Pomodoro.FullFocusSession`).

## Model

| member | source | states |
|---|---|---|
| Common.Trim | src/context/TodoContext.tsx:69 | `trim()`: the result neither starts nor ends with whitespace, is never longer than the input, and is empty exactly when the input is blank |
| Common.TrimIsSlice | src/context/TodoContext.tsx:69 | the trimmed text is a contiguous slice of the input |
| Common.TrimIdempotent | src/components/HabitTracker.tsx:84 | trimming an already trimmed text changes nothing |
| Common.NatToDecimal | src/App.tsx:58 | `toString()` of a count is all digits, has one digit exactly below 10, and has no leading zero |
| Common.DecimalRoundTrip | src/App.tsx:58 | reading the rendered digits back gives the number |
| Common.Pad2 | src/components/PomodoroTimer.tsx:67 | `padStart(2, '0')` gives two digits below 100, and they read back as the number |
| Common.MissingCharNotContained | src/App.tsx:55 | `includes` is false when the searched phrase has a character the text lacks |
| Common.RoundDiv | src/App.tsx:74 | `Math.round(p / q)` is the nearest integer to p/q, halves going up |
| Common.Percent | src/pages/StatsPage.tsx:78 | with a non-empty total, the nearest integer to 100·part/total, halves going up; 0 for an empty total; so within 0..100, 0 for no part and 100 when the part is the whole |
| Common.Utf16Length | src/components/QuickWidgets.tsx:91-92 | JavaScript's `length`: one to two code units per character, exactly one each iff no character is above U+FFFF, exactly two each iff all are |
| Common.Utf16LengthAppend | src/components/QuickWidgets.tsx:91-92 | the length of a concatenation is the sum of the lengths |
| Common.Filter | src/context/TodoContext.tsx:63 | `filter` keeps exactly the elements that pass, in order, and is the identity when all pass |
| Common.FilterAppend | src/context/TodoContext.tsx:63 | filtering distributes over concatenation, so relative order is kept |
| Common.FilterNone | src/components/AchievementNotification.tsx:20-22 | nothing passes when no element satisfies the test |
| Common.Update | src/context/TodoContext.tsx:56-58 | a conditional `map` keeps the length and replaces exactly the matching elements |
| Common.Take | src/context/TodoContext.tsx:79 | `slice(0, n)` is the prefix of length min(n, length) |
| Pomodoro.TickStep | src/components/PomodoroTimer.tsx:13-31 | a tick keeps the clock reachable and writes at most one record; it writes one exactly when the timer runs at 00:00 |
| Pomodoro.ToggleStep | src/components/PomodoroTimer.tsx:36-42 | toggling flips only `isActive`; pausing a running timer writes one incomplete record of the current phase; starting writes nothing |
| Pomodoro.ResetStep | src/components/PomodoroTimer.tsx:44-49 | reset gives a stopped 25:00 focus phase and writes nothing |
| Pomodoro.TickCountsDown | src/components/PomodoroTimer.tsx:15-29 | with time left, a running tick takes one second off: only `seconds` drops, or M:00 becomes (M-1):59; nothing is written |
| Pomodoro.TickCompletes | src/components/PomodoroTimer.tsx:15-23 | a tick at 00:00 writes one completed record (25-minute focus, or 5-minute break), stops, switches phase, and shows 05:00 after focus or 25:00 after a break |
| Pomodoro.CountdownWritesNothing | src/components/PomodoroTimer.tsx:13-31 | n uninterrupted ticks, with at least n seconds left, count down exactly n seconds and write nothing |
| Pomodoro.PhaseRunsOut | src/components/PomodoroTimer.tsx:13-31 | a running phase reaches 00:00 after its remaining seconds, and the next tick writes its single completed record |
| Pomodoro.FullFocusSession | src/components/PomodoroTimer.tsx:5-31 | from a started 25:00 focus phase, 1500 ticks reach 00:00 with nothing written; the 1501st writes one completed 25-minute focus record and leaves a stopped 05:00 break |
| Pomodoro.Apply | src/components/PomodoroTimer.tsx:13-49 | any one event keeps the clock reachable and writes exactly one nominal record iff it ends a running phase |
| Pomodoro.RunInvariant | src/components/PomodoroTimer.tsx:13-49 | over any sequence of ticks, toggles and resets: 0 <= seconds <= 59 and 0 <= minutes <= 25 throughout; one record per ended running phase; every record is 25-minute focus or 5-minute break |
| Pomodoro.FormatTime | src/components/PomodoroTimer.tsx:66-68 | for values below 100: five characters "MM:SS", both parts two digits that read back as the inputs |
| Pomodoro.PomodoroTimer.constructor | src/components/PomodoroTimer.tsx:5-8 | a new timer is stopped at 25:00 in the focus phase, over the stored ledger |
| Pomodoro.PomodoroTimer.SaveFocusSession | src/components/PomodoroTimer.tsx:52-64 | appends one record for the current phase at the end; every earlier record is unchanged |
| Pomodoro.PomodoroTimer.Tick | src/components/PomodoroTimer.tsx:13-31 | the interval callback performs `TickStep` in place and keeps the timer valid |
| Pomodoro.PomodoroTimer.ToggleTimer | src/components/PomodoroTimer.tsx:36-42 | performs `ToggleStep` in place, appending its record to the ledger |
| Pomodoro.PomodoroTimer.ResetTimer | src/components/PomodoroTimer.tsx:44-49 | resets to 25:00 focus, stopped, with the ledger unchanged |
| FocusHistory.SumDurationsAppend | src/pages/FocusHistoryPage.tsx:43-44 | the duration sum of a concatenation is the sum of the sums |
| FocusHistory.MinutesAppend | src/pages/FocusHistoryPage.tsx:40-44 | appending a record adds its duration to today's minutes iff it is a focus session of today, and to the week's minutes iff it is a focus session dated on or after the week start |
| FocusHistory.TodayWithinWeek | src/pages/FocusHistoryPage.tsx:40-44 | when today is not before the week start, today's minutes never exceed the week's |
| FocusHistory.CalculateStats | src/pages/FocusHistoryPage.tsx:34-55 | minutes today and this week count focus sessions only; total counts the focus sessions and completed the completed ones among them; the rate is `Percent(completed, total)`, the nearest integer to 100·completed/total, 0 with no focus session and 100 when all are completed |
| FocusHistory.PomodorosToGo | src/pages/FocusHistoryPage.tsx:90 | below the weekly goal, the count shown is the fewest 25-minute pomodoros that close the gap, and at least 1 |
| FocusHistory.DailyCardMeaning | src/pages/FocusHistoryPage.tsx:63-79 | card 1 is achieved iff today's minutes >= 50; otherwise it carries progress, target 50 and the gap 50 - minutes |
| FocusHistory.WeeklyCardMeaning | src/pages/FocusHistoryPage.tsx:82-99 | card 2 is achieved iff the week's minutes >= 1000; otherwise its message names a positive pomodoro count that closes the gap |
| FocusHistory.MilestoneIds | src/pages/FocusHistoryPage.tsx:102-118 | at most two milestone cards, ids 3 and 4 only; id 3 iff at least 100 focus sessions, id 4 iff the rate is at least 90 |
| FocusHistory.AchievementCards | src/pages/FocusHistoryPage.tsx:58-121 | two to four cards; cards 1 (daily) and 2 (weekly) always come first with their achieved and not-achieved fields; ids 3 and 4 appear under their thresholds |
| FocusHistory.DayBucket | src/pages/FocusHistoryPage.tsx:135-147 | a chart point is for its date and never has more completed than sessions |
| FocusHistory.MinutesFigure | src/pages/FocusHistoryPage.tsx:135-136 | a point's minutes are the focus minutes of its date |
| FocusHistory.SessionsFigure | src/pages/FocusHistoryPage.tsx:135-145 | a point's sessions are the number of focus sessions of its date |
| FocusHistory.CompletedFigure | src/pages/FocusHistoryPage.tsx:137 | a point's completed count is the number of completed focus sessions of its date |
| FocusHistory.DayBucketFigures | src/pages/FocusHistoryPage.tsx:135-147 | the accumulated point agrees with the page's filter-and-sum on all three figures |
| FocusHistory.GetChartData | src/pages/FocusHistoryPage.tsx:124-152 | exactly 1, 7 or 30 points for day, week or month, oldest date first; each is its date's point, with completed <= sessions |
| FocusHistory.RecentSessionsAsWritten | src/pages/FocusHistoryPage.tsx:394-396 | as written: at most five focus sessions, the first ones of the ledger, in ledger order |
| FocusHistory.RecentSessionsOmitsNewest | src/pages/FocusHistoryPage.tsx:394-396 | with six focus sessions in the ledger, the newest one is not in the list headed "recent" |
| FocusHistory.RecentSessions | src/pages/FocusHistoryPage.tsx:394-396 | corrected: the last min(5, n) focus sessions, in ledger order |
| FocusHistory.RecentSessionsShowNewest | src/pages/FocusHistoryPage.tsx:394-396 | corrected: a newly appended focus session is always shown, last |
| App.Measure | src/App.tsx:43-81 | completed to-dos never exceed the to-do count; today's minutes do not exceed the week's when today is not before the week start; an empty ledger gives zero minutes |
| App.NewAchievementsContents | src/App.tsx:54-89 | one check creates at most three notices: exactly the daily, weekly and milestone notices whose guard passes (goal met and phrase not found), with the source's message, icon and id |
| App.NewAchievementsOrdered | src/App.tsx:56-92 | new notices come in the order daily, weekly, milestone, with ids now, now+1, now+2, so pairwise distinct |
| App.NothingNewUnchanged | src/App.tsx:91-93 | when no guard passes, the list is unchanged |
| App.WithoutNotice | src/App.tsx:347 | closing removes exactly the notices with the id and keeps the others |
| App.WithoutNoticeKeepsOrder | src/App.tsx:347 | closing keeps the remaining notices in their order |
| App.AchievementCenter.constructor | src/App.tsx:22-27 | the shell starts with no achievements |
| App.AchievementCenter.CheckAchievements | src/App.tsx:39-94 | pushes the due notices one by one and appends them after the existing ones, as `Checked` of the measured tallies |
| App.AchievementCenter.Close | src/App.tsx:347 | the `onClose` filter: the list without the id |
| App.TemplateLacksPhrase | src/App.tsx:55-89 | a message of fixed text around a number cannot contain a phrase with a character found in neither the text nor the digits |
| App.DailyLacksWeeklyPhrase | src/App.tsx:58 | the daily message never contains 'weekly goal' |
| App.WeeklyLacksWeeklyPhrase | src/App.tsx:74 | the weekly message never contains 'weekly goal' |
| App.TasksLacksWeeklyPhrase | src/App.tsx:85 | the milestone message never contains 'weekly goal' |
| App.DailyLacksDailyPhrase | src/App.tsx:55-58 | the daily message lacks '50 focused minutes' when the minute count has no digit 0 |
| App.WeeklyLacksDailyPhrase | src/App.tsx:74 | the weekly message never contains '50 focused minutes' |
| App.TasksLacksDailyPhrase | src/App.tsx:85 | the milestone message never contains '50 focused minutes' |
| App.DailyLacksTasksPhrase | src/App.tsx:58 | the daily message never contains 'completed 10 tasks' |
| App.TasksLacksTasksPhrase | src/App.tsx:82-85 | the milestone message lacks 'completed 10 tasks' when the count has no digit 0 |
| App.NoMessageMentionsWeeklyGoal | src/App.tsx:71-74 | none of the three generated messages contains 'weekly goal' |
| App.WeeklyGuardNeverCloses | src/App.tsx:71-78 | a check never produces a message the weekly guard matches, so the weekly guard reduces to "1000 minutes reached" |
| App.CheckedAddsOneWeekly | src/App.tsx:71-78 | a check whose weekly guard passes adds exactly one weekly notice |
| App.WeeklyStep | src/App.tsx:71-78 | on a list without the weekly phrase, a check with the goal met adds one weekly notice and still lacks the phrase |
| App.WeeklyAnnouncedEveryCheck | src/App.tsx:71-78 | as written: once the weekly goal is met, k checks from an empty list hold k weekly notices |
| App.DailyAnnouncedTwiceAt75 | src/App.tsx:55-62 | as written: at 75 minutes today, the next check announces the daily goal a second time |
| App.MilestoneAnnouncedTwiceAt11 | src/App.tsx:82-89 | as written: at 11 completed to-dos (weekly goal unmet), the next check announces the milestone again |
| App.CheckedOnceIdempotent | src/App.tsx:55-93 | corrected guard (by achievement type): after one check every met goal has a notice, and checking again with the same tallies adds nothing |
| App.CheckedOnceAtMostOnce | src/App.tsx:55-93 | corrected guard: each achievement type appears at most once in the list |
| App.OnceAgreesOnFreshList | src/App.tsx:55-89 | on an empty list the corrected guard and the guard as written create the same notices |
| Notifications.Merge | src/components/AchievementNotification.tsx:18-27 | the merge keeps the visible list as a prefix and adds only incoming notices |
| Notifications.MergeShowsAll | src/components/AchievementNotification.tsx:20-26 | after the merge every incoming id is visible, and the appended notices are exactly the incoming ones whose id was not visible |
| Notifications.MergeIdempotent | src/components/AchievementNotification.tsx:20-26 | merging the same list twice equals merging it once |
| Notifications.MergeNothingNew | src/components/AchievementNotification.tsx:24 | with every incoming id already visible, the visible list is unchanged |
| Notifications.NotificationPanel.constructor | src/components/AchievementNotification.tsx:16 | the panel starts with nothing visible |
| Notifications.NotificationPanel.Receive | src/components/AchievementNotification.tsx:18-27 | the effect sets the visible list to the merge |
| Notifications.NotificationPanel.HandleClose | src/components/AchievementNotification.tsx:29-32 | hides every visible notice with the id and forwards that id to the shell |
| Notifications.CloseThenMergeStaysClosed | src/components/AchievementNotification.tsx:29-32 | once panel and shell have both dropped an id, merging the shell's list cannot show it again |
| Todos.AddTodo | src/context/TodoContext.tsx:46-52 | appends exactly one to-do at the end, with the given id and the draft's fields; earlier to-dos unchanged |
| Todos.ToggleTodo | src/context/TodoContext.tsx:54-60 | flips `completed` only on to-dos with the id; length, order and everything else kept |
| Todos.ToggleTodoTwice | src/context/TodoContext.tsx:54-60 | toggling twice restores the list; toggling an absent id changes nothing |
| Todos.DeleteTodo | src/context/TodoContext.tsx:62-64 | no to-do with the id remains, every other one does, nothing new appears, and an absent id is a no-op |
| Todos.DeleteTodoKeepsOrder | src/context/TodoContext.tsx:62-64 | deleting keeps the survivors in order |
| Todos.AddQuickTodo | src/context/TodoContext.tsx:66-76 | puts one open quick to-do with trimmed text and category 'quick' in front of the unchanged list |
| Todos.GetQuickTodos | src/context/TodoContext.tsx:78-80 | at most five to-dos, all quick and from the list: the first quick ones, in list order |
| Todos.NewQuickTodoListedFirst | src/context/TodoContext.tsx:66-80 | a newly added quick to-do is always the first one listed |
| Todos.HandleAddTodo | src/pages/TodoPage.tsx:17-32 | blank text changes neither list nor form; otherwise one open to-do with trimmed (non-empty) text, the category and due date, and the form resets to '', 'personal', '' |
| Todos.CompletedCounter | src/pages/TodoPage.tsx:111 | the completed count never exceeds the total, and equals it iff every to-do is completed |
| Stats.Totals | src/pages/StatsPage.tsx:75-78 | total counts the to-dos, completed the completed ones and quick (line 115) the quick ones; pending = total - completed, non-negative; the rate is `Percent(completed, total)`, the nearest integer to 100·completed/total (0 when empty or none done, 100 when all are) |
| Stats.Bump | src/pages/StatsPage.tsx:84 | `map.set(k, (get(k) || 0) + 1)`: an existing key gains one in place, a new key is appended with 1 |
| Stats.TallyCorrect | src/pages/StatsPage.tsx:81-85 | the tally has distinct keys: exactly the categories seen, each with its number of occurrences, in first-occurrence order |
| Stats.TallyCountsSum | src/pages/StatsPage.tsx:81-85 | the tally's counts add up to the number of to-dos |
| Stats.TallyCategories | src/pages/StatsPage.tsx:81-85 | the `forEach` loop builds exactly the specified tally |
| Stats.CategoryTally | src/pages/StatsPage.tsx:81-90 | each category of the list appears once, in first-occurrence order, with a count of at least 1; the counts sum to `totalTodos` |
| Stats.UpperChar | src/pages/StatsPage.tsx:88 | upper-casing leaves no lower-case letter and does not touch other characters |
| Stats.Capitalize | src/pages/StatsPage.tsx:88 | only the first character is upper-cased; length and the rest are kept |
| Stats.CapitalizeIdempotent | src/pages/StatsPage.tsx:88 | capitalising twice is capitalising once |
| Stats.CategoryChart | src/pages/StatsPage.tsx:87-90 | one chart entry per tally entry, with the capitalised name and the same count |
| Stats.ProductivityScore | src/pages/StatsPage.tsx:324 | with p = rate + 5 per note + 3 per quick to-do: exactly 100 iff 2p >= 597, and otherwise the nearest integer to p/3, halves going up |
| Stats.ScoreMonotone | src/pages/StatsPage.tsx:324 | the score never falls when any input grows |
| Stats.ScoreSaturates | src/pages/StatsPage.tsx:324 | the score is 100 once rate + 5 per note + 3 per quick to-do reaches 298.5, that is 299 in whole numbers |
| Stats.CalculateStats | src/pages/StatsPage.tsx:74-125 | the page's statistics are the totals, the capitalised in-order tally and the stored note count |
| Habits.Toggled | src/components/HabitTracker.tsx:67-71 | checking adds one to streak and total; unchecking sets streak to max(0, streak-1), keeps the total; streak stays non-negative; other fields kept |
| Habits.ToggleHabit | src/components/HabitTracker.tsx:65-74 | only habits with the id change, by the streak rule; length and order kept |
| Habits.CheckThenUncheck | src/components/HabitTracker.tsx:69-70 | check then uncheck restores the check-in and the streak, and leaves the total one higher |
| Habits.StreaksStayNonNegative | src/components/HabitTracker.tsx:65-74 | any sequence of toggles keeps every streak non-negative, the length and the ids |
| Habits.AddHabit | src/components/HabitTracker.tsx:77-95 | blank name changes nothing; otherwise one habit appended with trimmed name and description, streak 0, no days, unchecked, and the form reset |
| Habits.DeleteHabit | src/components/HabitTracker.tsx:97-99 | removes exactly the habits with the id |
| Habits.DeleteHabitKeepsOrder | src/components/HabitTracker.tsx:97-99 | the remaining habits keep their order |
| Habits.Progress | src/components/HabitTracker.tsx:103-105 | progress lies in 0..100, is 100 iff the streak is at least 30, and is streak/30 of 100 below that |
| Habits.ProgressMonotone | src/components/HabitTracker.tsx:103-105 | a longer streak never shows less progress |
| Habits.GenerateCalendarDays | src/components/HabitTracker.tsx:115-145 | `firstDay` blank cells, then one cell per day 1..daysInMonth, each marked iff it is today |
| Habits.CalendarDays | src/components/HabitTracker.tsx:121-143 | day cells are strictly increasing, lie in 1..daysInMonth at their position, and at most one is today |
| Goals.AddGoal | src/components/DailyGoals.tsx:19-34 | blank text changes nothing; otherwise one open goal with the trimmed text and chosen priority is appended, the input cleared and the priority back to medium |
| Goals.ToggleGoal | src/components/DailyGoals.tsx:36-42 | flips `completed` only on goals with the id |
| Goals.ToggleGoalTwice | src/components/DailyGoals.tsx:36-42 | toggling twice restores the list |
| Goals.ToggleMovesCountByOne | src/components/DailyGoals.tsx:36-42 | with distinct ids, one toggle moves the completed count by at most one |
| Goals.DeleteGoal | src/components/DailyGoals.tsx:44-46 | removes exactly the goals with the id |
| Goals.DeleteGoalKeepsOrder | src/components/DailyGoals.tsx:44-46 | the remaining goals keep their order |
| Goals.PriorityColor | src/components/DailyGoals.tsx:53-64 | high is red, medium yellow, low green, anything else grey |
| Goals.PriorityColorsDistinct | src/components/DailyGoals.tsx:53-64 | the three priorities get three different colours, none grey |
| Goals.GoalProgress | src/components/DailyGoals.tsx:148-154 | "No goals" iff the list is empty; otherwise completed <= total = list length |
| Planner.AddEvent | src/components/DailyPlanner.tsx:22-38 | adds only with a non-blank title and a non-empty time; the event keeps the fields as typed (title untrimmed); the form clears |
| Planner.DeleteEvent | src/components/DailyPlanner.tsx:40-42 | removes exactly the events with the id |
| Planner.DeleteEventKeepsOrder | src/components/DailyPlanner.tsx:40-42 | the remaining events keep their order |
| Planner.TimeLeTrans | src/components/DailyPlanner.tsx:49 | comparing times by character code is a transitive order |
| Planner.Insert | src/components/DailyPlanner.tsx:49 | inserting into a time-ordered list keeps it ordered and adds exactly the one event |
| Planner.SortEvents | src/components/DailyPlanner.tsx:49 | the shown list is ordered by time and is a permutation of the events |
| Planner.SortSortedIsIdentity | src/components/DailyPlanner.tsx:49 | an already ordered list is shown as it is |
| QuickWidgets.SplitLines | src/components/QuickWidgets.tsx:90 | `split('\n')` gives one line more than there are newlines, none containing a newline |
| QuickWidgets.JoinSplitLines | src/components/QuickWidgets.tsx:90 | joining the lines with '\n' gives the text back |
| QuickWidgets.MaxLength | src/components/QuickWidgets.tsx:92 | the longest line's length in UTF-16 code units bounds every line and is attained |
| QuickWidgets.CalculateNoteSize | src/components/QuickWidgets.tsx:89-119 | small iff at most 50 code units, 2 lines and 30 units per line; medium iff not small and at most 150, 4 and 50; large otherwise; dimensions from the size table |
| QuickWidgets.SizesIncrease | src/components/QuickWidgets.tsx:107-111 | a larger size is strictly wider and strictly taller |
| QuickWidgets.LinesWithinText | src/components/QuickWidgets.tsx:90-92 | no line is longer than the whole text, in code units |
| QuickWidgets.NoNewlineOneLine | src/components/QuickWidgets.tsx:90 | `split('\n')` of a text without a newline is that text alone |
| QuickWidgets.ShortLineIsSmall | src/components/QuickWidgets.tsx:98 | a one-line note of at most 30 code units is small |
| QuickWidgets.AstralLineIsMedium | src/components/QuickWidgets.tsx:91-100 | one line of 16 to 25 characters above U+FFFF (most emoji) is medium, since each counts as two units |
| QuickWidgets.FindNote | src/components/QuickWidgets.tsx:150 | `find` gives the first note with the id, or none exactly when no note has it |
| QuickWidgets.NewNote | src/components/QuickWidgets.tsx:123-136 | the new note has the trimmed text, the selected colour and the id, and its size comes from the untrimmed text |
| QuickWidgets.AddStep | src/components/QuickWidgets.tsx:121-140 | blank input changes nothing; otherwise one new note is appended and the input cleared |
| QuickWidgets.WithoutNote | src/components/QuickWidgets.tsx:143 | removes exactly the notes with the id |
| QuickWidgets.DownStep | src/components/QuickWidgets.tsx:146-159 | mouse-down on an existing note starts the drag with the grab offset; on a missing note changes nothing |
| QuickWidgets.MoveNoteContents | src/components/QuickWidgets.tsx:199-203 | the move changes only the notes with the id, to the new position; length kept |
| QuickWidgets.MoveOffScreen | src/components/QuickWidgets.tsx:174-186 | while dragging, a position wholly outside the window deletes the dragged note, keeps every other note, and ends the drag and edge flag |
| QuickWidgets.MoveOnScreen | src/components/QuickWidgets.tsx:166-203 | otherwise the drag continues, only the dragged note moves to pointer minus offset, and the edge flag says whether it is over 50 past an edge |
| QuickWidgets.MoveStepMoves | src/components/QuickWidgets.tsx:188-203 | an on-screen move of an existing dragged note sets the notes and the edge flag and nothing else |
| QuickWidgets.MoveStepDrops | src/components/QuickWidgets.tsx:180-186 | an off-screen move of an existing dragged note deletes it, ends the drag and clears the flag, nothing else |
| QuickWidgets.MoveWithoutDrag | src/components/QuickWidgets.tsx:162 | without a drag a mouse move changes nothing |
| QuickWidgets.MoveToOwnPlace | src/components/QuickWidgets.tsx:199-203 | with distinct ids, moving a note to where it is changes no note |
| QuickWidgets.GrabWithoutMoving | src/components/QuickWidgets.tsx:146-203 | grabbing an on-screen note and moving the pointer nowhere leaves every note in place |
| QuickWidgets.DropOffScreen | src/components/QuickWidgets.tsx:174-212 | dragging off screen and letting go leaves fewer notes, none with the id, and no drag |
| QuickWidgets.UpStep | src/components/QuickWidgets.tsx:207-212 | mouse-up ends any drag, clears the edge flag and keeps the notes |
| QuickWidgets.StickyBoard.constructor | src/components/QuickWidgets.tsx:16-24 | the board opens with the stored notes, an empty input, yellow selected and no drag |
| QuickWidgets.StickyBoard.AddStickyNote | src/components/QuickWidgets.tsx:121-140 | performs `AddStep` in place |
| QuickWidgets.StickyBoard.DeleteStickyNote | src/components/QuickWidgets.tsx:142-144 | replaces the notes by `WithoutNote`, nothing else |
| QuickWidgets.StickyBoard.HandleMouseDown | src/components/QuickWidgets.tsx:146-159 | performs `DownStep` in place |
| QuickWidgets.StickyBoard.HandleMouseMove | src/components/QuickWidgets.tsx:161-205 | performs the mouse-move step in place (the off-screen and on-screen lemmas above) |
| QuickWidgets.StickyBoard.HandleMouseUp | src/components/QuickWidgets.tsx:207-212 | performs `UpStep` in place |
| LifeBalance.ChangeValue | src/pages/LifeBalanceWheelPage.tsx:94-96 | only areas with the id take the new value; length and order kept |
| LifeBalance.StorageKeyInjective | src/pages/LifeBalanceWheelPage.tsx:90 | different weeks are saved under different keys |
| LifeBalance.WeekDataContents | src/pages/LifeBalanceWheelPage.tsx:85-88 | the saved record holds exactly the area ids, each mapped to the value of its last area |
| LifeBalance.SaveWeekData | src/pages/LifeBalanceWheelPage.tsx:84-91 | the `reduce` builds the specified record, stored under 'lifeBalance_' + week key |
| LifeBalance.Restored | src/pages/LifeBalanceWheelPage.tsx:79 | a present non-zero saved value replaces the area's; a missing or zero one keeps it |
| LifeBalance.LoadWeekData | src/pages/LifeBalanceWheelPage.tsx:73-82 | nothing saved leaves the areas; otherwise each area is restored in place |
| LifeBalance.SaveLoadRoundTrip | src/pages/LifeBalanceWheelPage.tsx:73-91 | with distinct ids and ratings in 1..10, saving a week and loading it restores every value |
| LifeBalance.SaveOtherWeek | src/pages/LifeBalanceWheelPage.tsx:73-91 | saving one week leaves what another week loads unchanged |
| LifeBalance.HandleValueChange | src/pages/LifeBalanceWheelPage.tsx:93-99 | the new areas are the changed ones, saved under the week's key, every other key untouched |
| LifeBalance.ChangeThenLoad | src/pages/LifeBalanceWheelPage.tsx:93-99 | loading the week after a change of a 1..10 rating shows the changed areas |
| LifeBalance.BalanceMessage | src/pages/LifeBalanceWheelPage.tsx:109-114 | excellent from 80, good in 60..79, moderate in 40..59, unbalanced below 40, one message per score |
| LifeBalance.BalanceMessageMonotone | src/pages/LifeBalanceWheelPage.tsx:109-114 | a higher score never gets a worse message |
| Header.InitialName | src/components/Header.tsx:16-20 | the saved name when present and non-empty, else 'Your Name'; never empty |
| Header.StoreEffect | src/components/Header.tsx:25-29 | stores the name exactly when it is non-empty and not 'Your Name' |
| Header.SaveStep | src/components/Header.tsx:45-53 | editing ends; a non-blank draft becomes the trimmed name and is stored; a blank one changes nothing else |
| Header.SearchStep | src/components/Header.tsx:31-38 | a blank search does nothing; otherwise the text is requested and the search form clears and closes |
| Header.InitialPersisted | src/components/Header.tsx:16-29 | on mount the stored name brings back the shown name, which is non-empty |
| Header.SavePersists | src/components/Header.tsx:45-53 | saving keeps the shown name non-empty and recoverable from storage |
| Header.StepsPersist | src/components/Header.tsx:25-66 | every handler keeps the shown name non-empty and recoverable from storage |
| Header.KeyMeaning | src/components/Header.tsx:60-66 | Enter saves, Escape cancels, any other key does nothing |
| Header.EditTypeCancel | src/components/Header.tsx:40-58 | edit, type anything, cancel: name and storage unchanged, editing over |
| Header.EditTypeSave | src/components/Header.tsx:40-53 | edit, type, save: a non-blank text is shown and stored trimmed; a blank one keeps the old name |
| Header.HeaderState.constructor | src/components/Header.tsx:14-29 | mounting with a saved name gives the initial view after the storing effect |
| Header.HeaderState.ApplyStoreEffect | src/components/Header.tsx:25-29 | performs the storing effect in place |
| Header.HeaderState.HandleNameEdit | src/components/Header.tsx:40-43 | editing starts with the draft set to the name |
| Header.HeaderState.SetTempName | src/components/Header.tsx:174 | the name input changes only the draft |
| Header.HeaderState.HandleNameSave | src/components/Header.tsx:45-53 | performs `SaveStep` in place |
| Header.HeaderState.HandleNameCancel | src/components/Header.tsx:55-58 | the draft returns to the name and editing ends |
| Header.HeaderState.HandleNameKeyPress | src/components/Header.tsx:60-66 | performs the key step in place |
| Header.HeaderState.ToggleSearch | src/components/Header.tsx:264 | flips only whether the search form shows |
| Header.HeaderState.SetSearchLocation | src/components/Header.tsx:280 | the search input changes only the search text |
| Header.HeaderState.HandleLocationSearch | src/components/Header.tsx:31-38 | performs `SearchStep` in place |
| Weather.IconLevel | src/services/weatherService.ts:10-15 | the four ranges below 10, 10..20, 20..30 and from 30 partition all temperatures |
| Weather.WeatherIcon | src/services/weatherService.ts:10-15 | snowflake iff below 10, sun behind cloud iff in [10, 20), sun iff in [20, 30), fire iff 30 or more |
| Weather.IconMonotone | src/services/weatherService.ts:10-15 | a warmer temperature never shows a colder icon |
| Weather.RoundHalfUp | src/services/weatherService.ts:37 | `Math.round` gives the integer within half a degree, halves going up |
| Weather.RoundHalfUpUnique | src/services/weatherService.ts:37 | that integer is the only one in the half-open window |
| Weather.ParseWeather | src/services/weatherService.ts:26-41 | the string codes '404' and '400' fail with 'Location not found'; otherwise a missing `main`, `weather` or first entry fails with 'Invalid weather data received'; otherwise rounded temperature, icon of the unrounded one, first description and the name |
| Weather.NumericCodPassesThrough | src/services/weatherService.ts:28 | a numeric 404 or 400 is not a not-found code and goes on to the other checks |
| Weather.IconFromUnroundedTemperature | src/services/weatherService.ts:37-38 | 9.5 degrees is shown as 10 under the snowflake, while 10 degrees gets the sun behind a cloud |
| Weather.IconAgreesWithShown | src/services/weatherService.ts:37-38 | away from the half degree below each threshold, the icon of the shown temperature is the icon shown |

## Left out

- Browser storage and JSON: `localStorage` reads and writes, `JSON.stringify`/`JSON.parse` and their failures. Stored collections are `seq`/`map` values, and the Pomodoro ledger is the timer's `sessions` field.
- Scheduling: `setInterval`/`setTimeout`, React effects, re-rendering and stale closures. The interval callback is the explicit `Tick` method, and the shell's periodic check is `CheckAchievements`.
- The clock and the calendar: `new Date()`, ISO date strings, the start of the week and locale date and time labels. Today, the week-ago date, the week key, `daysAgo(i)`, the month's length and its first weekday are parameters. The chart point's locale label is not modelled.
- `Date.now()` ids are parameters, and the source does not make them unique: two adds in the same millisecond get the same id. Three lemmas assume distinct ids and say so in their `requires`: `QuickWidgets.GrabWithoutMoving`, `QuickWidgets.MoveToOwnPlace` and `Goals.ToggleMovesCountByOne`. `Todos.AddQuickTodo` takes its two `Date.now()` calls (id and timestamp) as two parameters.
- Randomness. The sticky note's initial position uses the two `Math.random()` draws as `rx` and `ry`. StatsPage's random per-day chart (src/pages/StatsPage.tsx:93-111) and the motivational quotes are not modelled.
- Floating point:
  - Ratios are rounded exactly (`RoundDiv`, `Percent`).
  - Temperatures and note positions are exact reals.
  - Habit progress is an exact real.
  - The life-balance variance score (src/pages/LifeBalanceWheelPage.tsx:101-107) is not modelled; `BalanceMessage` takes the score as input.
- The network and geolocation: the `fetch` in `getWeatherByLocation` and all of src/context/WeatherContext.tsx. `ParseWeather` takes the decoded response body. `Header.HeaderState.HandleLocationSearch` records the looked-up location in `requested` instead of calling the weather context.
- DOM and UI: JSX, CSS classes, dark mode, image fallbacks, the Ctrl+Q listener, the storage and focus listeners on the statistics page, and the cursor styling while dragging.
- `Common.Trim`: whitespace is JavaScript's set (the Unicode space separators, tab, vertical tab, form feed, no-break space, byte-order mark and the line terminators). It is listed explicitly, not taken from a Unicode table.
- `Stats.UpperChar`: upper-casing is ASCII only. `toUpperCase` of other letters is not modelled.
- `Planner.SortEvents`: `localeCompare` on "HH:MM" strings is modelled as character-code order. Sort stability is not stated, so the result is pinned down only up to the order of events with equal times.
- `Header.SaveStep`: the source also re-runs the storing effect after the save. That gives the same state (the name was just stored), so the model stores once.
- `App.AchievementCenter.CheckAchievements`: the guard is modelled as written (phrase search). The corrected type guard is `App.CheckedOnce`, proved separately; see Findings.
- `Pomodoro.PomodoroTimer.Tick`: requires a reachable display (`Valid`). Every constructor and method keeps this true, so no caller of the component can break it.

## Findings

| source | as written | input that shows it | evidently intended | confidence | as-written member | corrected member |
|---|---|---|---|---|---|---|
| src/App.tsx:55-89 | "Already announced" is decided by searching the messages for '50 focused minutes', 'weekly goal' and 'completed 10 tasks'. The generated messages contain these phrases only for some counts ('weekly goal' never), so the check announces the same goal again every time it runs | weekMinutes = 1000: every check appends another weekly notice; todayMinutes = 75 or 11 completed to-dos: the second check repeats the daily or milestone notice | announce each achievement type once, until it is closed | not executed | App.WeeklyAnnouncedEveryCheck | App.CheckedOnceIdempotent |
| src/pages/FocusHistoryPage.tsx:394-396 | `filter(pomodoro).slice(0, 5)` under the heading and comment "last 5 sessions". The ledger is appended to, so this shows the five OLDEST focus sessions | six focus sessions: the newest is not listed | the five most recent focus sessions | not executed | FocusHistory.RecentSessionsOmitsNewest | FocusHistory.RecentSessionsShowNewest |
