# TaskFlow Pro core in Dafny

TaskFlow Pro is a task manager that turns free text into tasks. This
project models its core in Dafny:

- **The single-sentence parser** `parseNaturalLanguage`. It reads a
  priority token, an assignee, a clock time and a date expression out of
  one line, and cleans up the title.
- **The meeting-minutes parser** `parseMeetingMinutes`, with
  `parseDateFromText` and `extractPriority`. It splits a transcript into
  sentences and yields at most one task per sentence.
- **The operations around them**:
  - the board's filter, sort and status columns;
  - the page's task list (add, add a batch, update, delete, the assignees it
    offers);
  - the analytics counts;
  - the filter panel's operations on the settings;
  - the meeting preview's handlers;
  - the task card's edit buffer and status moves.

Every regular expression of the parsers is a hand-written matcher over
`seq<char>`. It tries alternatives, optional groups and greedy or lazy
repetitions in the order a backtracking JavaScript engine does. A leftmost
search calls the matcher at each position in turn (`Text.FindFrom`).

Time is local wall-clock time in whole milliseconds since 1970-01-01 00:00
(`Calendar.Millis`). The reading of `new Date()` is a parameter
`now: Clock` giving year, month, day and the milliseconds into that day.
Day numbers follow the ECMAScript MakeDay/DayFromYear formulas. Because of
this, `new Date(y, m, d)` with an out-of-range month or day carries over
the way the JavaScript constructor does.

Modules:

| module | file | models |
|---|---|---|
| Options, Seqs, Text | options.dfy, seqs.dfy, text.dfy | option values, filtering and counting, characters, trimming, whitespace collapsing, substring search |
| Calendar | calendar.dfy | day numbers, `new Date(y, m, d)`, `setDate`, `setHours`, `setFullYear`, weekdays |
| Tasks | tasks.dfy | `Task`, `FilterState`, the priority and status names, `isOverdue` |
| DueDates | due_dates.dfy | the clock-time capture, 12-hour to 24-hour conversion and the date handlers |
| NlpParser | nlp_parser.dfy | `parseNaturalLanguage` |
| MeetingDates | meeting_dates.dfy | `parseDateFromText` |
| MeetingParser | meeting_parser.dfy | `parseMeetingMinutes`, `extractPriority` |
| TaskBoard | task_board.dfy | the board's filter, comparator, sort, columns and empty view |
| TaskStore | task_store.dfy | the page's task list |
| TaskAnalytics | task_analytics.dfy | the analytics metrics and chart data |
| FilterPanel | filter_panel.dfy | the filter panel |
| MeetingPreview | meeting_preview.dfy | the meeting preview handlers |
| TaskCard | task_card.dfy | the task card |

The two parsers work by step-by-step updates. Each is a `method` whose
loops are proved equal to a specification function, and the properties
are proved as lemmas about those functions. The page's list, the preview
and the card update state in place. Each is a `class` whose methods state
the new state in their `ensures` and keep the class invariant.

## Model

| member | source | states |
|---|---|---|
| Tasks.LevelOfDigit | src/utils/nlp-parser.ts:19-22 | the level a digit 1-4 names is the one whose name is `P` followed by that digit |
| Tasks.PriorityNameInjective | src/pages/Index.tsx:18 | different priorities have different names |
| Tasks.StatusNameInjective | src/pages/Index.tsx:19 | different statuses have different names |
| Tasks.OverdueNeedsDueDate | src/components/TaskCard.tsx:100 | a task without a due date, or a completed one, is never overdue |
| Text.ToLower | src/utils/nlp-parser.ts:18 | lowercasing keeps the length and maps each character on its own |
| Text.Trim | src/utils/nlp-parser.ts:10 | the result is trimmed, a contiguous slice of the input, and empty exactly when the input is all whitespace |
| Text.TrimOfTrimmed | src/utils/nlp-parser.ts:152 | trimming a trimmed string changes nothing |
| Text.CollapseSpaces | src/utils/nlp-parser.ts:151 | no whitespace run remains, every remaining whitespace is a single space, and the result is empty only for the empty input |
| Text.NonSpace | src/utils/nlp-parser.ts:151 | the non-whitespace characters of a text, in order, none of them whitespace |
| Text.CollapseKeepsNonSpace | src/utils/nlp-parser.ts:151 | collapsing whitespace keeps every non-whitespace character, in order |
| Text.TrimKeepsNonSpace | src/utils/nlp-parser.ts:152 | trimming drops whitespace only |
| Text.Tidy | src/utils/nlp-parser.ts:151-152 | collapsing and trimming give a trimmed string with single spaces only, with the same non-whitespace characters in the same order |
| Text.CollapseOfSingleSpaced | src/utils/nlp-parser.ts:151 | collapsing whitespace leaves a text without whitespace runs, whose whitespace is all spaces, unchanged |
| Text.TidyOfTidy | src/utils/nlp-parser.ts:151-152 | collapsing and trimming are idempotent: a trimmed, single-spaced text is kept as it is |
| Text.RemoveFirst | src/utils/nlp-parser.ts:24 | `replace` with a string removes its first occurrence and nothing else, or leaves the string when it does not occur |
| Text.ParseDigits | src/utils/nlp-parser.ts:57-58 | `parseInt` of one or two digits is their decimal value, below 10 or 100 |
| Calendar.DayFromYearIsFormula | src/utils/nlp-parser.ts:114 | the day-by-day count of days before a year equals the ECMAScript closed form |
| Calendar.Normalize | src/utils/nlp-parser.ts:116 | a year, month and overflowing day roll over into a valid calendar date |
| Calendar.NormalizeValid | src/utils/nlp-parser.ts:116 | a date that is already valid is left as it is |
| Calendar.StartOfToday | src/utils/nlp-parser.ts:49 | `today` is the midnight that starts the day of `now`, at most `now` and less than a day before it |
| Calendar.DateAtMidnight | src/utils/nlp-parser.ts:129 | `new Date(y, m, d)` is a midnight on day MakeDay(y, m, d) |
| Calendar.AddDays | src/utils/nlp-parser.ts:72-73 | `setDate(getDate() + n)` moves exactly n days and keeps the time of day |
| Calendar.SetHours | src/utils/nlp-parser.ts:144-146 | with a valid hour and minute the day is kept, hour and minute are set and seconds and milliseconds are 0 |
| Calendar.DaysUntil | src/utils/nlp-parser.ts:87 | the offset is 1..7, lands on the target weekday, and is 7 exactly when the target is today's weekday |
| Calendar.WeekdayAfterDaysUntil | src/utils/nlp-parser.ts:84-91 | today plus the offset is a midnight after `now` on the target weekday |
| DueDates.DayIndex | src/utils/nlp-parser.ts:84-85 | `days.indexOf` of a weekday name is its position in the Sunday-first list |
| DueDates.TimeMarker | src/utils/nlp-parser.ts:52 | the marker found is `am` or `pm` as the flag says, after only spaces, at the end of the match, and followed by a word boundary in the bounded form |
| DueDates.FindTime | src/utils/nlp-parser.ts:52 | the match found is the leftmost position where the time pattern matches, with 1-2 hour digits, optional `:` and two minute digits, and an `am`/`pm` marker that sets the flag; no match means no position matches |
| DueDates.To24 | src/utils/nlp-parser.ts:61-62 | for hours 1-12 the 24-hour value is below 24 |
| DueDates.To24Cases | src/utils/nlp-parser.ts:61-62 | 12am is 0, 12pm is 12, any other pm hour adds 12, any other am hour is kept |
| DueDates.To24RoundTrip | src/utils/nlp-parser.ts:61-62 | the conversion is a bijection between 1-12 with am/pm and 0-23 |
| DueDates.ReadTime | src/utils/nlp-parser.ts:57-58 | the minutes are 0 when none were written |
| DueDates.WeekdayDate | src/utils/nlp-parser.ts:82-104 | the weekday handler gives a midnight on the target weekday 1 to 7 days ahead, 7 exactly when today is that weekday |
| DueDates.DayMonthNotBeforeNow | src/utils/nlp-parser.ts:114-117 | the day-month handler never gives a date before `now` |
| DueDates.DayMonthCalendar | src/utils/nlp-parser.ts:114-117 | the date is this year's when that is not before `now`, else the same day next year |
| DueDates.NumericDateYear | src/utils/nlp-parser.ts:124-129 | M/D uses month M-1; a year below 100 means 2000 plus it; no year means the current year |
| DueDates.Resolve | src/utils/nlp-parser.ts:70-130 | every handler gives a midnight: tomorrow is the next day, today is today, a weekday is after `now` on that weekday, a day-month is not before `now` |
| NlpParser.PriorityTokenAt | src/utils/nlp-parser.ts:16 | a priority token ends in a digit 1-4 and has no other digit |
| NlpParser.LevelIsTokenDigit | src/utils/nlp-parser.ts:18-22 | the level the `includes` cascade picks for a token is the one its digit names |
| NlpParser.ParsePriority | src/utils/nlp-parser.ts:13-22 | the priority is P followed by the matched token's digit, and P3 when nothing matches |
| NlpParser.FirstAccepted | src/utils/nlp-parser.ts:34-45 | the chosen name pattern is accepted and no earlier one is |
| NlpParser.ParseAssignee | src/utils/nlp-parser.ts:28-45 | the assignee is empty exactly when no pattern yields a capture outside the common words; otherwise the first such pattern's capture |
| NlpParser.WeekdayNameAt | src/utils/nlp-parser.ts:82-95 | a weekday matched ends with the name, ignoring case, of the day it targets |
| NlpParser.MonthAfter | src/utils/nlp-parser.ts:108 | a day-month cue carries the day read before it and the month whose name, ignoring case, ends the match after one space |
| NlpParser.NumericAfterMonth | src/utils/nlp-parser.ts:122 | a numeric cue's month is the digits before the `/`, its day the 1-2 digits after it, and its year, when present, the 2-4 digits after a second `/` |
| NlpParser.DateAt | src/utils/nlp-parser.ts:68-131 | a pattern matching at a position gives a cue of its kind that the matched text spells: the word, the weekday name, or the digits and month name |
| NlpParser.MatchDate | src/utils/nlp-parser.ts:135 | the match is at the leftmost position where the pattern matches, and its cue is what the matched text spells; no match means no position matches |
| NlpParser.FirstDate | src/utils/nlp-parser.ts:134-141 | the chosen date pattern matches and no earlier one does |
| NlpParser.ParseDueDateIffDateMatched | src/utils/nlp-parser.ts:134-146 | the due date is set exactly when some date pattern matches the input, whatever the time match |
| NlpParser.ParseDueDateTime | src/utils/nlp-parser.ts:49-146 | the first matching pattern's date; at midnight without a time; with a valid time, that day at that hour and minute with seconds 0 |
| NlpParser.DropTrailingWord | src/utils/nlp-parser.ts:150 | the title is kept when no trailing by/before/on/at/for/with/to/and/or matches; otherwise it is cut at the leftmost match, which lies inside the title |
| NlpParser.CleanTitle | src/utils/nlp-parser.ts:149-152 | the cleaned title is trimmed with single spaces only and keeps the non-whitespace characters of the title with its trailing connective dropped, in order |
| NlpParser.StripRemovesFirst | src/utils/nlp-parser.ts:24 | `title.replace(piece, '').trim()` removes the first occurrence of the piece and trims; without one it only trims |
| NlpParser.PriorityText | src/utils/nlp-parser.ts:16 | the priority text removed is empty exactly when no priority token matched, and otherwise occurs in the input |
| NlpParser.NameText | src/utils/nlp-parser.ts:41 | the name text removed is empty exactly when no name pattern was accepted, and otherwise occurs in the input |
| NlpParser.ClockText | src/utils/nlp-parser.ts:52 | the time text is empty without a time match, and otherwise non-empty and in the input |
| NlpParser.DateText | src/utils/nlp-parser.ts:138 | the date text is empty without a date match, and otherwise in the input |
| NlpParser.TitleStages | src/utils/nlp-parser.ts:10-139 | the title before cleanup is the trimmed input with the priority, name, time and date texts removed in that order, each by its first occurrence |
| NlpParser.ParseTitle | src/utils/nlp-parser.ts:149-155 | when cleanup of the stripped title leaves nothing the title is the input; otherwise it is that cleaned title, which is trimmed with single spaces only |
| NlpParser.ReparseKeepsTitle | src/utils/nlp-parser.ts:149-155 | stripping is idempotent: a non-empty, trimmed, single-spaced title with no priority token, name phrase, clock reading, date expression or trailing connective parses back to itself |
| NlpParser.ReadPriority | src/utils/nlp-parser.ts:15-25 | the priority step gives the priority and the title it leaves |
| NlpParser.ReadAssignee | src/utils/nlp-parser.ts:27-45 | the name loop gives the assignee and the title it leaves |
| NlpParser.ReadClock | src/utils/nlp-parser.ts:51-65 | the time step gives hours, minutes and the title it leaves |
| NlpParser.ReadDate | src/utils/nlp-parser.ts:67-141 | the date loop gives the due date and the title it leaves |
| NlpParser.ParseNaturalLanguage | src/utils/nlp-parser.ts:9-160 | the step-by-step parse equals the parse function the lemmas speak about |
| MeetingParser.SplitSentences | src/utils/meeting-parser.ts:13 | there is at least one piece and no piece holds `.`, `!` or `?` |
| MeetingParser.Separators | src/utils/meeting-parser.ts:13 | every separator is a non-empty run of `.`, `!` and `?` |
| MeetingParser.SplitSentencesRebuilds | src/utils/meeting-parser.ts:13 | there is one separator fewer than pieces, and the pieces interleaved with the separators rebuild the transcript |
| MeetingParser.SplitSentencesLosesOnlyPunctuation | src/utils/meeting-parser.ts:13 | the pieces joined are the transcript without its sentence-end characters |
| MeetingParser.SentencesShape | src/utils/meeting-parser.ts:13 | every sentence kept is non-blank and holds no sentence end |
| MeetingParser.MatchTask | src/utils/meeting-parser.ts:19-29 | a pattern match has groups that are spans of the sentence |
| MeetingParser.AssigneeIsWord | src/utils/meeting-parser.ts:21-25 | the assignee group is a non-empty run of word characters |
| MeetingParser.PatternTaskGroups | src/utils/meeting-parser.ts:31-39 | assign/give takes the name from its second group and the title from its first; the other patterns the other way round |
| MeetingParser.ArticleEnd | src/utils/meeting-parser.ts:43 | a leading `the`, `a` or `an`, in any case, followed by whitespace is cut through the whole whitespace run; the cut is 0 exactly when the title starts with none of them |
| MeetingParser.CleanTaskTitle | src/utils/meeting-parser.ts:42-45 | the cleaned title is trimmed with single spaces only and keeps the non-whitespace characters after the leading article, in order |
| MeetingParser.PatternTaskShape | src/utils/meeting-parser.ts:41-63 | a pattern's task has a usable cleaned title, a word as assignee, the sentence's priority, and a due date only with a `by` phrase |
| MeetingParser.SentenceTaskInOrder | src/utils/meeting-parser.ts:28-66 | a sentence's task is the first pattern's task, else the second's, else the third's; a refused title falls through to the next pattern |
| MeetingParser.SentenceTaskShape | src/utils/meeting-parser.ts:42-63 | every task has a title of 3 or more characters that is not a bare pronoun, a word as assignee and the priority of the whole trimmed sentence |
| MeetingParser.TasksOf | src/utils/meeting-parser.ts:15-68 | no more tasks than sentences |
| MeetingParser.TasksOfCollects | src/utils/meeting-parser.ts:15-68 | the tasks are the sentences' tasks in sentence order, skipping sentences without one |
| MeetingParser.MeetingTasksFromSentences | src/utils/meeting-parser.ts:13-70 | at most one task per sentence; a task is in the result exactly when some sentence yields it |
| MeetingParser.PriorityWordAt | src/utils/meeting-parser.ts:156 | a priority word found is one of P1-P4, `priority N`, urgent, `high priority` or critical, between word boundaries |
| MeetingParser.LevelWordLevel | src/utils/meeting-parser.ts:159-162 | `Pn` gives the level n names |
| MeetingParser.NumberedWordLevel | src/utils/meeting-parser.ts:159-165 | `priority N` falls through to P3 for every N |
| MeetingParser.HighPriorityWordLevel | src/utils/meeting-parser.ts:161 | `high priority` gives P2 |
| MeetingParser.WordLevelOfShape | src/utils/meeting-parser.ts:158-165 | each kind of priority word gives its level: P1 for urgent and critical, P2 for `high priority`, P3 for `priority N` |
| MeetingParser.ExtractPriorityByWord | src/utils/meeting-parser.ts:155-166 | the priority is the level of the leftmost priority word, and P3 without one |
| MeetingParser.ReadSentence | src/utils/meeting-parser.ts:16-67 | the pattern loop for one sentence gives that sentence's task |
| MeetingParser.SentenceTaskFrom | src/utils/meeting-parser.ts:31-63 | the body of the pattern loop gives the task of the groups matched |
| MeetingParser.ParseMeetingMinutes | src/utils/meeting-parser.ts:9-71 | the nested loops give the function the lemmas speak about |
| MeetingDates.DropWordsFrom | src/utils/meeting-parser.ts:79 | removing the filler words never lengthens the text |
| MeetingDates.DropWordsKeeps | src/utils/meeting-parser.ts:79 | removing the filler words only drops characters, and a text without any is kept as it is |
| MeetingDates.DroppedWordIsFiller | src/utils/meeting-parser.ts:79 | a word is dropped at a position exactly when a whole word, bounded on both sides, starts there and is one of by, before, on, at, this, next, the |
| MeetingDates.DropWordsLeavesNoFiller | src/utils/meeting-parser.ts:79 | no filler word is left at any position of the result |
| MeetingDates.DateWords | src/utils/meeting-parser.ts:78-80 | the phrase is lower-cased, has no filler word left, is trimmed and is no longer than before |
| MeetingDates.WeekdayTextAt | src/utils/meeting-parser.ts:113 | a weekday matched at a position is the name of the day it targets |
| MeetingDates.DayMonthTextAt | src/utils/meeting-parser.ts:126 | a day-month matched at a position has its day spelled by 1-2 digits there and its month name in the text |
| MeetingDates.MatchDay | src/utils/meeting-parser.ts:99-139 | tomorrow matches exactly when `tomorrow` occurs; today exactly when `today` or `tonight` occurs; a weekday gives the day whose name occurs, a day-month the month whose name occurs and a day spelled by digits, each at the leftmost matching position |
| MeetingDates.FirstDay | src/utils/meeting-parser.ts:141-150 | the chosen day pattern matches and no earlier one does |
| MeetingDates.ReadPhraseClock | src/utils/meeting-parser.ts:83-96 | the time step finds the phrase's time, its hours and minutes, and the rest of the phrase |
| MeetingDates.ParseDateFromText | src/utils/meeting-parser.ts:73-153 | the step-by-step reading equals the date function the lemmas speak about |
| MeetingDates.DateFoundIffPatternMatched | src/utils/meeting-parser.ts:141-152 | a date is found exactly when some day pattern matches what is left of the phrase |
| MeetingDates.DateFromTextTime | src/utils/meeting-parser.ts:141-148 | without a time the date is a midnight; with a valid time the same day at that hour and minute |
| MeetingDates.TomorrowWins | src/utils/meeting-parser.ts:99-107 | a phrase holding `tomorrow` always gives a date, and with no time or a valid one it is on the day after today |
| TaskBoard.FilterTasks | src/components/TaskBoard.tsx:23-33 | exactly the tasks that pass every set filter are kept |
| TaskBoard.DefaultFiltersKeepAll | src/components/TaskBoard.tsx:23-33 | with no filter set every task is kept in order |
| TaskBoard.FilterKeepsOrder | src/components/TaskBoard.tsx:23 | filtering keeps the order: filtering a concatenation filters each part |
| TaskBoard.SearchIgnoresCase | src/components/TaskBoard.tsx:24-26 | two searches that lowercase alike keep the same tasks |
| TaskBoard.StrCompare | src/components/TaskBoard.tsx:52 | the string order gives -1, 0 or 1, and 0 exactly for equal strings |
| TaskBoard.StrCompareAntisymmetric | src/components/TaskBoard.tsx:52 | swapping the strings negates the comparison |
| TaskBoard.StrCompareTransitive | src/components/TaskBoard.tsx:52 | the string order is transitive |
| TaskBoard.CompareAntisymmetric | src/components/TaskBoard.tsx:36-60 | swapping two tasks negates the comparator for every key and order |
| TaskBoard.CompareTransitive | src/components/TaskBoard.tsx:36-60 | the comparator is transitive for every key and order |
| TaskBoard.Insert | src/components/TaskBoard.tsx:36 | inserting into a sorted list keeps it sorted and adds exactly that task |
| TaskBoard.Sort | src/components/TaskBoard.tsx:36 | the sorted list is a permutation of its input, ordered by the comparator |
| TaskBoard.SortedIsFiltered | src/components/TaskBoard.tsx:23-36 | a task is shown exactly when it is in the list and passes the filters |
| TaskBoard.DueDateAscending | src/components/TaskBoard.tsx:42-45 | by due date ascending, dated tasks come before undated ones and in time order |
| TaskBoard.PriorityOrder | src/components/TaskBoard.tsx:48-59 | by priority, P1 before P4 ascending and the reverse descending |
| TaskBoard.Column | src/components/TaskBoard.tsx:63-67 | a column holds only tasks of its status |
| TaskBoard.ColumnsPartition | src/components/TaskBoard.tsx:63-67 | the three columns together hold every shown task once: multisets and lengths add up |
| TaskBoard.ColumnSorted | src/components/TaskBoard.tsx:63-67 | each column keeps the sorted order |
| TaskBoard.EmptyViewIffNoMatch | src/components/TaskBoard.tsx:90 | the empty view shows exactly when no task passes the filters |
| TaskBoard.HasFiltersCases | src/components/TaskBoard.tsx:91 | the default settings count as no filter; a priority or status value, a non-default sort key or `desc` counts |
| TaskStore.DecimalString | src/pages/Index.tsx:67 | `toString` of a clock reading is a non-empty digit string that reads back as that number |
| TaskStore.DecimalStringInjective | src/pages/Index.tsx:67 | different readings give different ids |
| TaskStore.MakeTask | src/pages/Index.tsx:64-69 | the stored task carries the given fields, id and creation time |
| TaskStore.FieldsRoundTrip | src/pages/Index.tsx:64-69 | the fields read back from a new task are the ones given |
| TaskStore.Batch | src/pages/Index.tsx:78-83 | task i of a batch has field set i, creation time i and the id of reading i plus i |
| TaskStore.BatchIdsDistinct | src/pages/Index.tsx:81 | with a clock that never goes back, the ids of one batch are pairwise distinct |
| TaskStore.Merge | src/pages/Index.tsx:95 | each field the update sets replaces the task's, the others stay |
| TaskStore.MergeIdempotent | src/pages/Index.tsx:95 | merging the same update twice is merging it once |
| TaskStore.MergeEmpty | src/pages/Index.tsx:95 | an empty update changes nothing |
| TaskStore.Updated | src/pages/Index.tsx:93-97 | the length stays, the tasks with the id are merged and all others are identical |
| TaskStore.UpdateIdempotent | src/pages/Index.tsx:93-97 | an update that keeps the id can be repeated without effect |
| TaskStore.UpdateMissingId | src/pages/Index.tsx:93-97 | an update for an id no task has changes nothing |
| TaskStore.Deleted | src/pages/Index.tsx:99-101 | no task with the id remains |
| TaskStore.DeletedKeepsOthers | src/pages/Index.tsx:100 | every task without the id stays as often as before, every one with it goes |
| TaskStore.DeletedKeepsOrder | src/pages/Index.tsx:100 | deletion keeps the order of the remaining tasks |
| TaskStore.DeleteUndoesAdd | src/pages/Index.tsx:64-101 | deleting a task just added under a fresh id gives the old list back |
| TaskStore.UniqueAssignees | src/pages/Index.tsx:108 | the offered names are distinct, non-empty, each some task's assignee, and no more than the tasks |
| TaskAnalytics.UniqueStep | src/pages/Index.tsx:108 | the list grows in first-appearance order: a task adds its assignee at the end exactly when it is non-empty and not yet listed |
| TaskStore.AssigneeOffered | src/pages/Index.tsx:108 | every non-empty assignee is offered |
| TaskStore.TaskList.constructor | src/pages/Index.tsx:33 | the list starts empty |
| TaskStore.TaskList.AddTask | src/pages/Index.tsx:64-70 | the new task goes first and the old list follows unchanged |
| TaskStore.TaskList.AddTasks | src/pages/Index.tsx:78-85 | the batch goes first in its order and the old list follows |
| TaskStore.TaskList.UpdateTask | src/pages/Index.tsx:93-97 | the list becomes the updated list |
| TaskStore.TaskList.DeleteTask | src/pages/Index.tsx:99-101 | the list becomes the list without the id |
| TaskAnalytics.StatusCountsSum | src/components/TaskAnalytics.tsx:26-29 | completed, in-progress and pending add up to the total |
| TaskAnalytics.OverdueBound | src/components/TaskAnalytics.tsx:30-32 | the overdue tasks number at most the total minus the completed ones |
| TaskAnalytics.OverdueIgnores | src/components/TaskAnalytics.tsx:30-32 | a task without due date, or a completed one, never adds to the overdue count |
| TaskAnalytics.Percent | src/components/TaskAnalytics.tsx:34 | the rate is 0 for no tasks, else the nearest integer to 100·completed/total, halves rounded up, and at most 100 |
| TaskAnalytics.CompletionRate | src/components/TaskAnalytics.tsx:34 | the completion rate lies in 0..100 |
| TaskAnalytics.CompletionRateEnds | src/components/TaskAnalytics.tsx:34 | no completed task gives 0; all completed gives 100 |
| TaskAnalytics.PriorityData | src/components/TaskAnalytics.tsx:43-48 | only levels with a positive count appear, each with its count, in P1..P4 order, and every such level appears |
| TaskAnalytics.PriorityDataTotal | src/components/TaskAnalytics.tsx:43-48 | the chart's values add up to the number of tasks |
| TaskAnalytics.AssigneeDataEntries | src/components/TaskAnalytics.tsx:50-57 | one entry per distinct non-empty assignee, each with a positive count |
| TaskAnalytics.AssigneeDataTotal | src/components/TaskAnalytics.tsx:50-57 | the counts add up to the number of tasks with an assignee |
| TaskAnalytics.NotOfferedCount | src/components/TaskAnalytics.tsx:52-53 | a name no task carries has no tasks |
| TaskAnalytics.ComputeAssigneeData | src/components/TaskAnalytics.tsx:50-57 | the reduce over a mutable map gives the assignee counts in order of first appearance |
| FilterPanel.UpdateFilter | src/components/FilterPanel.tsx:22-24 | the named key gets the value and every other key stays |
| FilterPanel.UpdateFilterLaws | src/components/FilterPanel.tsx:22-24 | writing the current value is the identity, the last write wins, and writes to different keys commute |
| FilterPanel.ResetFilters | src/components/FilterPanel.tsx:26-35 | every filter is cleared and the sort is due date ascending |
| FilterPanel.ResetIsDefault | src/components/FilterPanel.tsx:26-35 | the reset gives exactly the page's starting settings, which keep every task and count as no filter |
| FilterPanel.ActiveFiltersCount | src/components/FilterPanel.tsx:37-40 | the count is the number of non-empty values among assignee, priority and status, at most 3 |
| FilterPanel.NoActiveFilterKeepsAll | src/components/FilterPanel.tsx:37-40 | with no active filter and no search every task is kept |
| FilterPanel.ToggleSortOrder | src/components/FilterPanel.tsx:42-47 | `asc` becomes `desc`, anything else `asc`, and the other keys stay |
| FilterPanel.ToggleTwice | src/components/FilterPanel.tsx:42-47 | toggling twice is the identity on `asc` and `desc` |
| FilterPanel.ToggleReverses | src/components/FilterPanel.tsx:42-47 | toggling negates every comparison the board sorts by |
| MeetingPreview.RemoveAt | src/components/MeetingMinutesInput.tsx:64 | exactly position i goes and the others keep their order |
| MeetingPreview.ToAdd | src/components/MeetingMinutesInput.tsx:68-74 | as many entries as tasks, in order, with the parsed fields and status pending |
| MeetingPreview.Edited | src/components/MeetingMinutesInput.tsx:165-186 | the inputs set title, assignee and priority and keep the due date |
| MeetingPreview.AssignAt | src/components/MeetingMinutesInput.tsx:50-51 | assigning at an index sets it, keeps the other entries, and leaves holes when it is past the end |
| MeetingPreview.ParseAsWritten | src/components/MeetingMinutesInput.tsx:30-41 | as written, a blank transcript changes nothing; otherwise the parsed tasks replace the list |
| MeetingPreview.ReplaceAsWritten | src/components/MeetingMinutesInput.tsx:38 | as written, replacing the list leaves the editor index and buffer as they were |
| MeetingPreview.EditAsWritten | src/components/MeetingMinutesInput.tsx:43-46 | the editor opens on the index with that entry as buffer, the list unchanged |
| MeetingPreview.SaveAsWritten | src/components/MeetingMinutesInput.tsx:48-56 | saving with no open editor does nothing; otherwise the buffer is assigned at the editing index and the editor closes |
| MeetingPreview.RemoveAsWritten | src/components/MeetingMinutesInput.tsx:63-65 | as written, the entry goes and the editor index and buffer stay as they were |
| MeetingPreview.RemoveWhileEditingLosesTask | src/components/MeetingMinutesInput.tsx:43-65 | as written, edit the second of three, remove the first, save: the third task is lost and the second kept twice |
| MeetingPreview.AddAllAsWritten | src/components/MeetingMinutesInput.tsx:67-79 | as written, the list empties and the editor index and buffer stay as they were |
| MeetingPreview.AddAllLeavesEditorOpen | src/components/MeetingMinutesInput.tsx:43-79 | as written, add-all empties the list but keeps the editor on an index and buffer |
| MeetingPreview.ReparseWhileEditingKeepsStaleBuffer | src/components/MeetingMinutesInput.tsx:30-56 | as written, edit the second of two tasks, parse a transcript with two new tasks, save: the second new task is overwritten with the old buffer |
| MeetingPreview.MeetingPreview.constructor | src/components/MeetingMinutesInput.tsx:17-21 | empty transcript and list, editor closed |
| MeetingPreview.MeetingPreview.SetTranscript | src/components/MeetingMinutesInput.tsx:109 | only the transcript changes |
| MeetingPreview.MeetingPreview.ParseMeeting | src/components/MeetingMinutesInput.tsx:30-41 | a blank transcript changes nothing; otherwise the list becomes the transcript's tasks |
| MeetingPreview.MeetingPreview.EditTask | src/components/MeetingMinutesInput.tsx:43-46 | the editor opens on that index with a copy of its task, and the list stays |
| MeetingPreview.MeetingPreview.ChangeEditData | src/components/MeetingMinutesInput.tsx:165-186 | only the buffer changes |
| MeetingPreview.MeetingPreview.SaveEdit | src/components/MeetingMinutesInput.tsx:48-56 | only the edited entry is replaced, the length stays, and the editor closes |
| MeetingPreview.MeetingPreview.CancelEdit | src/components/MeetingMinutesInput.tsx:58-61 | the editor closes and the list stays |
| MeetingPreview.MeetingPreview.RemoveTask | src/components/MeetingMinutesInput.tsx:63-65 | exactly that entry goes; an open editor on that entry closes, one on a later entry moves back by one and keeps its buffer, and any other editor state is kept |
| MeetingPreview.MeetingPreview.AddAllTasks | src/components/MeetingMinutesInput.tsx:67-79 | the parsed tasks go out as pending, in order; transcript and list are emptied |
| TaskCard.BufferOf | src/components/TaskCard.tsx:31-35 | the buffer holds the task's title, assignee and priority |
| TaskCard.SaveUpdate | src/components/TaskCard.tsx:56-57 | the save sends title, assignee and priority and nothing else |
| TaskCard.StatusUpdate | src/components/TaskCard.tsx:235-269 | a status button sends the status and nothing else |
| TaskCard.SaveChangesOnlyEdited | src/components/TaskCard.tsx:56-59 | saving changes exactly the three edited fields; saving an untouched buffer changes nothing |
| TaskCard.SaveInList | src/components/TaskCard.tsx:57 | in the list a save touches only the card's task, and there only the three edited fields |
| TaskCard.OfferedTransitions | src/components/TaskCard.tsx:231-274 | pending offers in progress; in progress offers pending and completed; completed offers pending; never the current status |
| TaskCard.TransitionPaths | src/components/TaskCard.tsx:231-274 | completion is reached only from in progress; pending is always at most one move away; from any status but completed, completion is at most two moves away |
| TaskCard.StatusMoveInList | src/components/TaskCard.tsx:235-269 | a status move changes the status of the card's task and nothing else |
| TaskCard.Card.constructor | src/components/TaskCard.tsx:30-35 | the card starts closed with the task's fields in the buffer |
| TaskCard.Card.StartEdit | src/components/TaskCard.tsx:176 | the editor opens on the buffer as it is |
| TaskCard.Card.ChangeEditData | src/components/TaskCard.tsx:118-135 | only the buffer changes |
| TaskCard.Card.Save | src/components/TaskCard.tsx:56-59 | the save update goes out for the task's id and the editor closes |
| TaskCard.Card.Cancel | src/components/TaskCard.tsx:61-68 | the buffer is reset to the task and the editor closes |
| TaskCard.Card.MoveTo | src/components/TaskCard.tsx:231-274 | from the card's non-editing view, only an offered status can be sent, and it differs from the current one |
| TaskCard.OverdueCard | src/components/TaskCard.tsx:100 | overdue exactly with a past due date and a status other than completed |

## Left out

- `src/utils/ai-parser.ts` is not part of this model. It is a network call to a language model and parses the reply as JSON.
- Loading and saving the list in `localStorage`, and reviving dates from JSON, are I/O.
- Rendering is not modelled: the markup, colours, icons and toasts, the empty view's component and the text input's glue around `parseNaturalLanguage`.
- The preview's `setTimeout` delay and its loading flag are not modelled. `MeetingPreview.ParseMeeting` sets the list at once.
- `getRelativeTime` and `toLocaleDateString` are not modelled. They only format dates for display.
- `Date.now()` and `new Date()` are parameters: the `stamps` and `createdAts` of `TaskStore`, and the `now` of the parsers and analytics. The model has no time zones or daylight-saving changes; a day is always 86 400 000 ms.
- Case folding covers ASCII letters only. JavaScript's `toLowerCase` also folds other scripts.
- `\s` is the set of whitespace and line terminators. Strings are sequences of characters, not UTF-16 code units.
- TaskBoard.StrCompare: `localeCompare` is modelled as code-point lexicographic order. The locale's collation is not modelled.
- TaskBoard.Sort: the engine's `sort` is modelled as a stable insertion sort. Tasks that compare equal keep the insertion sort's order; the contract states sortedness and permutation only, not stability.
- TaskAnalytics.Percent: `Math.round` over floating-point division is modelled as exact rounding of the rational 100·completed/total with halves up. A float rounding at an exact .5 boundary is not modelled.
- MeetingPreview.MeetingPreview.ParseMeeting: departs from lines 30-41: it also closes an open editor when the list is replaced. As written, the component keeps the editor; see the Findings.
- MeetingPreview.MeetingPreview.RemoveTask: departs from line 64: it also moves an open editor back when an earlier task goes, and closes it when its own task goes. As written, only the list changes; see the Findings.
- MeetingPreview.MeetingPreview.AddAllTasks: departs from lines 67-79: it also closes an open editor. As written, the component keeps it; see the Findings.
- MeetingPreview.MeetingPreview.ChangeEditData: the three `onChange` handlers of the preview editor are one method that sets all three fields.
- TaskCard.Card.ChangeEditData: the card's three `onChange` handlers are one method that sets all three fields.
- The delete button of the card (`onDelete`) is `TaskStore.TaskList.DeleteTask` and is not repeated in the card.
- The untyped `editData` of the preview (`{}` when closed) is an option value. Writing `{}` into the list is modelled as writing an empty entry.

## Findings

| source | as written | input that shows it | evidently intended | confidence | as-written member | corrected member |
|---|---|---|---|---|---|---|
| src/components/MeetingMinutesInput.tsx:63-65 | removing a task leaves `editingIndex` unchanged, so an open editor then points at the task after the one it was editing, or past the end | tasks [a, b, c]; edit index 1; remove index 0; save (the editor now shows on the card at index 1, which is c): the list becomes [b, b] and c is lost | the editor stays on the task being edited (its index moves back when an earlier task goes), and closes when that task is removed | not executed | MeetingPreview.RemoveWhileEditingLosesTask | MeetingPreview.MeetingPreview.RemoveTask |
| src/components/MeetingMinutesInput.tsx:30-41 | `handleParseMeeting` replaces the list but keeps `editingIndex` and `editData` | tasks [a, b]; edit index 1; parse a transcript that yields [c, d]; save (the editor shows on the new card 1): the list becomes [c, b] and d is lost | the editor closes when the list is replaced | not executed | MeetingPreview.ReparseWhileEditingKeepsStaleBuffer | MeetingPreview.MeetingPreview.ParseMeeting |
| src/components/MeetingMinutesInput.tsx:67-79 | `handleAddAllTasks` empties the list but keeps `editingIndex` and `editData` | tasks [a, b]; edit index 1; add all: the editor state is index 1 and buffer b with an empty list | the editor closes with the list | not executed | MeetingPreview.AddAllLeavesEditorOpen | MeetingPreview.MeetingPreview.AddAllTasks |
