# Punch — a Dafny model of the todo.sh time tracker

Punch (trunk/Punch.py) records work against the tasks of a todo.sh task
list. It keeps one file, `punch.dat`, in the todo directory:

- every record is `task<TAB>start`;
- `out` appends `<TAB>end<NEWLINE>`, which makes a finished record
  `task<TAB>start<TAB>end`.

Start and end are `%Y%m%dT%H%M%S` stamps. The four commands are:

- `in N [file]` looks up line `N` of todo.txt, or of `file` in the todo
  directory, and starts that task. It first closes a task that is still
  running.
- `out` stops the running task.
- `what` names the running task and how long it has run.
- `report` totals the finished records per day and task, and prints the
  days and tasks in sorted order.

Before any of these runs, the configuration is read from `todo.cfg`
(`NAME=value` lines, with `$NAME/` references expanded when a path is
resolved).

The model is organised as follows.

- `PunchApp.Punch` is the `Punch` object of the source. It holds:
  - the command line;
  - the configuration dictionary that `parse_config` rebuilds;
  - the files, as a map from path to text;
  - the lines printed so far.

  Each `execute_*` method is a method of that class. Each is proved
  against a function that gives the command's whole effect: the files
  afterwards, the printed lines, and the exception raised, if any
  (`InCommand`, `OutCommand`, `WhatCommand`; `Reported` for `report`).
- `PunchLog` models the state machine over the text of punch.dat:
  - `LastRecord`: the last line, stripped and split on tabs;
  - `RecordComplete`: the record has 0 or 3 fields;
  - `OutStep`, `InStep` and `AutoClose`: the appends that `out` and `in`
    make;
  - `WhatMessage`: the check that `what` makes.
- `Journal` gives a second, abstract view of punch.dat: finished records
  plus at most one running record. It proves that the text machine
  simulates that view for any sequence of `in`/`out` commands started from
  no file, provided every task started is non-empty, holds no tab or line
  break, and has no surrounding whitespace. Under the same condition it
  proves that only the last line of punch.dat can be open. The `Quirks`
  lemmas show what happens to tasks outside that condition.
- `TimeCodec` models the timestamp codec:
  - `FormatStamp` (strftime) and `ParseStamp` (strptime on the first 15
    characters, with the `T` matched in either case and the day either two
    digits or a space and one digit);
  - `TmArg`, the year check that `mktime` and `strftime` apply to a parsed
    time: years 100 to 1899 raise ValueError, and two-digit years are moved
    (0–68 into 2000–2068, 69–99 into 1969–1999);
  - whole minutes between two stamps (`//` on epoch seconds);
  - `format_minutes`.

  `Numerals` models `int()` and `str()` on integers; `PyText` models the
  Python string and readlines operations that the source uses.
- `Tasks` models the task lookup of `add_in_line` and the line number that
  `execute_in` takes from the command line.
- `Config` models `parse_config` one line at a time, and `resolve`.
- `Report` models `execute_rep`:
  - the entries that the lines of punch.dat yield;
  - `Collect`, the nested dictionary loop;
  - `Summarize`, which sorts and sums;
  - the printed lines.

  `Sorting` holds the key sort; `JournalReport` ties the report to the
  abstract journal.
- `Quirks` states, as lemmas, behaviour of the source that a user may not
  expect:
  - a blank task line, or a task containing a tab, yields a record that
    never reads as finished;
  - `out` and `what` disagree on a one-field last line;
  - line number 0 selects the last task;
  - an empty punch.dat raises IndexError.

The model follows the code wherever the code differs from the documented
design:

- An existing but empty punch.dat makes `in`, `out` and `what` raise
  IndexError, because `lines[len(lines)-1]` is evaluated on an empty list.
  It is not treated as an idle log.
- Line number 0 is accepted and selects the task file's last line. Only
  numbers above the line count raise TaskNotFoundError.
- A task name is whatever the task file's line holds, blank or with a tab.

The clock is a parameter: `now` is the local time at which the command
runs, a valid time in a year from 1900 on. Files are text in a map, and printing appends to a sequence of lines.

## Model

| member | source | states |
|---|---|---|
| PunchApp.Punch.constructor | trunk/Punch.py:46-48 | The object keeps the command line it was made for; nothing is configured or printed yet |
| PunchApp.Punch.Execute | trunk/Punch.py:50-61 | No argument raises IndexError and an unknown verb raises PunchCommandError, with nothing changed; `in`, `out`, `wh`/`what` and `report`/`rep` have exactly the effect of their command |
| PunchApp.Punch.ParseConfig | trunk/Punch.py:63-82 | Without todo.cfg: ToDoConfigNotFoundError, and the dictionary is kept; otherwise the dictionary is rebuilt from nothing, one definition per line, the later definition of a name replacing the earlier one; files and output untouched |
| PunchApp.Configuration | trunk/Punch.py:63-82 | Configuration fails exactly when there is no todo.cfg, and then with ToDoConfigNotFoundError |
| PunchApp.PunchPath | trunk/Punch.py:114-117 | punch.dat's path fails, always with KeyError, exactly when TODO_DIR is undefined or its `$` reference is undefined |
| PunchApp.Punch.ExecuteIn | trunk/Punch.py:226-266 | Configuration first; one argument raises PunchCommandError; a negative or non-numeric line number raises PunchCommandError; a missing todo.txt or named file raises ToDoFileNotFoundError or TaskFileNotFoundError; three or more arguments after `in` do nothing; otherwise the `add_in_line` step, with files and output exactly those of `InCommand` |
| PunchApp.InOnlyAppends | trunk/Punch.py:185-204 | Under any arguments, `in` changes no file except the one punch.dat resolves to, and only appends to it |
| PunchApp.InAtSplit | trunk/Punch.py:191-203 | `in` first closes a dangling record, then reads the task file, so a failed lookup leaves the close written; a found task is appended after the close, and its start message is printed after the stop message |
| PunchApp.InAtFails | trunk/Punch.py:127-129 | When punch.dat's last line cannot be read, `in` raises that error and writes nothing |
| PunchApp.Punch.AddInLine | trunk/Punch.py:185-204 | The files and output afterwards are those of the `in` step on punch.dat, with the task file read after the close; KeyError with no change when punch.dat has no path |
| PunchApp.Punch.CloseDangling | trunk/Punch.py:191-194 | An open last record is closed as by `out`, and its stop message printed; a complete one leaves everything as it was |
| PunchApp.Punch.StartTask | trunk/Punch.py:196-204 | A line number past the task file raises TaskNotFoundError with nothing written; otherwise `task<TAB>start` is appended to punch.dat and the start message printed |
| PunchApp.Punch.ExecuteOut | trunk/Punch.py:268-274 | Configuration first; any argument after `out` raises PunchCommandError; otherwise exactly the effect of `OutCommand` |
| PunchApp.OutOnlyAppends | trunk/Punch.py:206-224 | Under any arguments, `out` changes no file except punch.dat, and only appends to it |
| PunchApp.Punch.AddOutLine | trunk/Punch.py:206-224 | On success punch.dat gains the end stamp and the stopped task is printed; on failure (no open task, unreadable log, no path) nothing changes and that error is raised |
| PunchApp.Punch.ExecuteWhat | trunk/Punch.py:276-287 | Configuration first; an argument after `what` raises PunchCommandError; otherwise exactly the effect of `WhatCommand` |
| PunchApp.WhatCommand | trunk/Punch.py:276-287 | `what` never changes a file; it prints exactly one line when it succeeds and nothing when it raises |
| PunchApp.Punch.ExecuteReport | trunk/Punch.py:289-340 | Configuration first; an argument after `report` raises PunchCommandError; a missing punch.dat raises IOError; a record whose stamps do not parse raises ValueError before anything is printed; otherwise the printed lines are the one report of punch.dat's entries; no file changes |
| PunchApp.ReportInput | trunk/Punch.py:289-295 | `report` reads nothing exactly when the configuration or the argument count fails, when punch.dat has no path, or when punch.dat does not exist |
| PunchLog.LastRecord | trunk/Punch.py:123-135 | No punch.dat reads as the empty record; IndexError exactly when punch.dat exists and is empty; otherwise the fields, joined by tabs, give back the stripped last line |
| PunchLog.OutStep | trunk/Punch.py:206-224 | `out` succeeds exactly when the last record reads and is neither empty nor three fields; it then appends TAB, the stamp of `now` and a newline, and names the record's first field; a complete record raises NoOpenTaskError |
| PunchLog.InStep | trunk/Punch.py:185-204 | `in` succeeds exactly when the last record reads and the lookup succeeds; punch.dat only grows; an open record is closed first; on success the log ends with `task<TAB>start`; a failed lookup raises the lookup's error |
| PunchLog.InStepAfterClose | trunk/Punch.py:193-203 | Once the last record reads, `in` is the auto-close followed by the lookup and, if the task is found, the append of the start record |
| Journal.LastRecordOfLog | trunk/Punch.py:123-135 | The last record read from a rendered journal is the running task and its start, or the last finished record's three fields, or empty for no file |
| Journal.CompleteIffIdle | trunk/Punch.py:137-152 | For a punch.dat the commands wrote, the last record reads, and it is complete exactly when no task is running |
| Journal.OutSimulates | trunk/Punch.py:206-224 | On the text of a journal, `out` raises NoOpenTaskError when idle; when running it writes the text of the journal with that task finished at `now` and prints its stop message |
| Journal.InSimulates | trunk/Punch.py:185-204 | On the text of a journal, `in` writes the text of the journal with the running task finished and, when found, the new task started; it prints the stop message, then the start message |
| Journal.AutoCloseSimulates | trunk/Punch.py:191-194 | The auto-close writes the text of the journal with its running task finished |
| Journal.WhatOfLog | trunk/Punch.py:276-287 | While a task runs, `what` reports it with the whole minutes since its start; while idle it reports no active task |
| Journal.StepSimulates | trunk/Punch.py:185-224 | One `in` or `out` on the text of a journal gives the text of the journal after the same step |
| Journal.RunSimulates | trunk/Punch.py:185-224 | Any sequence of `in`/`out` commands on the text of a journal gives the text of the journal the same sequence leaves, when every task started is non-empty, holds no tab or line break and has no surrounding whitespace, and every `now` is a clock reading |
| Journal.OnlyLastLineOpen | trunk/Punch.py:185-224 | After any `in`/`out` commands from no punch.dat, with every task started non-empty, without a tab or line break and without surrounding whitespace, and every `now` a clock reading, the last record always reads, and every line but the last has exactly three fields |
| JournalReport.ReportOfJournal | trunk/Punch.py:296-314 | The report of a journal's punch.dat counts exactly its finished records, in order, each for the minutes it ran under the day it started; a running record is not counted |
| Quirks.OneFieldLine | trunk/Punch.py:137-148 | A one-field last line counts as open for `out`, which closes it, yet `what` reports no active task |
| Quirks.BlankTaskNeverFinishes | trunk/Punch.py:196-224 | A blank task line starts a record whose stripped line has lost the task, and after `out` it has two fields, so it still reads as open |
| Quirks.TabbedTaskNeverFinishes | trunk/Punch.py:137-148 | A task containing a tab gives a finished line of four fields, which reads as open, and `what` reports no active task |
| Quirks.LineZeroPicksLast | trunk/Punch.py:196-199 | Line number 0 selects the task file's last line |
| Quirks.EmptyLogRaises | trunk/Punch.py:127-129 | On an empty punch.dat, `out`, `in` and `what` raise IndexError, and `in` writes nothing |
| Tasks.Lookup | trunk/Punch.py:196-199 | TaskNotFoundError exactly when the number exceeds the line count; IndexError for 0 on an empty file; otherwise one of the lines, stripped |
| Tasks.LookupNumbering | trunk/Punch.py:196-199 | For a task file written one task per line, line k (1-based) is the k-th task, 0 is the last one, and a number past the end raises TaskNotFoundError |
| Tasks.ArgLineNumber | trunk/Punch.py:239-242 | The line number is non-negative exactly when `int()` accepts the argument with a non-negative value, and -1 when `int()` raises |
| Tasks.ArgLineNumberOfNumeral | trunk/Punch.py:239-244 | The decimal text of a natural number is taken as that line number |
| Tasks.ArgLineNumberRefusesNegative | trunk/Punch.py:239-249 | The decimal text of a negative number is refused |
| Numerals.ParseIntStr | trunk/Punch.py:240 | `int()` reads back the decimal text `str()` gives of any integer |
| Numerals.AfterSignSpaced | trunk/Punch.py:240 | After a sign, any whitespace followed by digits reads as the digits' value |
| Numerals.ParseIntSigned | trunk/Punch.py:240 | A sign followed by a text that ends in a digit and reads as v after its leading whitespace is read as v, or -v after `-` |
| Numerals.ParseIntSpacedPlus | trunk/Punch.py:240 | `int("+ 5")` is 5 |
| Numerals.ParseIntSpacedMinus | trunk/Punch.py:240 | `int("- 7")` is -7 |
| Config.ParseConfigLine | trunk/Punch.py:68-78 | A line defines nothing exactly when it is blank or starts with `#` once stripped |
| Config.QuotedLineParses | trunk/Punch.py:69-78 | `NAME="value"` defines NAME as value, quotes removed |
| Config.ExportLineDefinesExport | trunk/Punch.py:74-76 | An `export NAME="value"` line defines the name `export`, because the space ends the name |
| Config.ConfigLastWins | trunk/Punch.py:67-78 | A name is configured exactly when some line defines it, and its value is the one given by the last line that does |
| Config.Resolve | trunk/Punch.py:84-93 | A value without `$` is unchanged; resolution fails only with KeyError |
| Config.ResolveReference | trunk/Punch.py:84-93 | `prefix$NAME/rest` resolves exactly when NAME is configured, to NAME's value followed by `/rest`; the prefix is dropped |
| Config.ResolveLeadingWithoutSlash | trunk/Punch.py:84-93 | A value that starts with `$` and holds no `/` looks up the text between the `$` and its last character and keeps that last character after the value (`$HOME` looks up `HOM` and appends `E`); KeyError when that name is not configured |
| Config.ResolveWithoutSlash | trunk/Punch.py:86-91 | With no `/` after a `$` that follows a non-empty prefix, the reference read is the empty name, and the result keeps the text from one character before the `$`; KeyError when the empty name is not configured |
| TimeCodec.ParseStamp | trunk/Punch.py:157-158 | A stamp that parses denotes a valid calendar time (seconds up to 61) |
| TimeCodec.SpacePaddedDay | trunk/Punch.py:157-158 | A one-digit day written after a space instead of a `0` is accepted, as `%d` matches it, and gives the same time |
| TimeCodec.LowerCaseSeparator | trunk/Punch.py:157-158 | A lower-case `t` between date and time is accepted, since `strptime` matches ignoring case, and gives the same time |
| TimeCodec.ParseFormatStamp | trunk/Punch.py:154-158 | Parsing the stamp of a time gives that time back, whatever follows the first 15 characters |
| TimeCodec.FormatParseStamp | trunk/Punch.py:154-158 | A text that parses has at least 15 characters with `T` or `t` at position 8, and the stamp of the time read is its first 15 characters with that separator written `T` and a space before the day written `0` |
| TimeCodec.DateKeyIsPrefix | trunk/Punch.py:303 | The day key `strftime` writes for a start stamp it accepts keeps the stamp's month and day (a space before the day written `0`), and is the stamp's zero-padded date exactly when the year is from 1900 on |
| TimeCodec.TmArg | trunk/Punch.py:168 | A parsed time is refused exactly when its year is 100 to 1899; a year from 1900 on passes unchanged; years 0–68 become 2000–2068 and 69–99 become 1969–1999, the other fields kept |
| TimeCodec.StructOf | trunk/Punch.py:164-168 | A stamp gives a time `mktime` takes exactly when it parses and its year is not 100 to 1899; that time is in a year from 1900 on |
| TimeCodec.MinutesBetween | trunk/Punch.py:168 | The result is the floor of the seconds between the two times divided by 60 |
| TimeCodec.DurationInMinutes | trunk/Punch.py:164-170 | ValueError exactly when either stamp does not parse or has a year `mktime` refuses; otherwise the whole minutes between the two times as `mktime` reads them |
| TimeCodec.OldYearRaises | trunk/Punch.py:164-168 | A start stamp in a year from 100 to 1899 parses, yet the duration from it raises ValueError whatever the end |
| TimeCodec.TwoDigitYearsMoved | trunk/Punch.py:164-168 | Stamps in years 68 and 69 are measured as 2068 and 1969 |
| TimeCodec.DurationOfStamps | trunk/Punch.py:164-170 | For two clock readings (years from 1900 on), the minutes between their stamps are the minutes between those times |
| TimeCodec.SameDayMinutes | trunk/Punch.py:164-170 | Within one day, the minutes between two times come from their hours, minutes and seconds alone |
| TimeCodec.ReadFormatMinutes | trunk/Punch.py:172-182 | Reading the formatted minutes back gives the count, with hours counted as 60 minutes |
| TimeCodec.FormatMinutesHoursForm | trunk/Punch.py:175-180 | Above 60 minutes the text gives whole hours (at least one) and 0 to 59 remaining minutes, which together make up the count |
| TimeCodec.FormatMinutesHourBoundary | trunk/Punch.py:175 | Exactly 60 minutes stays in minutes; 61 becomes 1 hour and 1 minute |
| Report.LineEntry | trunk/Punch.py:297-303 | A line raises ValueError exactly when it has three tab fields and one of the stamps does not parse or has a year `mktime` refuses; it counts exactly when it has three fields |
| Report.LineEntryCounts | trunk/Punch.py:297-303 | A counted line's entry has the task field and the minutes between start and end; its day keeps the start stamp's month and day (a space before the day written `0`), and is the stamp's zero-padded date exactly when the year is from 1900 on |
| Report.EntriesFailure | trunk/Punch.py:296-314 | Reading entries raises exactly when some line raises |
| Report.RecordTabulates | trunk/Punch.py:304-314 | Adding an entry to the day/task dictionary keeps it the tabulation of all entries so far |
| Report.Collect | trunk/Punch.py:293-314 | The loop raises ValueError exactly when some line raises; otherwise the dictionary has exactly the days of the entries, the tasks of each day, and each pair's minutes in order |
| Report.SumOf | trunk/Punch.py:333-335 | The loop's total is the sum of the minute list |
| Report.SummarizeDay | trunk/Punch.py:325-336 | One day's tasks come out strictly sorted, exactly the day's tasks, each with the sum of its minutes |
| Report.Summarize | trunk/Punch.py:317-336 | Days come out strictly sorted, exactly the entries' days, each with its sorted task totals |
| Report.BuildReport | trunk/Punch.py:293-336 | The report raises ValueError exactly when the entries do; otherwise it is a report of the entries |
| Report.ReportUnique | trunk/Punch.py:317-336 | There is only one report of a sequence of entries, so the printed output is determined |
| Report.DateHeaderOfDate | trunk/Punch.py:324 | The day header of a time's day key is its ISO date followed by a colon |
| Report.ReportLinesCount | trunk/Punch.py:323-336 | The report prints one header per day and one line per task of each day |
| Report.MinutesForCount | trunk/Punch.py:308-313 | A task appears under a day exactly when it has minutes recorded that day |
| Sorting.SortedKeys | trunk/Punch.py:317-321 | The keys come out strictly ascending, exactly the keys of the dictionary |
| Sorting.SortedUnique | trunk/Punch.py:317-321 | Two strictly ascending sequences of the same keys are equal, so the sorted order is determined |

## Left out

- The command-line parser, the usage and version texts, and the messages that `__main__` prints for each exception (trunk/Punch.py:345-389) are not modelled. A raised exception is the `Fail` outcome.
- File I/O is a map from path to text. Not modelled: file handles, `close_task_file`, `close_punch_file`, the universal-newline `'U'` mode (a `\r` is an ordinary character), I/O errors other than a missing file, and concurrent runs that interleave appends.
- The clock is one parameter `now` per command, a reading in a year from 1900 on. The source reads the clock separately for the close and for the start inside one `in`.
- Local time is a naive proleptic Gregorian calendar. `mktime` is not modelled across time zones or daylight-saving changes.
- `strptime` reads the first 15 characters at full width: four digits of year and two characters for every other field (the day may be a space and a digit). A stamp text shorter than 15 characters can still match the source's `strptime` with one-digit fields; those shorter texts are not modelled and read as ValueError.
- The report's float sum (`0.0` plus whole minutes) is an integer sum. `str(int(...))` prints the same digits for the sizes that occur.
- `cPickle`, `optlist` and the unused imports are not modelled.
- Resolve: only the reference shapes that `ResolveReference`, `ResolveWithoutSlash` and `ResolveLeadingWithoutSlash` cover are characterised fully; for other values only no-`$` identity and the KeyError failure are stated.
- Tasks.Lookup: its own contract says a found task is some line of the file, stripped; which line it is is stated by `Tasks.LookupNumbering` for task files written one line per task.
