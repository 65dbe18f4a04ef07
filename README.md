# Triage rotation tool: a verified model

`triage.py` keeps a rota of weekly "triage" duties in a shared calendar.
Each duty is an all-day event called `Triage: NAME` that runs from a Monday
to the Friday of the same week. The tool can:

- print a schedule that cycles a list of names over the Mondays between two
  dates;
- add the duty of one person for one week;
- load a file of `DATE: NAME` lines and add each one;
- list the duties whose start lies in a window;
- delete the duties in a window, or on one day.

Every date the user gives passes through `check_date`. It parses the text
the way Python 2.7's `strptime("%Y-%m-%d")` does and prints it back in the
zero-padded `YYYY-MM-DD` form, so `2014-7-4` becomes `2014-07-04`. A text
that does not parse, or a year before 1900 (which Python 2.7's `strftime`
refuses), stops the tool with a "malformed date string" message. The
`--minDate`/`--maxDate` help text says `YYYY-MM` is accepted. The code
accepts only a full date, and the model follows the code
(`DateText.CheckDateRejectsMonthOnly`).

The model has nine modules:

- `Util`: digits, whitespace, decimal text, Python's string order, and the
  `Result`/`Option` wrappers. The errors are defined here: `Fail` is the
  tool's `fail` message, `ValueError` and `OverflowError` are the
  exceptions Python raises, and `NotFound` is the service refusing an id.
- `Dates`: proleptic Gregorian dates as day numbers from 0001-01-01
  (day 1, a Monday), in the range Python represents (up to 9999-12-31).
  This gives the weekday and adding days, with Python's overflow at the
  end of the range.
- `DateText`: `s2d`, `d2s` and `check_date`.
- `CalendarStore`: the calendar service as a class holding a sequence of
  events and an id counter. It can list, insert (with a fresh id) and
  delete by id.
- `Schedule`: `generate_triage_assignments`. The specification function
  `Generated` is proved to print exactly the Mondays of the window with
  the names in turn. The method `Generate` follows the source's two loops
  and is proved to compute `Generated`.
- `Assignments`: `add_triage_assignment_1w` and `add_triage_assignment`.
  The model first decides what to do (`WeekPlan`: a warning, an insert or
  an error) and then does it on the calendar (`Perform`). The `Plan` type
  also has `Nothing`, which the loader uses for blank lines.
- `Loading`: `load_triage_assignments` over a sequence of lines. The line
  pattern is written out by hand. `Replay` specifies the whole loop, and
  the method `Load` is proved against it.
- `Retrieval`: `get_triage_assignments`. It filters events with the
  source's `xfilters` loop, sorts them stably by start key, and maps each
  event to its record.
- `Deletion`: `delete_triage_assignments` and `delete_triage_assignment`.

Three things the program does not control are parameters of the model:

- the calendar's initial events (the ids of new events come from the
  calendar's own counter);
- the input lines of the loader;
- the command-line values.

Printed text and warnings are returned as sequences of lines, one per
`print` or `warn`.

## Model

| member | source | states |
|---|---|---|
| DateText.S2D | triage.py:184-185 | Every date strptime accepts is a date Python can represent: a year from 1 to 9999, a month from 1 to 12 and a day that exists in that month. Which date a text stands for is stated by `S2DReads` and `S2DShape`. |
| DateText.S2DReads | triage.py:184-185 | Four year digits, `-`, the month zero-padded or as one digit, `-`, and the day zero-padded, as one digit or as a space and one digit, read as exactly that year, month and day. The text is refused when that month has no such day or the year is 0. |
| DateText.S2DShape | triage.py:184-185 | Every text strptime accepts has that form: four year digits, `-`, a spelling of the month, `-`, a spelling of the day and nothing more. Any other text is refused. |
| DateText.D2S | triage.py:187-188 | It succeeds exactly for years from 1900 on. The result is then the zero-padded `YYYY-MM-DD` text of the date; otherwise it is a ValueError. |
| DateText.FormatParses | triage.py:184-188 | The text `d2s` prints for any representable date is canonical, and `s2d` reads it back as the same date. |
| DateText.CheckDate | triage.py:190-195 | No text gives no date. A failure happens only for a given text, and it is the "malformed date string" failure for that text. |
| DateText.CheckDateMeaning | triage.py:190-195 | A text passes exactly when it parses to a date from 1900 on. The result is then the canonical text of that same date. |
| DateText.CheckDateIdempotent | triage.py:190-195 | Checking an already checked date gives the same text again. |
| DateText.CheckDatePads | triage.py:190-195 | `2014-7-4` is rewritten as `2014-07-04`. |
| DateText.CheckDateRejectsMonthOnly | triage.py:185 | `2014-07` is refused, although the help text at triage.py:48-52 offers that form. |
| DateText.CheckDateRejectsImpossibleDay | triage.py:185 | `2014-02-29` is refused (2014 is not a leap year). |
| DateText.CheckDateRejectsMonth13 | triage.py:185 | `2014-13-01` is refused. |
| DateText.CheckDateRejectsEarlyYear | triage.py:188 | `1899-12-31` is refused, because strftime will not print it. |
| Dates.BeforeIsOrdinalOrder | triage.py:135 | Comparing dates field by field is the same as comparing their day numbers, and two dates are equal exactly when their day numbers are. |
| Dates.FromOrdinal | triage.py:132 | The date of a day number has that day number. It is representable exactly when the number does not pass 9999-12-31. |
| Dates.FromOrdinalToOrdinal | triage.py:132 | Converting a date to its day number and back gives the same date. |
| Dates.ValidIffInRange | triage.py:132 | A date is representable exactly when its day number does not pass that of 9999-12-31. |
| Dates.AddDays | triage.py:172-173 | Adding k days succeeds exactly when the result stays within 0001-01-01..9999-12-31 (otherwise it is Python's OverflowError). The result is k days later. |
| Dates.AddDaysInRange | triage.py:172-173 | Within range, adding days gives the date of the day number k further on. |
| Dates.WeekLaterSameWeekday | triage.py:138 | A day seven days later has the same weekday. |
| Dates.DaysBeforeYearClosed | triage.py:184-188 | The number of days before a year follows the Gregorian leap rule: every fourth year, except centuries not divisible by 400. |
| Schedule.Rotation | triage.py:122-123 | The names cycled over are never empty, and they are the given names whenever any are given. |
| Schedule.GeneratedNoNames | triage.py:122-123 | Generating with no names prints exactly what generating with the single name `""` prints. |
| Schedule.FirstMondayIsEarliest | triage.py:131-132 | The first Monday is a Monday on or after the start, less than a week later, and no earlier day from the start on is a Monday. |
| Schedule.ToMonday | triage.py:131-132 | The day-by-day loop stops at the first Monday on or after the start. It overflows exactly when that Monday is past 9999-12-31. |
| Schedule.Generated | triage.py:125-126 | A minDate or maxDate that strptime refuses is a ValueError before any line is printed. |
| Schedule.GeneratedLine | triage.py:131-138 | Line k is `d2s` of Monday k (k weeks after the first Monday), then `": "`, then name k modulo the number of names. That Monday is a Monday between minDate and maxDate. |
| Schedule.GeneratedComplete | triage.py:131-138 | Every Monday between minDate and maxDate gets a line, unless strftime stopped the run. |
| Schedule.GeneratedStops | triage.py:134-138 | A run stops with a ValueError, printing nothing, exactly when the first Monday is due and before 1900. It stops with an OverflowError exactly when the Monday after the last printed one is past 9999-12-31. Otherwise it finishes. |
| Schedule.NthMondayIsMonday | triage.py:128-138 | Every Monday k of a run is a Monday and is not before minDate. |
| Schedule.NthMondayFirst | triage.py:131-132 | No Monday lies between minDate and the first Monday of the run. |
| Schedule.NthMondayNext | triage.py:138 | Monday k+1 is Monday k plus seven days. |
| Schedule.MondaysRecur | triage.py:138 | Any whole number of weeks after a Monday is a Monday. |
| Schedule.EmitLines | triage.py:134-138 | On day numbers, line k is that of the Monday k weeks after the first one, between the bounds. |
| Schedule.EmitComplete | triage.py:134-138 | On day numbers, every Monday within the bounds has a line. |
| Schedule.EmitErrors | triage.py:134-138 | On day numbers, the three ways a run ends and when each happens. |
| Schedule.LinesGrow | triage.py:137 | Printing the line of the next Monday extends the lines of the earlier Mondays by one. |
| Schedule.WeeklyFinishes | triage.py:134-136 | When every Monday up to maxDate is printed and the next one is representable, the run ends normally with those lines. |
| Schedule.WeeklyEarlyYear | triage.py:137 | A first Monday before 1900 that is due to be printed stops the run at once with a ValueError. |
| Schedule.WeeklyOverflows | triage.py:138 | When the step after Monday n passes 9999-12-31, the n lines are out and the run ends with an OverflowError. |
| Schedule.PrintedStep | triage.py:134-138 | One turn of the weekly loop keeps the loop invariant: the lines printed so far are exactly those of the Mondays passed so far. |
| Schedule.PrintedPast | triage.py:135-136 | A loop that has passed maxDate has printed exactly the run's output. |
| Schedule.PrintedEarly | triage.py:137 | A loop whose date is due and before 1900 ends with the run's ValueError. |
| Schedule.PrintedLast | triage.py:137-138 | A loop that prints the last representable Monday ends with the run's OverflowError. |
| Schedule.PrintWeek | triage.py:134-138 | One turn of the loop body over the cycled names. It either ends with the run's output, or prints one line and moves the date on by seven days, keeping the invariant. |
| Schedule.EmitWeeks | triage.py:134-138 | The loop over the cycled names, from a Monday, computes the specified weekly output. |
| Schedule.Generate | triage.py:121-138 | The imperative generation, with its two loops, computes what `Generated` specifies. |
| Assignments.WeekPlanMonday | triage.py:169-170 | A start gives a warning exactly when it is not a Monday, and the warning names the start. An insert happens only for a Monday. |
| Assignments.WeekPlanAdds | triage.py:153-175 | An event is inserted exactly for a Monday whose Friday is representable and from 1900 on. The event is called `"Triage: " + name` and runs all day from the start text to the canonical text of the date five days later. |
| Assignments.WeekPlanLastMonday | triage.py:172-173 | Assigning 9999-12-27, the last representable Monday, overflows when its Friday is computed. |
| Assignments.Perform | triage.py:167-175 | A warning or an error leaves the calendar unchanged. An insert adds exactly one event, with the planned fields and an id no other event had, after the existing ones. |
| Assignments.AddWeek | triage.py:153-175 | Adding one week does to the calendar and the warnings exactly what `WeekPlan` decides. |
| Loading.LStripRemovesSpaces | triage.py:145 | Only whitespace is removed from the front of a line, up to its first non-space character. |
| Loading.RStripRemovesSpaces | triage.py:145 | Only whitespace is removed from the end, down to the last non-space character. |
| Loading.RStripNewlines | triage.py:147 | The warned line loses exactly its trailing newlines. |
| Loading.MatchLine | triage.py:145 | A match yields a date shaped `20YY-M-D` (one or two digits for the month and the day). The name is not empty, begins and ends with a non-space, and holds no newline. |
| Loading.MatchLineAccepts | triage.py:145 | Every line made of whitespace, such a date, a colon, whitespace, such a name and trailing whitespace matches, with exactly that date and name. |
| Loading.MatchLineForm | triage.py:145 | Conversely, a line that matches is whitespace, the captured date, a colon, whitespace, the captured name and whitespace, with nothing else in it. |
| Loading.MatchedNotBlank | triage.py:143-145 | A line that matches is not blank. |
| Loading.ReplayBlank | triage.py:143-144 | A blank line changes nothing: no warning, no insert. |
| Loading.ReplaySkips | triage.py:146-147 | A non-blank line that does not match adds one `skipping line: '...'` warning and no event. |
| Loading.LineStepMatched | triage.py:148-151 | A matching line whose date check_date refuses stops the load. Otherwise the line assigns the week of the canonical form of its date to its stripped name. |
| Loading.ReplayStops | triage.py:148-151 | Once a line has stopped the load, the lines after it are never read. |
| Loading.ReplayNext | triage.py:142 | The lines are handled one after the other, in order. |
| Loading.LoadStep | triage.py:142-151 | One turn of the loop over the lines extends the warnings and the added events exactly as the next line's step in `Replay` does, and stops exactly when that step stops. |
| Loading.Load | triage.py:141-151 | The loop over the lines produces the specified warnings and error. It adds exactly the specified events, in order, after the existing ones. |
| Retrieval.StartKey | triage.py:231-232 | An event's sort and filter key is its start date or, for a timed event, its start date-time. An empty date is None, as Python's `or` makes it, and so is a start with neither field. |
| Retrieval.KeyLeTotal | triage.py:237-241 | Any two keys compare, with None below every text. |
| Retrieval.KeyLeTransitive | triage.py:237-241 | The key order is transitive. |
| Retrieval.XFilters | triage.py:217-226 | The nested filtering loop keeps exactly the items that every filter accepts, in order. |
| Retrieval.KeepMultiset | triage.py:217-226 | Filtering keeps each item that passes every filter as often as it occurs, and drops the others. |
| Retrieval.KeepMembers | triage.py:217-226 | An item is kept exactly when it is listed and passes every filter. |
| Retrieval.InsertByStart | triage.py:250 | Inserting an item into a run of items adds exactly that item. |
| Retrieval.InsertByStartSorted | triage.py:250 | Inserting into a sorted run keeps it sorted by key. |
| Retrieval.InsertByStartStable | triage.py:250 | An item is inserted before every item of the run with the same key, and the items with other keys keep their order. |
| Retrieval.SortByStart | triage.py:250 | Sorting is a permutation. |
| Retrieval.SortByStartSorted | triage.py:250 | The sort's result is ordered by start key. |
| Retrieval.SortByStartStable | triage.py:250 | The sort is stable: items with the same key keep their listing order. |
| Retrieval.UnsetStartSelected | triage.py:231-241 | An event whose start has neither `date` nor `dateTime` passes exactly when its summary starts with `Triage:` and no lower bound is given, since None is below every bound. Its record carries no date. |
| Retrieval.FiltersSelect | triage.py:228-248 | An event passes the filters exactly when its summary starts with `Triage:` and its start key is at least minStart and at most maxStart for the bounds that are given. |
| Retrieval.MatchesMeaning | triage.py:243-250 | The matches are sorted by start and stable. Each selected event appears as often as it is listed, and no other event appears. |
| Retrieval.DropSpaces | triage.py:253 | Only leading spaces are removed, and all of them. |
| Retrieval.Records | triage.py:252-254 | One record per match, in order. |
| Retrieval.QueryErrors | triage.py:243-248 | The query fails exactly when a given bound is a malformed date, and the failure concerns the first such bound. Otherwise it returns one record per match. |
| Retrieval.ReadBack | triage.py:252-254 | An event made by `add_triage_assignment` is recognised as a duty. It reads back with its start date and its name, if the name does not begin with a space. |
| Retrieval.GetAssignments | triage.py:212-256 | Reading from the calendar gives exactly the specified query result. |
| Deletion.Plural | triage.py:206 | The count line gets an `s` exactly when the count is not one. |
| Deletion.Report | triage.py:205-209 | The output is the count line for the number of matches, then one `Deleting assignment` line per match, in order. |
| Deletion.RemoveAll | triage.py:208-210 | After deleting a list of ids, exactly the events whose id is not on the list remain. |
| Deletion.MatchIdsDistinct | triage.py:208-210 | No two matches share an id, so the deletes never clash. |
| Deletion.MatchedId | triage.py:208-210 | An event's id is among the deleted ids exactly when the event was selected. |
| Deletion.DeletesSelected | triage.py:203-210 | Deleting the matches removes exactly the selected events, and every other event remains. |
| Deletion.DeletingUnsetStart | triage.py:209 | An event whose start has neither field is reported with `None` for its date. |
| Deletion.DeletingNext | triage.py:208-210 | The id of the next match is still on the calendar when its turn comes. |
| Deletion.DeleteEach | triage.py:208-210 | The loop prints one line per match and deletes each by id. The calendar then lacks exactly those ids, and it is shorter by the number of matches. |
| Deletion.DeleteAssignments | triage.py:203-210 | A malformed bound fails before anything is printed or deleted. Otherwise the report is printed and exactly the matched events are removed. |
| Deletion.DeleteAssignment | triage.py:200-201 | Deleting one day's duties is the window operation with that day as both bounds. |
| CalendarStore.Calendar.constructor | triage.py:213-215 | A calendar holding the given events, with distinct ids. |
| CalendarStore.Calendar.List | triage.py:213-215 | Listing returns the calendar's events as held. |
| CalendarStore.Calendar.Insert | triage.py:161-162 | The new event carries the body sent and an id not held before, and it is added after the others. |
| CalendarStore.Calendar.Delete | triage.py:197-198 | Delete succeeds exactly when the id is held, and then removes that one event. Otherwise the calendar is unchanged and the error names the id. |
| CalendarStore.RemoveId | triage.py:197-198 | Removing an id keeps exactly the events with another id. |
| CalendarStore.RemoveIdOnce | triage.py:197-198 | Removing a held id removes exactly one event and keeps the ids distinct. |
| CalendarStore.DistinctAppend | triage.py:161-162 | Adding an event with a new id keeps the ids distinct. |
| CalendarStore.DistinctIdsUnique | triage.py:198 | An id names at most one event of the calendar. |
| Util.DecimalValue | triage.py:206 | The decimal text `%d` prints for a count reads back as that count. |
| Util.DecimalInjective | triage.py:206 | Different counts print differently. |
| Util.StrLeTotal | triage.py:237-241 | Python's string order is total. |
| Util.StrLeTransitive | triage.py:237-241 | Python's string order is transitive. |

## Left out

- The Google Calendar client, `sample_tools.init`, OAuth and the
  `AccessTokenRefreshError` message (triage.py:32-33, 80-81, 117-119).
  These are calls into code outside the program. The in-memory
  `Calendar` replaces them.
- Argument parsing and the dispatch in `main` (triage.py:37-115). This
  includes the two guards that demand both `--minDate` and `--maxDate`
  for `--delete ALL` and `--generate` (triage.py:89-93, 110-115). The
  operations take the checked bounds as parameters instead.
- Writing to stdout and stderr, the UTF-8 encoding of listed lines, and
  `sys.exit`. Printed lines and warnings are returned as sequences. `fail`
  is the `Fail` error, which stops the operation.
- The `htmlLink` line printed after an insert and the `adding assignment`
  line (triage.py:163-165, 174). They hold only text the service returns,
  or a copy of the input.
- File handles. The loader takes its input as a sequence of lines.
- `list_triage_assignments` (triage.py:258-263). It only prints the
  records `get_triage_assignments` returns.
- The calendar id. There is one calendar.
- Paging of the list call: the model lists all events at once, as the
  source assumes.
- Events without a `summary` field. Python raises a KeyError on them
  (triage.py:229); the model's events always have a summary.
- A start that holds both `date` and `dateTime`. The model's start holds
  one field or neither (`Unset`), which is what the service returns.
- Regular expressions in general. The loader's one pattern, the blank-line
  test and the `Triage:` prefix are written as string functions.
- How the service picks ids. The model picks fresh ones from a counter.
- Retrieval.ReadBack: holds only for names that do not begin with a space.
  The prefix removal of triage.py:253 would take such a space away too.
- `Dates` proves ordering, round trips and the leap rule, but not real
  calendar history. The model uses the proleptic Gregorian calendar, as
  Python does.
