# Weekly timetable of the workify time logger

workify is a single-user time logger. Work entries are stored as date, time
and project. Workday "Start" and "Ende" markers are stored as date, time and
status. For one calendar week the program builds a table: 26 half-hour rows
from 07:30 to 20:00, and one column per weekday from Monday to Friday. This
project models that construction (`create_timetable_df` in main.py) and the
half-hour rounding the input page applies to a work entry's time before
storing it.

Modules:

- `Wrappers`: `Option`, `Result` and `Outcome`. A `Failure` result stands for
  the Python exception that aborts the construction.
- `ClockText`: "HH:MM" strings. `ParseClock` is `strptime(.., "%H:%M")` and
  `Format` is `strftime("%H:%M")`. `RoundBoundary` is the digit-inspecting
  rounding of boundary events (main.py:111-117). `RoundInput` is the rounding
  on the input page (main.py:201-207). Both are proved to floor the time to
  the half hour, `(h, (m / 30) * 30)`.
- `Calendar`: the slot list, built by the same `while` loop as the source. Slot
  k is 450 + 30·k minutes after midnight. `SlotOf` is `times.index`.
  `WeekDates` gives the five column dates.
- `Grid`: the table as a value of type `seq<seq<string>>` with 26 rows and 5
  columns. It defines the effect of projecting an entry, of a Start event and
  of an Ende event, and of the two loops over the records. The lemmas state
  cell by cell what each step changes and what it leaves alone.
- `WeeklyTimetable`: class `Timetable`. It holds the column dates, the row
  labels and an `array2<string>` of cells. Its methods perform the `.loc`
  assignments one at a time, in loops, and each method is proved to produce
  the `Grid` function of the old contents.

Records come in as the rows the two SQL queries return. A weekday is an
integer: 0 is Monday and 6 is Sunday. A day number stands for a date.
Monday's day number is a parameter. Any exception the source raises is a
`Failure` result carrying a `BuildError`:

- `WeekendDay`: a weekday with no column.
- `MalformedTime`: indexing, `int(..)` or `strptime` rejects the time.
- `NotASlot`: `times.index` finds no such slot.
- `NoSlotAfter`: `times[i + 1]` is past the end of the list.

The model keeps these behaviours of the code:

- Rounding floors the minutes to :00 or :30 of the same hour.
- A Start event that rounds to 07:30 reaches `times[-1]`. The raw time then
  goes into the 20:00 row and every other row of that day becomes "/".
- An Ende event that rounds to 20:00 raises `IndexError`.
- The first exception aborts the whole table.
- A cell holds the project name only, because the entry query selects no
  comment.

## Model

| member | source | states |
|---|---|---|
| `ClockText.ParseClock` | main.py:118 | a parsed time lies within the day; its hours and minutes are the two-digit fields of the text |
| `ClockText.Format` | main.py:74 | the label of a time of day parses back to that time |
| `ClockText.FormatParse` | main.py:94-100 | a valid "HH:MM" string formats back to itself after parsing, so `strftime(strptime(s))` is `s` |
| `ClockText.FormatInjective` | main.py:74 | two times with the same label are equal |
| `ClockText.DigitValue` | main.py:112 | the value of a one-character ASCII decimal digit, below 10 |
| `ClockText.RoundBoundary` | main.py:111-117 | the result has five characters, a digit in the tens place, and the input's hour and colon |
| `ClockText.RoundBoundaryFloors` | main.py:111-118 | on a valid time the rounded text parses to (h, (m / 30) * 30): same hour, a half-hour value, the label of that value |
| `ClockText.RoundBoundaryIdempotent` | main.py:111-117 | rounding twice is the same as rounding once, for every input the routine accepts |
| `ClockText.RoundBoundaryRejectsLargeTens` | main.py:116-118 | a tens digit of 6 or more is kept, and the rounded text fails to parse |
| `ClockText.RoundInput` | main.py:201-207 | the input-page rounding equals the boundary rounding on every string with a digit in the tens place |
| `ClockText.RoundInputFloors` | main.py:198-207 | a valid input time is stored as "HH:00" or "HH:30" of the same hour, its floor to the half hour |
| `Calendar.SlotOf` | main.py:120-124 | returns k exactly when slot k is the given time; None means no slot has it |
| `Calendar.SlotTimes` | main.py:69-71 | the loop yields 26 times, the k-th being 07:30 plus 30·k minutes |
| `Calendar.SlotsAscend` | main.py:69-74 | the first label is "07:30", the last "20:00", each slot is 30 minutes after the one before, so the slots strictly increase |
| `Calendar.SlotLabelsDistinct` | main.py:74 | two different rows never share a label |
| `Calendar.SlotOfLabel` | main.py:94-100 | the row labelled `strftime(strptime(s))` is slot k exactly when s parses to slot k's time |
| `Calendar.WeekDates` | main.py:55-59 | five dates, the j-th being Monday plus j days |
| `Grid.EmptyGrid` | main.py:74-75 | 26 rows × 5 columns, every cell "" |
| `Grid.SetCell` | main.py:100 | one `.loc` write changes exactly the addressed cell |
| `Grid.FillSlash` | main.py:121-122 | writing "/" into rows lo..hi-1 of one column leaves every other cell as it was |
| `Grid.PyIndex` | main.py:120-121 | a list index in -26..25 is read as itself or, when negative, from the end |
| `Grid.AfterStart` | main.py:119-122 | a Start event keeps the 26 × 5 shape; StartEffect and StartAtFirstSlot give its cells |
| `Grid.AfterEnd` | main.py:123-126 | an Ende event keeps the 26 × 5 shape; EndEffect gives its cells |
| `Grid.StartEffect` | main.py:119-122 | Start at slot i ≥ 1: cell i-1 gets the raw time, cells 0..i-2 get "/", cells i..25 and all other columns are unchanged |
| `Grid.StartAtFirstSlot` | main.py:120-122 | Start at slot 0 wraps: row 25 gets the raw time, rows 0..24 get "/", other columns unchanged |
| `Grid.EndEffect` | main.py:123-126 | Ende at slot i ≤ 24: cell i+1 gets the raw time, cells i+2..25 get "/", cells 0..i and all other columns are unchanged |
| `Grid.Projected` | main.py:92-100 | projecting one entry keeps the 26 × 5 shape; ProjectedSetsOneCell gives its cells |
| `Grid.ProjectedSetsOneCell` | main.py:91-100 | an entry succeeds exactly when its time parses and its day is Monday-Friday; it then sets only the cell at (its slot, its weekday) to its project; a bad time raises before a weekend day |
| `Grid.ProjectedAll` | main.py:91-100 | the entry loop keeps the 26 × 5 shape |
| `Grid.ProjectedAllSucceeds` | main.py:94-97 | the entry loop finishes exactly when every entry is accepted |
| `Grid.LastEntryWins` | main.py:91-100 | after the entry loop a cell holds the project of the last entry that targets it, or its old value when none does |
| `Grid.AfterEvent` | main.py:108-126 | one boundary event keeps the 26 × 5 shape |
| `Grid.StartEventEffect` | main.py:109-122 | a Start with a valid time acts on the slot of its time floored to the half hour, or raises when that is no slot |
| `Grid.EndEventEffect` | main.py:109-126 | an Ende with a valid time acts on the slot of its floored time; it raises when that is no slot or the last slot |
| `Grid.EndAtLastSlotFails` | main.py:124 | an Ende between 20:00 and 20:29 always raises |
| `Grid.OtherStatusIgnored` | main.py:108-126 | an event of any other status never changes the table; with a valid time it succeeds exactly on weekdays |
| `Grid.WeekendEventFails` | main.py:110 | every boundary event on a Saturday or Sunday raises, whatever its time and status |
| `Grid.AfterEvents` | main.py:108-126 | the boundary loop keeps the 26 × 5 shape |
| `Grid.Filled` | main.py:91-126 | entries then events keep the 26 × 5 shape |
| `Grid.WeeklyGrid` | main.py:74-126 | the built table, when there is one, is 26 × 5 |
| `Grid.BoundaryOverridesEntries` | main.py:102-126 | a Start event at slot i ≥ 1, applied after the entries, leaves its raw time in cell i-1 and "/" above it, whatever entries were projected there |
| `WeeklyTimetable.Timetable.constructor` | main.py:53-75 | columns dated Monday plus 0..4 days, rows labelled by the 26 slots, every cell "" |
| `WeeklyTimetable.Timetable.Put` | main.py:100 | the cell array afterwards is `SetCell` of the old contents |
| `WeeklyTimetable.Timetable.Mark` | main.py:121-122 | the loop of "/" writes leaves the contents equal to `FillSlash` of the old ones |
| `WeeklyTimetable.Timetable.Project` | main.py:91-100 | result and new contents are those of `Projected`; on an exception nothing changes |
| `WeeklyTimetable.Timetable.ApplyStart` | main.py:119-122 | the new contents are `AfterStart` of the old ones |
| `WeeklyTimetable.Timetable.ApplyEnd` | main.py:123-126 | the new contents are `AfterEnd` of the old ones |
| `WeeklyTimetable.Timetable.ApplyEvent` | main.py:108-126 | result and new contents are those of `AfterEvent`; on an exception nothing changes |
| `WeeklyTimetable.Timetable.Build` | main.py:91-126 | the outcome is that of `Filled`, and on success the contents are its table |
| `WeeklyTimetable.ProjectedAllKeepsFailure` | main.py:91-100 | once an entry raises, the later entries do not change the outcome |
| `WeeklyTimetable.AfterEventsKeepsFailure` | main.py:108-126 | once an event raises, the later events do not change the outcome |
| `WeeklyTimetable.CreateTimetable` | main.py:53-128 | a fresh table dated from Monday whose contents are `WeeklyGrid` of the records, or the exception it raises |

## Left out

- The Streamlit pages are not modelled: forms, buttons, messages, table and chart rendering (main.py:43-46, 137-264). They are presentation and I/O.
- SQLite is not modelled: table creation, connections, inserts, deletes and queries (main.py:10-40, 49-50, 79-85, 102-107, 163-246). The query results are the input sequences.
- The week filter `strftime('%W', Datum)` and the ISO week of `fromisocalendar` are not modelled. Monday's day number is a parameter, and the records passed in are the ones the filter selects. The current year from the clock is not modelled either.
- Date handling is not modelled: `strptime` of the date, the weekday name from `strftime("%A")`, and the column labels "Mo (dd.mm.)" from `strftime("%d.%m.")`. A record carries its weekday as 0..6, and a column carries its date as a day number.
- The statistics page (main.py:255-261) is not modelled. It is a SQL `SUM` inside the database with no Python logic.
- `cell_class` (main.py:130-134) is not modelled. It is unused.
- `print(df)` is not modelled. It is console output.
- The pandas enlargement is not modelled. When an entry's time parses but is not a slot label, pandas adds a row. The model requires `OnGrid` of every entry instead.
- A NULL project name from the `LEFT JOIN` of a deleted project is not modelled. The project name is always a string.
- `ClockText.ParseClock`: accepts only the zero-padded "HH:MM" form. `strptime` also accepts single-digit fields, but stored times always come from `strftime("%H:%M")`.
- `ClockText.DigitValue`: treats only ASCII '0'-'9' as digits. Python's `int` also accepts other Unicode decimal digits.
- The table left behind after an exception is not modelled. The source discards it, so `Build` states the contents only on success.
