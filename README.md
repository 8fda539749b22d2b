# SBS operations dashboard — a Dafny model of its core

This project models the computational core of the SBS operations dashboard, a
Streamlit application that shows a task sheet (transcripts, people, tasks,
projects, statuses and assignment dates) as executive metrics and charts.
The model covers the following parts:

- **Column aliases** (`Charts`, `ExecutiveSummary`). `get_column` and
  `has_column` resolve a logical name to a real header: the exact header, or
  else one that carries the name plus a `___` uniqueness suffix
  (`Status___2`). Nothing in the dashboard itself produces such suffixes; the
  convention is assumed of the sheet data. Both the chart
  module and the executive summary page carry a copy of these helpers, and
  the model proves the two copies agree.
- **Executive metrics** (`ExecutiveSummary`). `calculate_executive_metrics`
  counts four status buckets by keyword and scans for overdue tasks. It then
  computes the completion rate, rounded to one decimal.
- **Chart data** (`Charts`). The numbers behind the charts:
  - the project health score and its colour bands;
  - the donut's overall progress;
  - the placeholder task-age split;
  - the per-project and per-user task counts;
  - the cycling bar palettes.
- **UI helpers** (`UiHelpers`). The status badge (`get_status_badge`) and the
  relative date wording (`format_relative_date`).
- **Demo-data transformer** (`DemoData`). The fake pools and the generators
  that draw from them. `transform_to_demo_data` replaces the sensitive
  columns of a copy of the table. Its Task column is drawn pass by pass from
  shuffled copies of the sixty-task pool.
- **Supporting modules**:
  - `Text`: Python's `str.strip`, `lower`, `title`, `startswith`, `in` and
    `str(n)` on ASCII text.
  - `Dates`: the proleptic Gregorian calendar, `toordinal`, and `strptime` /
    `strftime` for `%Y-%m-%d` and `%b %d, %Y`.
  - `Tables`: a data frame as column headers plus rows mapping headers to
    cells, with `df[c]`, column assignment, boolean-mask counts and
    `value_counts`.

Some source behaviour is turned into inputs:

- The current date becomes a day-number parameter (`today`, `todayOrdinal`).
- Python's `random` module is replaced by its outcomes, supplied as a
  `Draws` value: each `randint` result, each `choice` index, and each swap
  position of each `shuffle`.
- A chart function's `return None` becomes `None`. Otherwise the chart
  becomes the data it would draw.

Percentages that the source computes in floating point are computed exactly:
- The completion rate is a whole number of tenths of a percent.
- Truncated percentages (`int(x / y * 100)`) are whole-number quotients.

The executive summary's four status buckets are not a partition. Each
bucket is an independent keyword test, and the code counts completed tasks
as done plus archived. So a status that matches both a done keyword and an
archived keyword is counted twice. Two examples are "done, archived" and
"archived - complete". The completion rate can therefore reach 200%. The
model keeps this behaviour:
- `ExecutiveSummary.OverlappingStatus` and
  `ExecutiveSummary.OverlapDoublesRate` exhibit the overlap.
- `ExecutiveSummary.RateAtMostHundred` proves the 100% bound for tables
  where no status falls into both buckets.

## Model

| member | source | states |
|---|---|---|
| Charts.MatchingColumns | charts.py:37 | every match is a header of the table that starts with the name plus `___` |
| Charts.GetColumnExact | charts.py:33-34 | an exact header is returned as it is |
| Charts.GetColumnSuffixed | charts.py:27-42 | without an exact header, the first suffixed header in header order is returned |
| Charts.GetColumnFallback | charts.py:41-42 | with neither an exact nor a suffixed header, the bare name comes back |
| Charts.GetColumn | charts.py:27-42 | an exact header comes back as it is; any other result is either the bare name or a real header that starts with the name plus `___` |
| Charts.GetColumnResolves | charts.py:37-48 | `get_column` names a real header exactly when the header is present or some header starts with the name plus `___` |
| Charts.HasColumn | charts.py:44-48 | `has_column` holds exactly when `get_column` names a real header; otherwise `get_column` returns the name, which is not a header |
| ExecutiveSummary.GetColumn | pages/executive_summary_page.py:8-20 | the page's `get_column`: an exact header comes back as it is; any other result is the bare name or a real header starting with the name plus `___` |
| ExecutiveSummary.HasColumn | pages/executive_summary_page.py:22-26 | the page's `has_column` holds exactly when its `get_column` names a real header, and otherwise `get_column` returns the name |
| ExecutiveSummary.ColumnHelpersAgree | pages/executive_summary_page.py:8-26 | the page's copies of `get_column` / `has_column` equal the chart module's, and `has_column` holds iff `get_column` resolves |
| Charts.HealthScore | charts.py:286 | 0 without tasks; otherwise the largest whole percentage not above `(complete + in_progress/2) / total` |
| Charts.HealthScoreBounded | charts.py:286 | with complete + in-progress at most the total, the score is at most 100, and exactly 100 when every task is complete |
| Charts.HealthScoreMonotone | charts.py:286 | moving a task from in progress to complete never lowers the score |
| Charts.HealthBand | charts.py:302-308 | healthy iff score >= 75, warning iff 50 <= score < 75, at risk iff score < 50 |
| Charts.ProjectHealthData | charts.py:280-292 | one row per project, in order, with the project's name, its total and its health score |
| Charts.HealthColours | charts.py:301-308 | one colour per score, in order; each of the three colours is given exactly in its band |
| Charts.CreateProjectHealthDashboard | charts.py:275-308 | `None` iff there are no projects; otherwise one row per project, in order, with its name, its total, its score and the colour of the score's band |
| Charts.OverallProgress | charts.py:352-384 | `None` (no chart) iff there are no tasks; otherwise the truncated percentage of started or done tasks, at most 100 |
| Charts.TaskAgeAnalysis | charts.py:155-173 | `None` iff the table is empty; otherwise 40%, 30% and 20% of the rows, truncated, with the rest (at least 10%) in "30+ days"; the four add up to the rows |
| Charts.ProjectKey | charts.py:429 | the grouping key `lower().strip()` equals `strip().lower()` |
| Charts.ProjectKeyInsensitive | charts.py:429 | grouping ignores case and surrounding whitespace, and a key is its own key |
| Charts.ProjectKeys | charts.py:429 | one grouping key per cell, in row order; every key is already normalised (it is its own key) |
| Charts.ProjectBreakdown | charts.py:421-433 | `None` iff the table is empty or lacks a Project column; otherwise the keys are exactly the rows' normalised project cells, each mapped to the number of rows that carry it |
| Charts.ProjectBreakdownTotals | charts.py:429 | the per-project counts add up to the number of rows |
| Charts.ProjectLabel | charts.py:436 | the bar label is the key title-cased: a letter after a letter is small, any other letter a capital, every other character as in the key |
| Charts.ProjectLabelAgrees | charts.py:436 | two cells that differ only in case get the same title-cased label |
| Charts.CycleColours | charts.py:450 | one colour per bar, each from the palette, at position `i % len(palette)` |
| Charts.ProjectBarColoursDistinct | charts.py:439-450 | the project chart's six colours are all different, so bars fewer than six apart never share a colour |
| Charts.UserBarColoursRepeat | charts.py:532-542 | the user chart's palette repeats two colours, so with six or more users the second and fifth bars share a colour, as do the third and sixth |
| Charts.CycleColoursPeriodic | charts.py:450 | the first bars take the palette in order, and each later bar repeats the colour one palette-length before it |
| Charts.AssigneeColumn | charts.py:506-512 | "Assigned To", then "Person", then "assignee", the first that resolves; none iff none does; a found column is a real header |
| Charts.TasksByUser | charts.py:500-519 | `None` iff the table is empty or has no assignee column; otherwise the keys are exactly the rows' stripped assignees, each mapped to the number of rows that carry it |
| Charts.UserNames | charts.py:519 | one stripped name per cell, in row order; stripping a name again changes nothing |
| Charts.TasksByUserTotals | charts.py:519 | the per-user counts add up to the number of rows |
| ExecutiveSummary.IsOverdue | pages/executive_summary_page.py:99-109 | an overdue row has a status containing an open or a working keyword and a date that parses |
| ExecutiveSummary.OverdueStatusIsActive | pages/executive_summary_page.py:84-85 | each exact overdue status contains an open or a working keyword |
| ExecutiveSummary.CountOverdue | pages/executive_summary_page.py:93-109 | the loop counts exactly the overdue rows |
| ExecutiveSummary.RoundHalfEven | pages/executive_summary_page.py:119 | the rounded quotient is the floor or the floor plus one, and the latter only when the division is inexact |
| ExecutiveSummary.RoundHalfEvenNearest | pages/executive_summary_page.py:119 | the rounded value is within half a unit of the exact quotient, and a tie goes to the even value |
| ExecutiveSummary.CompletionRate | pages/executive_summary_page.py:111-113 | 0 without tasks; 100.0% when all tasks are completed; at most 100.0% when completed <= total; at most 200.0% when completed <= 2 * total |
| ExecutiveSummary.ExecutiveMetrics | pages/executive_summary_page.py:64-125 | all zero for an empty table or one without a Status column; otherwise the total is the row count, active equals open and in-progress equals working; no overdue tasks without a Date Assigned column |
| ExecutiveSummary.CalculateExecutiveMetrics | pages/executive_summary_page.py:64-125 | the method (with its overdue loop) returns the metrics the specification function defines |
| ExecutiveSummary.DegradedTableGivesZero | pages/executive_summary_page.py:66-77 | an empty table, or one with no Status column, gives all-zero metrics |
| ExecutiveSummary.MetricsBounds | pages/executive_summary_page.py:79-119 | total is the row count; no bucket exceeds it; overdue tasks are at most open plus working; overdue is 0 without a Date Assigned column; the rate is at most 200.0% |
| ExecutiveSummary.RateAtMostHundred | pages/executive_summary_page.py:86-87 | when no status is both done and archived, the rate is at most 100.0% |
| ExecutiveSummary.OverlappingStatus | pages/executive_summary_page.py:86-87 | the status "done, archived" falls into both the done and the archived bucket |
| ExecutiveSummary.OverlapDoublesRate | pages/executive_summary_page.py:111-113 | when every status is both done and archived, both buckets count every row and the rate is 200.0% |
| UiHelpers.ClassOf | ui_helpers.py:22-42 | the if-chain's branch: each class iff the key is in its list and in none of the lists before it |
| UiHelpers.StatusListsDisjoint | ui_helpers.py:22-34 | no status is listed under two badges |
| UiHelpers.StatusBadge | ui_helpers.py:16-42 | no badge iff the status is missing or blank; otherwise the stripped, lower-cased status picks the done, in-progress, open or archived badge by its list, and an unlisted status gets the remaining colours with its title-cased text as caption |
| UiHelpers.KnownBadgeNormalized | ui_helpers.py:19 | surrounding blanks and case do not change the badge of a known status |
| UiHelpers.BadgeIgnoresCase | ui_helpers.py:19-42 | letter case alone never changes a badge, the title-cased caption of an unknown status included |
| UiHelpers.BadgeColoursIdentifyClass | ui_helpers.py:22-41 | each known class has its own colours, and unknown statuses get the remaining pair |
| UiHelpers.Classify | ui_helpers.py:89-111 | each wording iff the day difference is in its range; the day count is the difference; the week count is `abs(diff) // 7`, between 1 and 4 |
| UiHelpers.FormatRelativeDate | ui_helpers.py:74-114 | the empty string iff the input is blank; an unparsable input comes back unchanged |
| UiHelpers.Describe | ui_helpers.py:89-111 | a parsed date always gets a non-empty wording |
| UiHelpers.Label | ui_helpers.py:92-111 | every wording, the long date included, is non-empty |
| UiHelpers.RelativeOfParsed | ui_helpers.py:77-89 | a non-blank input whose stripped text parses is worded by its date's distance from today |
| UiHelpers.RelativeOfIso | ui_helpers.py:80-89 | a date in the sheet's `YYYY-MM-DD` form is worded by its distance from today |
| UiHelpers.NearLabelsDistinct | ui_helpers.py:92-101 | within a week either side of today, different offsets get different words |
| UiHelpers.WeekCountPlural | ui_helpers.py:102-107 | from 8 to 30 days out, "week" is singular iff fewer than 14 days |
| Dates.ParseIso | ui_helpers.py:80 | an accepted string has ten characters, four digits, a dash, two digits, a dash and two digits, and names a valid date |
| Dates.FormatIso | demo_data_transformer.py:135 | the formatted date has ten characters: four digits, a dash, two digits, a dash and two digits |
| Dates.FormatIsoRoundTrip | demo_data_transformer.py:135 | parsing a formatted date gives the date back |
| Dates.ParseIsoCanonical | ui_helpers.py:80 | the parser accepts only strings that are the formatting of their date |
| Dates.DateInYear | demo_data_transformer.py:134 | `k` days after New Year is a valid date of that year, whose day number is New Year's plus `k` |
| Dates.FormatLong | ui_helpers.py:109-111 | `%b %d, %Y`: the month abbreviation, a space, a zero-padded day, then ", " and the decimal year with no leading zero |
| Text.Strip | ui_helpers.py:16 | the stripped text is empty iff the input is all whitespace, has no whitespace at either end, and is the slice of the input after its leading whitespace with only whitespace after it |
| Text.StripLowerCommute | charts.py:429 | `lower().strip()` and `strip().lower()` agree |
| Text.Title | ui_helpers.py:42 | `title()` capitalises the first letter of every word (a letter not preceded by a letter), makes every other letter small, and leaves every other character unchanged |
| Text.TitleIgnoresCase | ui_helpers.py:42 | `title()` ignores the case of its input |
| Text.NatToStringValue | demo_data_transformer.py:110 | reading back `str(n)` gives `n` |
| Tables.MapColumn | pages/executive_summary_page.py:79-81 | the copy has the function applied to one column's cells; every other cell is unchanged |
| Tables.SetColumn | demo_data_transformer.py:155 | the assigned column holds the values; every other cell is unchanged |
| Tables.ValueCounts | charts.py:429 | the keys are exactly the cells, each mapped to how often it occurs |
| Tables.ValueCountsTotal | charts.py:519 | the counts of `value_counts` add up to the number of cells |
| DemoData.TranscriptId | demo_data_transformer.py:108-110 | five or six digits, no leading zero, reading back as the number drawn |
| DemoData.Choice | demo_data_transformer.py:112-126 | the choice is from the pool |
| DemoData.DaysBetween2025 | demo_data_transformer.py:130-132 | 2025 has 364 days between its first and last day |
| DemoData.RandomDate2025 | demo_data_transformer.py:128-135 | a ten-character date that parses to 2025 and lies `offset` days after New Year |
| DemoData.RandomDatesDistinct | demo_data_transformer.py:133-135 | different draws give different dates |
| DemoData.TranscriptIds | demo_data_transformer.py:154-155 | one id per row, each 5-6 digits reading back as its draw |
| DemoData.Choices | demo_data_transformer.py:158-159 | one pick per row, each from the pool |
| DemoData.RandomDates | demo_data_transformer.py:187-188 | one date per row, each parsing to a date of 2025 |
| DemoData.Shuffle | demo_data_transformer.py:166 | `random.shuffle` permutes the list in place (same multiset) |
| DemoData.Passes | demo_data_transformer.py:173-175 | the refill loop runs the least number of 60-task passes covering the rows |
| DemoData.OnePass | demo_data_transformer.py:168-169 | a column cut from one shuffled copy of the pool is unique per pass |
| DemoData.ManyPasses | demo_data_transformer.py:170-176 | a column cut from whole shuffled copies of the pool, laid end to end, is unique per pass |
| DemoData.ShortColumn | demo_data_transformer.py:161-169 | with no more rows than pooled tasks, no task occurs more often than in the pool |
| DemoData.PassHasNoRepeats | demo_data_transformer.py:161 | given a pool without repeats, the rows of one pass hold distinct tasks |
| DemoData.ShortColumnNoRepeats | demo_data_transformer.py:161-169 | given a pool without repeats and at most 60 rows, the Task column holds distinct tasks |
| DemoData.TasksDiffer | demo_data_transformer.py:19-89 | any two positions of the sixty-task pool hold different tasks |
| DemoData.PoolNoRepeats | demo_data_transformer.py:19-89 | the sixty `FAKE_TASKS` strings are pairwise different |
| DemoData.DemoTasksDistinct | demo_data_transformer.py:161-169 | a demo table of at most 60 rows with a Task column holds distinct tasks |
| DemoData.AssignTasks | demo_data_transformer.py:162-176 | the Task column has one task per row; every task is from the pool; each pass holds no task more often than the pool, and a full pass holds the pool exactly |
| DemoData.Generated | demo_data_transformer.py:155-188 | the five generated columns fit the table; ids have 5-6 digits; names, projects and statuses come from their pools; dates are in 2025 |
| DemoData.HeadersDistinct | demo_data_transformer.py:154-187 | the six sensitive headers are different strings |
| DemoData.DemoTableWrites | demo_data_transformer.py:151-190 | the six steps write the generated columns and the Task column that the table has, and leave every other cell alone |
| DemoData.DemoTableIsDemo | demo_data_transformer.py:151-190 | the six steps yield a demo of the table, with distinct tasks when there are at most 60 rows |
| DemoData.OverwriteCell | demo_data_transformer.py:154-155 | after one step, a cell of the overwritten column holds the new value when the table has that column, and every other cell keeps its old value |
| DemoData.OverwriteStep | demo_data_transformer.py:154-155 | one `if c in demo_df.columns: demo_df[c] = values` step returns the table that the one-step function `Overwrite` defines, so the cells are as `DemoData.OverwriteCell` states |
| DemoData.DemoCellsAreFake | demo_data_transformer.py:153-188 | every sensitive cell of a demo table is fake: an id of 5-6 digits, a fake name, a pool task, a fake project, a status option, a 2025 date |
| DemoData.TransformToDemoData | demo_data_transformer.py:137-190 | no table gives none; an empty table comes back unchanged; otherwise the copy holds the generated values, the tasks are unique per pass over the 60-task pool (so all distinct for at most 60 rows), and all other cells are untouched |

## Left out

- Plotly figures, Streamlit widgets, the badge's HTML template and all page
  rendering (`render_*`, `create_global_search`, the floating action
  button): only the data each chart or badge would show is modelled.
- The velocity chart (`create_task_completion_velocity`) ignores its
  argument and plots seven hard-coded mock counts (charts.py:229-231); it has
  no computation to model.
- The project overview chart (`create_project_tasks_overview_chart`) draws
  from `exec_metrics["tasks_by_project"]`, which the modelled
  `calculate_executive_metrics` never fills; it only lays out bars and is
  not modelled. `Charts.CreateProjectHealthDashboard` takes the per-project
  metrics as a parameter.
- Sorting of chart rows (`sort_values`) is not modelled: it only orders bars.
- dashboard.py, `load_google_sheet`, and writing the demo data back to the
  sheet (demo_data_transformer.py:193 onward,
  write_demo_data_to_sheet.py): network and sheet I/O.
- `datetime.now()` is a parameter, the current day number.
  - `ExecutiveSummary.CountOverdue` uses `today - Ordinal(date)` for
    `(now - midnight).days`. That is exact, because the time of day lies
    within the day.
- Python's `random` is replaced by its outcomes (`Draws`). The generator's
  distribution is not modelled.
- NaN and missing cells: a cell is always a string, and an absent key reads
  as `""`. Therefore `na=False` and `str(nan)` are not modelled.
- Floating point. Percentages and the completion rate are exact rationals,
  rounded as the source rounds them.
  - `ExecutiveSummary.CompletionRate`: round-half-even is applied to the
    exact ratio, not to the binary float `completed / total * 100`. On a
    tie, the float's representation error can make Python round the other
    way.
  - `Charts.HealthScore` and `Charts.OverallProgress` truncate the exact
    quotient. The float product can land just below a whole number.
- Text:
  - `Text.Lower` and `Text.Title` fold only ASCII letters.
  - `Text.IsSpace` covers only the ASCII whitespace of `str.isspace`.
  - Non-ASCII case mappings and Unicode whitespace are not modelled.
- `Dates.ParseIso` accepts only the zero-padded `YYYY-MM-DD` form.
  `strptime` also takes one-digit months and days ("2025-3-5"); the model
  treats those as parse failures.
- `Charts.ProjectBreakdown` and `Charts.TasksByUser`: the "no data to
  display" branch after `value_counts` cannot happen once the table has rows,
  so it is absent.
- `UiHelpers.FormatRelativeDate`: the branch for an input that is not a
  string (a `datetime` passed directly) is not modelled; the input is always
  text.
- `DemoData.Shuffle`: only "the list is a permutation of itself" is stated.
  Which permutation CPython's shuffle produces for given draws is not stated.
- Headers are assumed distinct. A row maps each header to one cell, so a
  sheet with a repeated header (two "Status" columns, say) cannot be
  represented. In the source, a repeated header that is looked up makes
  `df[col]` a frame, and the following `.str` call raises; that failure is
  not modelled.
- `DemoData.TransformToDemoData` writes plain sequences of strings.
  pandas' index alignment and dtype handling on column assignment are not
  modelled.
