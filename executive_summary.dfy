/** The executive summary's metrics (pages/executive_summary_page.py): its own
    copy of the column alias helpers, the four status buckets counted by
    keyword, the overdue scan and the completion rate. The current date is a
    parameter, as a day number. */
module ExecutiveSummary {
  import opened Wrappers
  import opened Text
  import opened Tables
  import opened Dates
  import Charts

  // ---------------------------------------------------------------------
  // Column alias resolution (the page's own copy)

  const Separator := "___"

  /** `[col for col in df.columns if col.startswith(f"{name}___")]` */
  function MatchingColumns(columns: seq<string>, name: string): (r: seq<string>)
    ensures forall c :: c in r ==> c in columns && StartsWith(c, name + Separator)
  {
    if columns == [] then []
    else
      (if StartsWith(columns[0], name + Separator) then [columns[0]] else [])
      + MatchingColumns(columns[1..], name)
  }

  /** `get_column`: the exact header, else a header carrying the name plus
      the separator, else the bare name. */
  function GetColumn(columns: seq<string>, name: string): (r: string)
    ensures name in columns ==> r == name
    ensures r == name || (r in columns && StartsWith(r, name + Separator))
  {
    if name in columns then name
    else
      var matching := MatchingColumns(columns, name);
      if matching != [] then matching[0] else name
  }

  /** `has_column`: holds exactly when `get_column` names a real header. */
  predicate HasColumn(columns: seq<string>, name: string): (b: bool)
    ensures b <==> GetColumn(columns, name) in columns
    ensures !b ==> GetColumn(columns, name) == name && name !in columns
  {
    MatchingColumnsAgree(columns, name);
    Charts.GetColumnResolves(columns, name);
    name in columns || exists i :: 0 <= i < |columns| && StartsWith(columns[i], name + Separator)
  }

  lemma {:induction false} MatchingColumnsAgree(columns: seq<string>, name: string)
    ensures MatchingColumns(columns, name) == Charts.MatchingColumns(columns, name)
  {
    if columns != [] {
      MatchingColumnsAgree(columns[1..], name);
    }
  }

  /** The page's helpers and the chart module's helpers are the same
      functions: exact header, then the first suffixed header, then the bare
      name; and a name resolves exactly when it names a real header. */
  lemma ColumnHelpersAgree(columns: seq<string>, name: string)
    ensures GetColumn(columns, name) == Charts.GetColumn(columns, name)
    ensures HasColumn(columns, name) == Charts.HasColumn(columns, name)
    ensures HasColumn(columns, name) <==> GetColumn(columns, name) in columns
    ensures !HasColumn(columns, name) ==> GetColumn(columns, name) == name && name !in columns
  {
    MatchingColumnsAgree(columns, name);
  }

  // ---------------------------------------------------------------------
  // Status buckets

  /** The alternatives of the patterns passed to `str.contains`; the emoji
      are the red, yellow and green circles. */
  const OpenKeywords: seq<string> := ["open", "not started", "\U{1F534}"]
  const WorkingKeywords: seq<string> := ["working", "in progress", "\U{1F7E1}"]
  const DoneKeywords: seq<string> := ["done", "complete", "\U{1F7E2}"]
  const ArchivedKeywords: seq<string> := ["archived", "archive"]

  /** `str.contains("a|b|c", case=False)`: some alternative occurs in the
      status, ignoring case. */
  predicate ContainsAny(status: string, keywords: seq<string>) {
    exists i :: 0 <= i < |keywords| && Contains(Lower(status), keywords[i])
  }

  /** The row's status cell matches one of the keywords. */
  function StatusMatches(statusCol: string, keywords: seq<string>): Row -> bool {
    r => ContainsAny(Cell(r, statusCol), keywords)
  }

  /** The status column of the copy: `str.strip().str.lower()`. */
  function NormalizeStatus(s: string): string {
    Lower(Strip(s))
  }

  // ---------------------------------------------------------------------
  // Overdue tasks

  /** The exact statuses the overdue scan accepts. */
  const OverdueStatuses: seq<string> := ["open", "working", "in progress", "not started"]

  const OverdueAfterDays := 30

  /** One row of the overdue scan: the lower-cased status is one of the
      exact statuses, the stripped date is non-empty and parses, and more
      than 30 days separate it from today. An unparsable date is skipped. */
  predicate IsOverdue(status: string, dateCell: string, today: int): (b: bool)
    ensures b ==> ContainsAny(status, OpenKeywords) || ContainsAny(status, WorkingKeywords)
    ensures b ==> ParseIso(Strip(dateCell)).Some?
  {
    OverdueStatusIsActive(status);
    var s := Lower(status);
    var dateStr := Strip(dateCell);
    s in OverdueStatuses && dateStr != []
    && match ParseIso(dateStr)
       case None => false
       case Some(d) => today - Ordinal(d) > OverdueAfterDays
  }

  function OverdueRow(statusCol: string, dateCol: string, today: int): Row -> bool {
    r => IsOverdue(Cell(r, statusCol), Cell(r, dateCol), today)
  }

  /** Each exact overdue status contains an open or a working keyword. */
  lemma OverdueStatusIsActive(status: string)
    ensures Lower(status) in OverdueStatuses ==>
      ContainsAny(status, OpenKeywords) || ContainsAny(status, WorkingKeywords)
  {
    var s := Lower(status);
    ContainsSelf(s);
    if s !in OverdueStatuses {
    } else if s == "open" {
      assert Contains(s, OpenKeywords[0]);
    } else if s == "working" {
      assert Contains(s, WorkingKeywords[0]);
    } else if s == "in progress" {
      assert Contains(s, WorkingKeywords[1]);
    } else {
      assert Contains(s, OpenKeywords[1]);
    }
  }

  /** The body of the scan for one row: the status test, then the date
      test, with a parse failure skipping the row. */
  method CheckRowOverdue(row: Row, statusCol: string, dateCol: string, today: int) returns (hit: bool)
    ensures hit == IsOverdue(Cell(row, statusCol), Cell(row, dateCol), today)
  {
    var status := Lower(Cell(row, statusCol));
    var dateStr := Strip(Cell(row, dateCol));
    hit := false;
    if status in OverdueStatuses && dateStr != [] {
      match ParseIso(dateStr)
      case Some(dateAssigned) =>
        var daysOld := today - Ordinal(dateAssigned);
        if daysOld > OverdueAfterDays {
          hit := true;
        }
      case None =>
    }
  }

  /** The overdue scan: one pass over the rows, counting those that
      are overdue. */
  method CountOverdue(rows: seq<Row>, statusCol: string, dateCol: string, today: int)
    returns (overdue: nat)
    ensures overdue == Count(rows, OverdueRow(statusCol, dateCol, today))
  {
    overdue := 0;
    var i := 0;
    while i < |rows|
      invariant 0 <= i <= |rows|
      invariant overdue == Count(rows[..i], OverdueRow(statusCol, dateCol, today))
    {
      var hit := CheckRowOverdue(rows[i], statusCol, dateCol, today);
      if hit {
        overdue := overdue + 1;
      }
      CountStep(rows, OverdueRow(statusCol, dateCol, today), i);
      i := i + 1;
    }
    assert rows[..i] == rows;
  }

  // ---------------------------------------------------------------------
  // Completion rate

  /** `round(num / den)` with Python's rounding; `RoundHalfEvenNearest`
      says which whole number it picks. */
  function RoundHalfEven(num: nat, den: nat): (n: nat)
    requires den > 0
    ensures num / den <= n <= num / den + 1
    ensures n == num / den + 1 ==> num % den != 0
  {
    var q, r := num / den, num % den;
    if 2 * r < den || (2 * r == den && q % 2 == 0) then q else q + 1
  }

  /** The rounded value is the whole number nearest to `num / den`, and on
      a tie the even one. */
  lemma RoundHalfEvenNearest(num: nat, den: nat)
    requires den > 0
    ensures var n := RoundHalfEven(num, den);
      && -(den as int) <= 2 * ((n * den) as int - num) <= den
      && (2 * ((n * den) as int - num) == den ==> n % 2 == 0)
      && (2 * ((n * den) as int - num) == -(den as int) ==> n % 2 == 0)
  {
    var n := RoundHalfEven(num, den);
    var q, r := num / den, num % den;
    assert num == q * den + r;
    if n == q {
      assert (n * den) as int - num == -r;
    } else {
      assert n * den == q * den + den;
      assert (n * den) as int - num == den - r;
    }
  }

  /** `round(completed / total * 100, 1)` as a whole number of tenths of a
      percent, or 0 without tasks: the tenth nearest to the exact ratio. */
  function CompletionRate(completed: nat, total: nat): (tenths: nat)
    ensures total == 0 ==> tenths == 0
    ensures completed <= total ==> tenths <= 1000
    ensures completed <= 2 * total ==> tenths <= 2000
    ensures total > 0 && completed == total ==> tenths == 1000
    ensures total > 0 && completed == 2 * total ==> tenths == 2000
  {
    if total == 0 then 0
    else
      RateBound(completed, total, 1000 * completed / total, 1000 * completed % total);
      ExactRate(completed, total);
      RoundHalfEven(1000 * completed, total)
  }

  /** Whole multiples of the total give whole percentages. */
  lemma ExactRate(completed: nat, total: nat)
    requires total > 0
    ensures completed == total ==> RoundHalfEven(1000 * completed, total) == 1000
    ensures completed == 2 * total ==> RoundHalfEven(1000 * completed, total) == 2000
  {
    if completed == total {
      Charts.DivModUnique(1000 * completed, total, 1000, 0);
    }
    if completed == 2 * total {
      assert 1000 * completed == 2000 * total + 0;
      Charts.DivModUnique(1000 * completed, total, 2000, 0);
    }
  }

  lemma RateBound(completed: nat, total: nat, q: nat, r: nat)
    requires total > 0 && q == 1000 * completed / total && r == 1000 * completed % total
    ensures completed <= total ==> q <= 1000
    ensures completed <= total && q == 1000 ==> r == 0
    ensures completed <= 2 * total ==> q <= 2000
    ensures completed <= 2 * total && q == 2000 ==> r == 0
  {
    if completed <= total {
      Charts.DivMonotone(1000 * completed, 1000 * total, total);
      Charts.DivExact(1000, total);
      if q == 1000 {
        assert 1000 * completed == 1000 * total + r;
      }
    }
    if completed <= 2 * total {
      Charts.DivMonotone(1000 * completed, 2000 * total, total);
      Charts.DivExact(2000, total);
      if q == 2000 {
        assert 1000 * completed == 2000 * total + r;
      }
    }
  }

  // ---------------------------------------------------------------------
  // The metrics

  datatype Metrics = Metrics(
    activeTasks: nat,
    inProgressTasks: nat,
    overdueTasks: nat,
    completionRateTenths: nat,
    totalTasks: nat,
    openTasks: nat,
    workingTasks: nat,
    doneTasks: nat,
    archivedTasks: nat)

  const ZeroMetrics := Metrics(0, 0, 0, 0, 0, 0, 0, 0, 0)

  /** What `calculate_executive_metrics` returns: all zero for an empty table
      or one without a Status column; otherwise, on a copy whose status
      column is stripped and lower-cased, each bucket counts the rows whose
      status contains one of its keywords (independently of the other
      buckets), the overdue count is the scan above when a Date Assigned
      column exists, and the completion rate is done plus archived over all
      rows. The rate is computed by `Tally`, whose contract states it as
      `CompletionRate(done + archived, total)`. */
  function ExecutiveMetrics(t: Table, today: int): (m: Metrics)
    ensures IsEmpty(t) || !HasColumn(t.columns, "Status") ==> m == ZeroMetrics
    ensures !IsEmpty(t) && HasColumn(t.columns, "Status") ==>
      && m.totalTasks == |t.rows|
      && m.activeTasks == m.openTasks && m.inProgressTasks == m.workingTasks
    ensures !HasColumn(t.columns, "Date Assigned") ==> m.overdueTasks == 0
  {
    if IsEmpty(t) || !HasColumn(t.columns, "Status") then ZeroMetrics
    else
      var statusCol := GetColumn(t.columns, "Status");
      var copy := MapColumn(t, statusCol, NormalizeStatus);
      var open := Count(copy.rows, StatusMatches(statusCol, OpenKeywords));
      var working := Count(copy.rows, StatusMatches(statusCol, WorkingKeywords));
      var done := Count(copy.rows, StatusMatches(statusCol, DoneKeywords));
      var archived := Count(copy.rows, StatusMatches(statusCol, ArchivedKeywords));
      var overdue :=
        if HasColumn(copy.columns, "Date Assigned")
        then Count(copy.rows, OverdueRow(statusCol, GetColumn(copy.columns, "Date Assigned"), today))
        else 0;
      Tally(open, working, done, archived, overdue, |copy.rows|)
  }

  /** The returned dictionary, from the bucket counts, the overdue count and
      the row count. */
  function Tally(open: nat, working: nat, done: nat, archived: nat, overdue: nat, total: nat): (m: Metrics)
    ensures m.activeTasks == m.openTasks == open && m.inProgressTasks == m.workingTasks == working
    ensures m.doneTasks == done && m.archivedTasks == archived
    ensures m.overdueTasks == overdue && m.totalTasks == total
    ensures m.completionRateTenths == CompletionRate(done + archived, total)
  {
    Metrics(open, working, overdue, CompletionRate(done + archived, total), total, open, working, done, archived)
  }

  /** `calculate_executive_metrics`, with the overdue loop. */
  method CalculateExecutiveMetrics(t: Table, today: int) returns (m: Metrics)
    ensures m == ExecutiveMetrics(t, today)
  {
    if IsEmpty(t) || !HasColumn(t.columns, "Status") {
      return ZeroMetrics;
    }
    var statusCol := GetColumn(t.columns, "Status");
    var copy := MapColumn(t, statusCol, NormalizeStatus);
    var open := Count(copy.rows, StatusMatches(statusCol, OpenKeywords));
    var working := Count(copy.rows, StatusMatches(statusCol, WorkingKeywords));
    var done := Count(copy.rows, StatusMatches(statusCol, DoneKeywords));
    var archived := Count(copy.rows, StatusMatches(statusCol, ArchivedKeywords));
    var overdue := 0;
    if HasColumn(copy.columns, "Date Assigned") {
      var dateCol := GetColumn(copy.columns, "Date Assigned");
      overdue := CountOverdue(copy.rows, statusCol, dateCol, today);
    }
    m := Tally(open, working, done, archived, overdue, |copy.rows|);
  }

  /** An empty table, or one whose Status column does not resolve, gives
      all-zero metrics. */
  lemma DegradedTableGivesZero(t: Table, today: int)
    requires IsEmpty(t) || !HasColumn(t.columns, "Status")
    ensures ExecutiveMetrics(t, today) == ZeroMetrics
  {
  }

  /** On a table with rows and a Status column: the total is the row count,
      active is open and in-progress is working, no bucket exceeds the total,
      overdue tasks are among the open or working ones, there are none
      without a Date Assigned column, and the rate is at most 200%
      (a status can be counted both done and archived). */
  lemma MetricsBounds(t: Table, today: int)
    requires !IsEmpty(t) && HasColumn(t.columns, "Status")
    ensures var m := ExecutiveMetrics(t, today);
      && m.totalTasks == |t.rows| > 0
      && m.activeTasks == m.openTasks && m.inProgressTasks == m.workingTasks
      && m.openTasks <= m.totalTasks && m.workingTasks <= m.totalTasks
      && m.doneTasks <= m.totalTasks && m.archivedTasks <= m.totalTasks
      && m.overdueTasks <= m.openTasks + m.workingTasks
      && (!HasColumn(t.columns, "Date Assigned") ==> m.overdueTasks == 0)
      && m.completionRateTenths <= 2000
  {
    var statusCol := GetColumn(t.columns, "Status");
    var copy := MapColumn(t, statusCol, NormalizeStatus);
    if HasColumn(copy.columns, "Date Assigned") {
      var dateCol := GetColumn(copy.columns, "Date Assigned");
      var isOpen := StatusMatches(statusCol, OpenKeywords);
      var isWorking := StatusMatches(statusCol, WorkingKeywords);
      var isOverdue := OverdueRow(statusCol, dateCol, today);
      forall i | 0 <= i < |copy.rows| && isOverdue(copy.rows[i])
        ensures isOpen(copy.rows[i]) || isWorking(copy.rows[i])
      {
        OverdueStatusIsActive(Cell(copy.rows[i], statusCol));
      }
      CountUnion(copy.rows, isOpen, isWorking, isOverdue);
    }
  }

  /** When no status matches two buckets, done plus archived is at most the
      total and the rate is at most 100%. */
  lemma RateAtMostHundred(t: Table, today: int)
    requires !IsEmpty(t) && HasColumn(t.columns, "Status")
    requires forall r :: r in t.rows ==>
      !(ContainsAny(NormalizeStatus(Cell(r, GetColumn(t.columns, "Status"))), DoneKeywords)
        && ContainsAny(NormalizeStatus(Cell(r, GetColumn(t.columns, "Status"))), ArchivedKeywords))
    ensures ExecutiveMetrics(t, today).completionRateTenths <= 1000
  {
    var statusCol := GetColumn(t.columns, "Status");
    var copy := MapColumn(t, statusCol, NormalizeStatus);
    var isDone := StatusMatches(statusCol, DoneKeywords);
    var isArchived := StatusMatches(statusCol, ArchivedKeywords);
    forall i | 0 <= i < |copy.rows| ensures !(isDone(copy.rows[i]) && isArchived(copy.rows[i])) {
      assert t.rows[i] in t.rows;
    }
    CountDisjoint(copy.rows, isDone, isArchived);
  }

  /** The buckets are not a partition: the status "done, archived" (the
      first done keyword and the first archived keyword) is both done and
      archived. */
  lemma OverlappingStatus()
    ensures var status := DoneKeywords[0] + ", " + ArchivedKeywords[0];
      && ContainsAny(NormalizeStatus(status), DoneKeywords)
      && ContainsAny(NormalizeStatus(status), ArchivedKeywords)
  {
    var done, archived := DoneKeywords[0], ArchivedKeywords[0];
    KeywordsLower(done, archived);
    JoinedIsNormal(done, ", ", archived);
    ContainsParts(done, ", ", archived);
    var status := done + ", " + archived;
    assert Contains(Lower(NormalizeStatus(status)), DoneKeywords[0]);
    assert Contains(Lower(NormalizeStatus(status)), ArchivedKeywords[0]);
  }

  lemma KeywordsLower(done: string, archived: string)
    requires done == DoneKeywords[0] && archived == ArchivedKeywords[0]
    ensures forall i :: 0 <= i < |done| ==> !IsUpper(done[i])
    ensures forall i :: 0 <= i < |archived| ==> !IsUpper(archived[i])
    ensures done != [] && archived != [] && !IsSpace(done[0]) && !IsSpace(archived[|archived| - 1])
  {
    assert done[0] == 'd' && archived[|archived| - 1] == 'd';
  }

  /** Two lower-case parts joined by ", " are already stripped and lower. */
  lemma JoinedIsNormal(a: string, sep: string, b: string)
    requires forall i :: 0 <= i < |a| ==> !IsUpper(a[i])
    requires forall i :: 0 <= i < |b| ==> !IsUpper(b[i])
    requires forall i :: 0 <= i < |sep| ==> !IsUpper(sep[i])
    requires a != [] && b != [] && !IsSpace(a[0]) && !IsSpace(b[|b| - 1])
    ensures Lower(NormalizeStatus(a + sep + b)) == a + sep + b
  {
    var s := a + sep + b;
    assert s[0] == a[0] && s[|s| - 1] == b[|b| - 1];
    StripOfStripped(s);
    forall i | 0 <= i < |s| ensures !IsUpper(s[i]) {
      if i < |a| {
        assert s[i] == a[i];
      } else if i < |a| + |sep| {
        assert s[i] == sep[i - |a|];
      } else {
        assert s[i] == b[i - |a| - |sep|];
      }
    }
    LowerFixed(s);
  }

  /** When every status is both done and archived, each of the two buckets
      counts every row and the rate is 200%. */
  lemma OverlapDoublesRate(t: Table, today: int)
    requires !IsEmpty(t) && HasColumn(t.columns, "Status")
    requires forall r :: r in t.rows ==>
      ContainsAny(NormalizeStatus(Cell(r, GetColumn(t.columns, "Status"))), DoneKeywords)
      && ContainsAny(NormalizeStatus(Cell(r, GetColumn(t.columns, "Status"))), ArchivedKeywords)
    ensures var m := ExecutiveMetrics(t, today);
      m.doneTasks == m.archivedTasks == m.totalTasks > 0 && m.completionRateTenths == 2000
  {
    var statusCol := GetColumn(t.columns, "Status");
    var copy := MapColumn(t, statusCol, NormalizeStatus);
    var isDone := StatusMatches(statusCol, DoneKeywords);
    var isArchived := StatusMatches(statusCol, ArchivedKeywords);
    forall i | 0 <= i < |copy.rows| ensures isDone(copy.rows[i]) && isArchived(copy.rows[i]) {
      assert t.rows[i] in t.rows;
    }
    CountAll(copy.rows, isDone);
    CountAll(copy.rows, isArchived);
  }
}
