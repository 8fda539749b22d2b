/** The numbers behind the dashboard's charts (charts.py): column alias
    resolution, the project health score and its colour bands, the donut's
    overall progress, the task-age split, the per-project and per-user task
    counts and the cycling bar palettes. The Plotly figures themselves are not
    modelled; each chart is reduced to the data it would draw, and "returns
    None" becomes `None`. */
module Charts {
  import opened Wrappers
  import opened Text
  import opened Tables
  import opened Dates

  /** The separator `get_column` expects between a header and a uniqueness
      suffix (`Status___2`); nothing in the dashboard produces such headers
      itself, so the convention is assumed of the sheet data. */
  const Separator := "___"

  /** `[col for col in df.columns if col.startswith(f"{name}___")]` */
  function MatchingColumns(columns: seq<string>, name: string): (r: seq<string>)
    ensures forall c :: c in r ==> c in columns && StartsWith(c, name + Separator)
  {
    if columns == [] then []
    else
      (if StartsWith(columns[0], name + Separator) then [columns[0]] else [])
      + MatchingColumns(columns[1..], name)
  }

  /** `get_column`: the header itself when present, else the first header
      carrying the name plus the suffix separator, else the bare name (which
      then fails when a cell is read). */
  function GetColumn(columns: seq<string>, name: string): (r: string)
    ensures name in columns ==> r == name
    ensures r == name || (r in columns && StartsWith(r, name + Separator))
  {
    if name in columns then name
    else
      var matching := MatchingColumns(columns, name);
      if matching != [] then matching[0] else name
  }

  /** `has_column`: holds exactly when `get_column` names a real header;
      when it fails, `get_column` gives back the name, which is not a
      header. */
  predicate HasColumn(columns: seq<string>, name: string): (b: bool)
    ensures b <==> GetColumn(columns, name) in columns
    ensures !b ==> GetColumn(columns, name) == name && name !in columns
  {
    GetColumnResolves(columns, name);
    name in columns || exists i :: 0 <= i < |columns| && StartsWith(columns[i], name + Separator)
  }

  /** The first suffixed header, in header order, is the first match. */
  lemma {:induction false} MatchingColumnsFirst(columns: seq<string>, name: string, i: nat)
    requires i < |columns| && StartsWith(columns[i], name + Separator)
    requires forall j :: 0 <= j < i ==> !StartsWith(columns[j], name + Separator)
    ensures MatchingColumns(columns, name) != []
    ensures MatchingColumns(columns, name)[0] == columns[i]
  {
    if i > 0 {
      MatchingColumnsFirst(columns[1..], name, i - 1);
    }
  }

  /** Without a suffixed header there is no match. */
  lemma {:induction false} MatchingColumnsNone(columns: seq<string>, name: string)
    requires forall j :: 0 <= j < |columns| ==> !StartsWith(columns[j], name + Separator)
    ensures MatchingColumns(columns, name) == []
  {
    if columns != [] {
      MatchingColumnsNone(columns[1..], name);
    }
  }

  /** An exact header wins. */
  lemma GetColumnExact(columns: seq<string>, name: string)
    requires name in columns
    ensures GetColumn(columns, name) == name
  {
  }

  /** Otherwise the first suffixed header, in header order, is used. */
  lemma GetColumnSuffixed(columns: seq<string>, name: string, i: nat)
    requires name !in columns
    requires i < |columns| && StartsWith(columns[i], name + Separator)
    requires forall j :: 0 <= j < i ==> !StartsWith(columns[j], name + Separator)
    ensures GetColumn(columns, name) == columns[i]
  {
    MatchingColumnsFirst(columns, name, i);
  }

  /** Otherwise the bare name comes back. */
  lemma GetColumnFallback(columns: seq<string>, name: string)
    requires name !in columns
    requires forall j :: 0 <= j < |columns| ==> !StartsWith(columns[j], name + Separator)
    ensures GetColumn(columns, name) == name
  {
    MatchingColumnsNone(columns, name);
  }

  /** `get_column` names a real header exactly when the header is present
      or some header carries the name plus the separator. */
  lemma GetColumnResolves(columns: seq<string>, name: string)
    ensures GetColumn(columns, name) in columns <==>
      name in columns || exists i :: 0 <= i < |columns| && StartsWith(columns[i], name + Separator)
  {
    if name !in columns {
      if i :| 0 <= i < |columns| && StartsWith(columns[i], name + Separator) {
        MatchingColumnsNonEmpty(columns, name, i);
      } else {
        MatchingColumnsNone(columns, name);
      }
    }
  }

  lemma {:induction false} MatchingColumnsNonEmpty(columns: seq<string>, name: string, i: nat)
    requires i < |columns| && StartsWith(columns[i], name + Separator)
    ensures MatchingColumns(columns, name) != []
  {
    if i > 0 && !StartsWith(columns[0], name + Separator) {
      MatchingColumnsNonEmpty(columns[1..], name, i - 1);
    }
  }

  // ---------------------------------------------------------------------
  // Project health dashboard

  /** One entry of `exec_metrics["tasks_by_project"]`. */
  datatype ProjectMetrics = ProjectMetrics(total: nat, complete: nat, inProgress: nat, open: nat)

  /** `int((complete + in_progress * 0.5) / total * 100)` when `total > 0`,
      else 0, computed exactly: the largest whole percentage not above the
      weighted completion. */
  function HealthScore(complete: nat, inProgress: nat, total: nat): (score: nat)
    ensures total == 0 ==> score == 0
    ensures total > 0 ==>
      score * 2 * total <= (2 * complete + inProgress) * 100 < (score + 1) * 2 * total
  {
    if total > 0 then (2 * complete + inProgress) * 100 / (2 * total) else 0
  }

  /** A project with no more complete and in-progress tasks than tasks in all
      scores between 0 and 100, and a fully complete project scores 100. */
  lemma HealthScoreBounded(complete: nat, inProgress: nat, total: nat)
    requires complete + inProgress <= total
    ensures HealthScore(complete, inProgress, total) <= 100
    ensures complete == total > 0 ==> HealthScore(complete, inProgress, total) == 100
  {
    if total > 0 {
      var d := 2 * total;
      DivMonotone((2 * complete + inProgress) * 100, 100 * d, d);
      DivExact(100, d);
    }
  }

  /** Completing a task never lowers the score. */
  lemma HealthScoreMonotone(complete: nat, inProgress: nat, total: nat)
    requires inProgress > 0
    ensures HealthScore(complete, inProgress, total) <= HealthScore(complete + 1, inProgress - 1, total)
  {
    if total > 0 {
      var a := (2 * complete + inProgress) * 100;
      var b := (2 * (complete + 1) + (inProgress - 1)) * 100;
      DivMonotone(a, b, 2 * total);
    }
  }

  lemma DivExact(q: nat, d: nat)
    requires d > 0
    ensures (q * d) / d == q
  {
    DivModUnique(q * d, d, q, 0);
  }

  lemma DivMonotone(a: nat, b: nat, d: nat)
    requires a <= b && d > 0
    ensures a / d <= b / d
  {
    var qa, qb := a / d, b / d;
    if qa > qb {
      MulMonotone(qb + 1, qa, d);
    }
  }

  lemma MulMonotone(x: nat, y: nat, d: nat)
    requires x <= y
    ensures x * d <= y * d
  {
  }

  /** Quotient and remainder are the only ones with `x == q * d + r`. */
  lemma DivModUnique(x: nat, d: nat, q: nat, r: nat)
    requires d > 0 && r < d && x == q * d + r
    ensures x / d == q && x % d == r
  {
    var q', r' := x / d, x % d;
    assert x == q' * d + r';
    if q' < q {
      MulMonotone(q' + 1, q, d);
    } else if q' > q {
      MulMonotone(q + 1, q', d);
    }
  }

  /** The three colours of the health bars. */
  datatype Band = Healthy | Warning | AtRisk {
    function Colour(): string {
      match this
      case Healthy => "#90b4b4"
      case Warning => "#6d9f9f"
      case AtRisk => "#4d8787"
    }
  }

  /** The colour band of a score: the three bands split the scores at 50 and
      75. */
  function HealthBand(score: int): (b: Band)
    ensures b == Healthy <==> score >= 75
    ensures b == Warning <==> 50 <= score < 75
    ensures b == AtRisk <==> score < 50
  {
    if score >= 75 then Healthy else if score >= 50 then Warning else AtRisk
  }

  /** One row of `project_data`. */
  datatype HealthRow = HealthRow(project: string, healthScore: nat, total: nat)

  /** The loop that builds `project_data`: one row per project, in the
      order the projects are given, each with its health score. */
  method ProjectHealthData(projects: seq<(string, ProjectMetrics)>) returns (data: seq<HealthRow>)
    ensures |data| == |projects|
    ensures forall i :: 0 <= i < |projects| ==>
      data[i].project == projects[i].0 && data[i].total == projects[i].1.total
      && data[i].healthScore == HealthScore(projects[i].1.complete, projects[i].1.inProgress, projects[i].1.total)
  {
    data := [];
    for i := 0 to |projects|
      invariant |data| == i
      invariant forall j :: 0 <= j < i ==>
        data[j].project == projects[j].0 && data[j].total == projects[j].1.total
        && data[j].healthScore == HealthScore(projects[j].1.complete, projects[j].1.inProgress, projects[j].1.total)
    {
      var (project, metrics) := projects[i];
      var score := HealthScore(metrics.complete, metrics.inProgress, metrics.total);
      data := data + [HealthRow(project, score, metrics.total)];
    }
  }

  /** The loop that builds `colors`: one band per score, in order. */
  method HealthColours(scores: seq<int>) returns (colours: seq<string>)
    ensures |colours| == |scores|
    ensures forall i :: 0 <= i < |scores| ==>
      (colours[i] == "#90b4b4" <==> scores[i] >= 75)
      && (colours[i] == "#6d9f9f" <==> 50 <= scores[i] < 75)
      && (colours[i] == "#4d8787" <==> scores[i] < 50)
  {
    colours := [];
    for i := 0 to |scores|
      invariant |colours| == i
      invariant forall j :: 0 <= j < i ==> colours[j] == HealthBand(scores[j]).Colour()
    {
      var score := scores[i];
      if score >= 75 {
        colours := colours + ["#90b4b4"];
      } else if score >= 50 {
        colours := colours + ["#6d9f9f"];
      } else {
        colours := colours + ["#4d8787"];
      }
    }
  }

  /** `create_project_health_dashboard` up to the figure: no projects gives
      `None`, otherwise the health rows and one bar colour per row. */
  method CreateProjectHealthDashboard(projects: seq<(string, ProjectMetrics)>)
    returns (r: Option<(seq<HealthRow>, seq<string>)>)
    ensures r.None? <==> projects == []
    ensures r.Some? ==> |r.value.0| == |r.value.1| == |projects|
    ensures r.Some? ==> forall i :: 0 <= i < |projects| ==>
      r.value.0[i].project == projects[i].0 && r.value.0[i].total == projects[i].1.total
      && r.value.0[i].healthScore == HealthScore(projects[i].1.complete, projects[i].1.inProgress, projects[i].1.total)
      && r.value.1[i] == HealthBand(r.value.0[i].healthScore).Colour()
  {
    var data := ProjectHealthData(projects);
    if data == [] {
      return None;
    }
    var scores := seq(|data|, i requires 0 <= i < |data| => data[i].healthScore as int);
    var colours := HealthColours(scores);
    return Some((data, colours));
  }

  // ---------------------------------------------------------------------
  // Team completion donut

  /** `overall_progress` of `create_team_completion_donut`: `None` when there
      are no tasks (no chart), otherwise the whole percentage of tasks started
      or done, truncated. */
  function OverallProgress(openTasks: nat, workingTasks: nat, doneTasks: nat): (r: Option<nat>)
    ensures r.None? <==> openTasks + workingTasks + doneTasks == 0
    ensures r.Some? ==> r.value <= 100
    ensures r.Some? ==>
      var total := openTasks + workingTasks + doneTasks;
      r.value * total <= (workingTasks + doneTasks) * 100 < (r.value + 1) * total
  {
    var total := openTasks + workingTasks + doneTasks;
    if total == 0 then None
    else
      var p := (workingTasks + doneTasks) * 100 / total;
      assert p <= 100 by {
        DivMonotone((workingTasks + doneTasks) * 100, total * 100, total);
      }
      Some(p)
  }

  // ---------------------------------------------------------------------
  // Task age analysis

  datatype AgeBuckets = AgeBuckets(week: nat, fortnight: nat, month: nat, older: nat)

  /** The placeholder age split of `create_task_age_analysis`: 40%, 30% and
      20% of the tasks (truncated), the rest in "30+ days"; `None` for an
      empty table. */
  function TaskAgeAnalysis(t: Table): (r: Option<AgeBuckets>)
    ensures r.None? <==> IsEmpty(t)
    ensures r.Some? ==> r.value.week + r.value.fortnight + r.value.month + r.value.older == |t.rows|
    ensures r.Some? ==> r.value.week * 10 <= 4 * |t.rows| < (r.value.week + 1) * 10
    ensures r.Some? ==> r.value.fortnight * 10 <= 3 * |t.rows| < (r.value.fortnight + 1) * 10
    ensures r.Some? ==> r.value.month * 10 <= 2 * |t.rows| < (r.value.month + 1) * 10
    ensures r.Some? ==> r.value.older * 10 >= |t.rows|
  {
    if IsEmpty(t) then None
    else
      var n := |t.rows|;
      var week, fortnight, month := n * 4 / 10, n * 3 / 10, n * 2 / 10;
      Some(AgeBuckets(week, fortnight, month, n - (week + fortnight + month)))
  }

  // ---------------------------------------------------------------------
  // Project breakdown

  /** The grouping key of a project cell: `str.lower().str.strip()`. */
  function ProjectKey(s: string): (k: string)
    ensures k == Lower(Strip(s))
  {
    StripLowerCommute(s);
    Strip(Lower(s))
  }

  /** Grouping ignores case and surrounding whitespace: a cell and its
      lower-cased or stripped form land in the same group, and a key is its
      own key. */
  lemma ProjectKeyInsensitive(s: string)
    ensures ProjectKey(Lower(s)) == ProjectKey(s)
    ensures ProjectKey(Strip(s)) == ProjectKey(s)
    ensures ProjectKey(ProjectKey(s)) == ProjectKey(s)
  {
    assert ProjectKey(Lower(s)) == ProjectKey(s) by {
      StripLowerCommute(s);
      LowerIdempotent(Strip(s));
    }
    assert ProjectKey(Strip(s)) == ProjectKey(s) by {
      StripIdempotent(s);
    }
    assert ProjectKey(ProjectKey(s)) == ProjectKey(s) by {
      NormalizeIdempotent(s);
    }
  }

  /** The grouping keys of a column, row by row. */
  function ProjectKeys(cells: seq<string>): (keys: seq<string>)
    ensures |keys| == |cells|
    ensures forall i :: 0 <= i < |cells| ==> keys[i] == ProjectKey(cells[i])
    ensures forall k :: k in keys ==> ProjectKey(k) == k
  {
    var keys := seq(|cells|, i requires 0 <= i < |cells| => ProjectKey(cells[i]));
    KeysAreNormal(cells, keys);
    keys
  }

  /** Each grouping key is its own key. */
  lemma KeysAreNormal(cells: seq<string>, keys: seq<string>)
    requires |keys| == |cells|
    requires forall i :: 0 <= i < |cells| ==> keys[i] == ProjectKey(cells[i])
    ensures forall k :: k in keys ==> ProjectKey(k) == k
  {
    forall k | k in keys ensures ProjectKey(k) == k {
      var i :| 0 <= i < |keys| && keys[i] == k;
      ProjectKeyInsensitive(cells[i]);
    }
  }

  /** `create_project_breakdown_chart` up to the figure: `None` for an empty
      table or one without a Project column, otherwise the task count of each
      grouping key. */
  function ProjectBreakdown(t: Table): (r: Option<map<string, nat>>)
    ensures r.None? <==> IsEmpty(t) || !HasColumn(t.columns, "Project")
    ensures r.Some? ==>
      forall i :: 0 <= i < |t.rows| ==>
        var k := ProjectKey(Cell(t.rows[i], GetColumn(t.columns, "Project")));
        k in r.value && r.value[k] >= 1
    ensures r.Some? ==> forall k :: k in r.value ==> ProjectKey(k) == k
    ensures r.Some? ==>
      var keys := ProjectKeys(Column(t, GetColumn(t.columns, "Project")));
      forall k :: (k in r.value <==> k in keys) && (k in r.value ==> r.value[k] == multiset(keys)[k])
  {
    if IsEmpty(t) || !HasColumn(t.columns, "Project") then None
    else
      var cells := Column(t, GetColumn(t.columns, "Project"));
      ProjectKeysCounted(cells);
      Some(ValueCounts(ProjectKeys(cells)))
  }

  lemma ProjectKeysCounted(cells: seq<string>)
    ensures forall i :: 0 <= i < |cells| ==>
      ProjectKey(cells[i]) in ValueCounts(ProjectKeys(cells))
      && ValueCounts(ProjectKeys(cells))[ProjectKey(cells[i])] >= 1
  {
    var keys := ProjectKeys(cells);
    forall i | 0 <= i < |cells|
      ensures ProjectKey(cells[i]) in ValueCounts(keys)
    {
      assert keys[i] in keys;
    }
  }

  /** The per-project counts add up to the number of rows, and two cells
      that differ only in case and surrounding whitespace are one project. */
  lemma ProjectBreakdownTotals(t: Table)
    requires ProjectBreakdown(t).Some?
    ensures SumValues(ProjectBreakdown(t).value) == |t.rows|
  {
    ValueCountsTotal(ProjectKeys(Column(t, GetColumn(t.columns, "Project"))));
  }

  /** The bar label of a project: `p.title()` of its grouping key. */
  function ProjectLabel(key: string): (shown: string)
    ensures |shown| == |key|
    ensures forall i :: 0 <= i < |key| && !IsLetter(key[i]) ==> shown[i] == key[i]
    ensures forall i :: 0 <= i < |key| && IsLetter(key[i]) ==>
      if i > 0 && IsLetter(key[i - 1]) then !IsUpper(shown[i]) else IsUpper(shown[i])
    ensures forall i :: 0 <= i < |key| ==> LowerChar(shown[i]) == LowerChar(key[i])
  {
    Title(key)
  }

  /** Two cells that group together get the same label. */
  lemma ProjectLabelAgrees(a: string, b: string)
    requires Lower(a) == Lower(b)
    ensures ProjectLabel(ProjectKey(a)) == ProjectLabel(ProjectKey(b))
  {
    StripLowerCommute(a);
    StripLowerCommute(b);
  }

  /** The palettes of the project and the user bar charts. */
  const SubduedColours: seq<string> := ["#8b9d9f", "#a8b89f", "#9ba8a3", "#b5b8a8", "#98a89b", "#a5b0a6"]
  const UserColours: seq<string> := ["#2B2B2B", "#474747", "#918C86", "#E5E4E2", "#474747", "#918C86"]

  /** `[palette[i % len(palette)] for i in range(n)]`: one colour per bar,
      always taken from the palette, repeating with the palette's period. */
  function CycleColours(palette: seq<string>, n: nat): (colours: seq<string>)
    requires palette != []
    ensures |colours| == n
    ensures forall i :: 0 <= i < n ==> colours[i] == Pick(palette, i) && colours[i] in palette
  {
    seq(n, i requires 0 <= i < n => Pick(palette, i))
  }

  /** `palette[i % len(palette)]` */
  function Pick(palette: seq<string>, i: nat): (c: string)
    requires palette != []
    ensures c in palette
  {
    palette[i % |palette|]
  }

  /** The first bars take the palette in order, and every later bar repeats
      the colour one palette-length before it. */
  lemma CycleColoursPeriodic(palette: seq<string>, n: nat)
    requires palette != []
    ensures var colours := CycleColours(palette, n);
      && (forall i :: 0 <= i < |palette| && i < n ==> colours[i] == palette[i])
      && (forall i :: 0 <= i && i + |palette| < n ==> colours[i + |palette|] == colours[i])
  {
    var colours := CycleColours(palette, n);
    forall i | 0 <= i < |palette| && i < n ensures colours[i] == palette[i] {
      PickFirst(palette, i);
    }
    forall i | 0 <= i && i + |palette| < n ensures colours[i + |palette|] == colours[i] {
      PickShift(palette, i);
    }
  }

  /** The project chart cycles six different colours, so projects fewer
      than six bars apart never share a colour. */
  lemma ProjectBarColoursDistinct(n: nat, i: nat, j: nat)
    requires i < j < n && j - i < |SubduedColours|
    ensures CycleColours(SubduedColours, n)[i] != CycleColours(SubduedColours, n)[j]
  {
    var p := |SubduedColours|;
    assert i == p * (i / p) + i % p && j == p * (j / p) + j % p;
  }

  /** The user chart's palette lists two colours twice, so the second and
      fifth users' bars share a colour, as do the third and sixth. */
  lemma UserBarColoursRepeat(n: nat)
    requires n >= 6
    ensures CycleColours(UserColours, n)[1] == CycleColours(UserColours, n)[4]
    ensures CycleColours(UserColours, n)[2] == CycleColours(UserColours, n)[5]
  {
    PickFirst(UserColours, 1);
    PickFirst(UserColours, 4);
    PickFirst(UserColours, 2);
    PickFirst(UserColours, 5);
  }

  lemma PickFirst(palette: seq<string>, i: nat)
    requires i < |palette|
    ensures Pick(palette, i) == palette[i]
  {
    DivModUnique(i, |palette|, 0, i);
  }

  lemma PickShift(palette: seq<string>, i: nat)
    requires palette != []
    ensures Pick(palette, i + |palette|) == Pick(palette, i)
  {
    ModShift(i, |palette|);
  }

  lemma ModShift(i: nat, p: nat)
    requires p > 0
    ensures (i + p) % p == i % p
  {
    var q, r := i / p, i % p;
    DivModUnique(i + p, p, q + 1, r);
  }

  // ---------------------------------------------------------------------
  // Tasks by user

  /** The assignee column: "Assigned To", then "Person", then "assignee",
      the first that resolves; `None` when none does. */
  function AssigneeColumn(columns: seq<string>): (r: Option<string>)
    ensures r.None? <==>
      !HasColumn(columns, "Assigned To") && !HasColumn(columns, "Person") && !HasColumn(columns, "assignee")
    ensures r.Some? ==> r.value in columns
    ensures HasColumn(columns, "Assigned To") ==> r == Some(GetColumn(columns, "Assigned To"))
    ensures !HasColumn(columns, "Assigned To") && HasColumn(columns, "Person") ==>
      r == Some(GetColumn(columns, "Person"))
    ensures !HasColumn(columns, "Assigned To") && !HasColumn(columns, "Person") && HasColumn(columns, "assignee") ==>
      r == Some(GetColumn(columns, "assignee"))
  {
    if HasColumn(columns, "Assigned To") then Some(GetColumn(columns, "Assigned To"))
    else if HasColumn(columns, "Person") then Some(GetColumn(columns, "Person"))
    else if HasColumn(columns, "assignee") then Some(GetColumn(columns, "assignee"))
    else None
  }

  /** `create_tasks_by_user_chart` up to the figure: `None` for an empty
      table or one without an assignee column, otherwise the number of tasks
      of each stripped assignee name, adding up to the number of rows. */
  function TasksByUser(t: Table): (r: Option<map<string, nat>>)
    ensures r.None? <==> IsEmpty(t) || AssigneeColumn(t.columns).None?
    ensures r.Some? ==>
      forall i :: 0 <= i < |t.rows| ==>
        Strip(Cell(t.rows[i], AssigneeColumn(t.columns).value)) in r.value
    ensures r.Some? ==> forall u :: u in r.value ==> Strip(u) == u
    ensures r.Some? ==>
      var names := UserNames(Column(t, AssigneeColumn(t.columns).value));
      forall u :: (u in r.value <==> u in names) && (u in r.value ==> r.value[u] == multiset(names)[u])
  {
    if IsEmpty(t) then None
    else
      match AssigneeColumn(t.columns)
      case None => None
      case Some(c) =>
        var cells := Column(t, c);
        Some(ValueCounts(UserNames(cells)))
  }

  /** `df[col].str.strip()` */
  function UserNames(cells: seq<string>): (names: seq<string>)
    ensures |names| == |cells|
    ensures forall i :: 0 <= i < |cells| ==> names[i] == Strip(cells[i])
    ensures forall u :: u in names ==> Strip(u) == u
  {
    var names := seq(|cells|, i requires 0 <= i < |cells| => Strip(cells[i]));
    NamesAreStripped(cells, names);
    names
  }

  /** Each stripped name is its own stripped form. */
  lemma NamesAreStripped(cells: seq<string>, names: seq<string>)
    requires |names| == |cells|
    requires forall i :: 0 <= i < |cells| ==> names[i] == Strip(cells[i])
    ensures forall u :: u in names ==> Strip(u) == u
  {
    forall u | u in names ensures Strip(u) == u {
      var i :| 0 <= i < |names| && names[i] == u;
      StripIdempotent(cells[i]);
    }
  }

  /** The per-user counts add up to the number of rows. */
  lemma TasksByUserTotals(t: Table)
    requires TasksByUser(t).Some?
    ensures SumValues(TasksByUser(t).value) == |t.rows|
  {
    ValueCountsTotal(UserNames(Column(t, AssigneeColumn(t.columns).value)));
  }
}
