/** The demo-data transformer (demo_data_transformer.py): the fixed pools of
    fake names, tasks, projects and statuses, the generators that draw from
    them, and `transform_to_demo_data`, which overwrites the sensitive columns
    of a copy of the task table. Python's `random` module is replaced by its
    outcomes, supplied as parameters: the number each `randint` returned, the
    index each `choice` picked, and the position each step of each `shuffle`
    swapped with. */
module DemoData {
  import opened Wrappers
  import opened Text
  import opened Dates
  import opened Tables

  // ---------------------------------------------------------------------
  // The pools

  const FakeNames: seq<string> := ["Addison", "Mark", "Peter", "Emily", "Sarah"]

  /** Task `k` of the Investor Prep block of the task pool. */
  function InvestorPrepTask(k: nat): string
    requires k < 12
  {
    [
      "Prepare investor deck presentation",
      "Review financial projections and models",
      "Schedule investor pitch meetings",
      "Draft executive summary for investors",
      "Compile competitive market analysis",
      "Create valuation documentation",
      "Prepare board meeting materials",
      "Update cap table and ownership structure",
      "Review partnership agreements",
      "Develop investor FAQ document",
      "Prepare quarterly investor report",
      "Research potential investor leads"
    ][k]
  }

  /** Task `k` of the Website Redesign block of the task pool. */
  function WebsiteRedesignTask(k: nat): string
    requires k < 12
  {
    [
      "Design new landing page mockups",
      "Audit current SEO performance",
      "Analyze website analytics and metrics",
      "Create wireframes for homepage",
      "Conduct user testing sessions",
      "Update brand guidelines for web",
      "Optimize mobile responsiveness",
      "Design email newsletter templates",
      "Create help center article templates",
      "Update site navigation structure",
      "Review accessibility compliance",
      "Develop content style guide"
    ][k]
  }

  /** Task `k` of the Internal Systems block of the task pool. */
  function InternalSystemsTask(k: nat): string
    requires k < 12
  {
    [
      "Update CRM database configuration",
      "Review security protocols and access",
      "Audit internal tool licenses",
      "Update employee handbook policies",
      "Review legal compliance checklist",
      "Configure automated reporting systems",
      "Update project management workflows",
      "Implement new communication tools",
      "Review data backup procedures",
      "Update IT infrastructure documentation",
      "Configure team collaboration spaces",
      "Streamline approval processes"
    ][k]
  }

  /** Task `k` of the Marketing block of the task pool. */
  function MarketingTask(k: nat): string
    requires k < 12
  {
    [
      "Create social media content calendar",
      "Review Q1 marketing campaign results",
      "Optimize email marketing workflows",
      "Develop sales enablement materials",
      "Draft press release announcements",
      "Plan virtual conference presence",
      "Create case study content",
      "Plan webinar series schedule",
      "Analyze conversion funnel performance",
      "Design referral program structure",
      "Develop retention campaign strategy",
      "Conduct competitor pricing analysis"
    ][k]
  }

  /** Task `k` of the Product Launch 2025 block of the task pool. */
  function ProductLaunchTask(k: nat): string
    requires k < 12
  {
    [
      "Develop product roadmap Q2-Q3",
      "Update product documentation",
      "Create product launch timeline",
      "Plan product launch event details",
      "Update customer onboarding flow",
      "Conduct stakeholder interviews",
      "Analyze customer feedback data",
      "Create video tutorial scripts",
      "Update API documentation",
      "Design customer survey questions",
      "Prepare product demo materials",
      "Update pricing strategy for launch"
    ][k]
  }

  /** Entry `k` of the task pool: twelve tasks for each of the five fake
      projects, in project order. */
  function FakeTask(k: nat): string
    requires k < 60
  {
    if k < 12 then InvestorPrepTask(k)
    else if k < 24 then WebsiteRedesignTask(k - 12)
    else if k < 36 then InternalSystemsTask(k - 24)
    else if k < 48 then MarketingTask(k - 36)
    else ProductLaunchTask(k - 48)
  }

  /** The task pool, `FAKE_TASKS`. */
  const FakeTasks: seq<string> := seq(60, k requires 0 <= k < 60 => FakeTask(k))

  // The sixty tasks are pairwise different: within each block of twelve,
  // and across every pair of blocks.

  lemma InvestorPrepDistinct()
    ensures forall i, j :: 0 <= i < j < 12 ==> InvestorPrepTask(i) != InvestorPrepTask(j)
  {
  }

  lemma WebsiteRedesignDistinct()
    ensures forall i, j :: 0 <= i < j < 12 ==> WebsiteRedesignTask(i) != WebsiteRedesignTask(j)
  {
  }

  lemma InternalSystemsDistinct()
    ensures forall i, j :: 0 <= i < j < 12 ==> InternalSystemsTask(i) != InternalSystemsTask(j)
  {
  }

  lemma MarketingDistinct()
    ensures forall i, j :: 0 <= i < j < 12 ==> MarketingTask(i) != MarketingTask(j)
  {
  }

  lemma ProductLaunchDistinct()
    ensures forall i, j :: 0 <= i < j < 12 ==> ProductLaunchTask(i) != ProductLaunchTask(j)
  {
  }

  lemma InvestorPrepApartWebsiteRedesign()
    ensures forall i, j :: 0 <= i < 12 && 0 <= j < 12 ==> InvestorPrepTask(i) != WebsiteRedesignTask(j)
  {
  }

  lemma InvestorPrepApartInternalSystems()
    ensures forall i, j :: 0 <= i < 12 && 0 <= j < 12 ==> InvestorPrepTask(i) != InternalSystemsTask(j)
  {
  }

  lemma InvestorPrepApartMarketing()
    ensures forall i, j :: 0 <= i < 12 && 0 <= j < 12 ==> InvestorPrepTask(i) != MarketingTask(j)
  {
  }

  lemma InvestorPrepApartProductLaunch()
    ensures forall i, j :: 0 <= i < 12 && 0 <= j < 12 ==> InvestorPrepTask(i) != ProductLaunchTask(j)
  {
  }

  lemma WebsiteRedesignApartInternalSystems()
    ensures forall i, j :: 0 <= i < 12 && 0 <= j < 12 ==> WebsiteRedesignTask(i) != InternalSystemsTask(j)
  {
  }

  lemma WebsiteRedesignApartMarketing()
    ensures forall i, j :: 0 <= i < 12 && 0 <= j < 12 ==> WebsiteRedesignTask(i) != MarketingTask(j)
  {
  }

  lemma WebsiteRedesignApartProductLaunch()
    ensures forall i, j :: 0 <= i < 12 && 0 <= j < 12 ==> WebsiteRedesignTask(i) != ProductLaunchTask(j)
  {
  }

  lemma InternalSystemsApartMarketing()
    ensures forall i, j :: 0 <= i < 12 && 0 <= j < 12 ==> InternalSystemsTask(i) != MarketingTask(j)
  {
  }

  lemma InternalSystemsApartProductLaunch()
    ensures forall i, j :: 0 <= i < 12 && 0 <= j < 12 ==> InternalSystemsTask(i) != ProductLaunchTask(j)
  {
  }

  lemma MarketingApartProductLaunch()
    ensures forall i, j :: 0 <= i < 12 && 0 <= j < 12 ==> MarketingTask(i) != ProductLaunchTask(j)
  {
  }

  /** Two entries of the pool at different positions differ. */
  lemma TasksDiffer(i: nat, j: nat)
    requires i < j < 60
    ensures FakeTask(i) != FakeTask(j)
  {
    if i < 12 && j < 12 {
      InvestorPrepDistinct();
    } else if i < 12 && j < 24 {
      InvestorPrepApartWebsiteRedesign();
    } else if i < 12 && j < 36 {
      InvestorPrepApartInternalSystems();
    } else if i < 12 && j < 48 {
      InvestorPrepApartMarketing();
    } else if i < 12 && j < 60 {
      InvestorPrepApartProductLaunch();
    } else if i < 24 && j < 24 {
      WebsiteRedesignDistinct();
    } else if i < 24 && j < 36 {
      WebsiteRedesignApartInternalSystems();
    } else if i < 24 && j < 48 {
      WebsiteRedesignApartMarketing();
    } else if i < 24 && j < 60 {
      WebsiteRedesignApartProductLaunch();
    } else if i < 36 && j < 36 {
      InternalSystemsDistinct();
    } else if i < 36 && j < 48 {
      InternalSystemsApartMarketing();
    } else if i < 36 && j < 60 {
      InternalSystemsApartProductLaunch();
    } else if i < 48 && j < 48 {
      MarketingDistinct();
    } else if i < 48 && j < 60 {
      MarketingApartProductLaunch();
    } else {
      ProductLaunchDistinct();
    }
  }

  /** No task occurs twice in the pool. */
  lemma PoolNoRepeats()
    ensures NoRepeats(FakeTasks)
  {
    forall i, j | 0 <= i < j < |FakeTasks|
      ensures FakeTasks[i] != FakeTasks[j]
    {
      TasksDiffer(i, j);
    }
  }

  const FakeProjects: seq<string> :=
    ["Investor Prep", "Website Redesign", "Internal Systems", "Marketing", "Product Launch 2025"]

  const StatusOptions: seq<string> := ["Open", "Working", "Done", "Archived"]

  // ---------------------------------------------------------------------
  // Generators

  /** `generate_demo_transcript_id`: `str(random.randint(10000, 999999))`,
      where `draw` is the number `randint` returned. The text has five or six
      digits, no leading zero, and reads back as the number drawn. */
  function TranscriptId(draw: nat): (id: string)
    requires 10000 <= draw <= 999999
    ensures 5 <= |id| <= 6 && AllDigits(id) && id[0] != '0'
    ensures DigitsValue(id) == draw
  {
    NatToStringLength(draw, 6, Pow10(6));
    NatToStringMinLength(draw, 5, Pow10(4));
    NatToStringValue(draw);
    NatToString(draw)
  }

  /** `random.choice(pool)`, where `draw` is the index the generator picked
      (`get_random_name`, `get_random_task`, `get_random_project`,
      `get_random_status`). */
  function Choice(pool: seq<string>, draw: nat): (x: string)
    requires draw < |pool|
    ensures x in pool
  {
    pool[draw]
  }

  /** `(datetime(2025, 12, 31) - datetime(2025, 1, 1)).days` */
  function DaysBetween2025(): (days: int)
    ensures days == DaysInYear(2025) - 1
  {
    Ordinal(Date(2025, 12, 31)) - Ordinal(Date(2025, 1, 1))
  }

  /** `get_random_date_2025`: the first of January 2025 plus `offset` days,
      `offset` being what `random.randint(0, days_between)` returned, written
      as `%Y-%m-%d`. The text parses back to a date of 2025 that lies
      `offset` days after New Year. */
  function RandomDate2025(offset: nat): (s: string)
    requires offset <= DaysBetween2025()
    ensures |s| == 10
    ensures ParseIso(s).Some? && ParseIso(s).value.year == 2025
    ensures Ordinal(ParseIso(s).value) == Ordinal(Date(2025, 1, 1)) + offset
  {
    var d := DateInYear(2025, offset);
    FormatIsoRoundTrip(d);
    FormatIso(d)
  }

  /** Different draws give different dates. */
  lemma RandomDatesDistinct(a: nat, b: nat)
    requires a <= DaysBetween2025() && b <= DaysBetween2025() && a != b
    ensures RandomDate2025(a) != RandomDate2025(b)
  { }

  // ---------------------------------------------------------------------
  // random.shuffle

  /** Draws for one `random.shuffle` of a list of length `m`: CPython's
      shuffle visits positions `m - 1` down to 1 and swaps position `i` with
      position `d[i]`, where `0 <= d[i] <= i` (`randbelow(i + 1)`); `d[0]`
      is never used. */
  predicate ShuffleDraws(d: seq<nat>, m: nat) {
    |d| == m && forall i :: 0 <= i < m ==> d[i] <= i
  }

  /** `random.shuffle(a)`: the list is permuted in place. */
  method Shuffle<T>(a: array<T>, d: seq<nat>)
    requires ShuffleDraws(d, a.Length)
    modifies a
    ensures multiset(a[..]) == multiset(old(a[..]))
  {
    var i := a.Length;
    while i > 1
      invariant 0 <= i <= a.Length
      invariant multiset(a[..]) == multiset(old(a[..]))
      decreases i
    {
      var j := d[i - 1];
      ghost var before := a[..];
      a[i - 1], a[j] := a[j], a[i - 1];
      assert a[..] == before[i - 1 := before[j]][j := before[i - 1]];
      i := i - 1;
    }
  }

  // ---------------------------------------------------------------------
  // The Task column
  //
  // The task pool is a parameter `pool` of sixty tasks; the transformer
  // passes `FakeTasks`.

  /** Passes of the refill loop for `n` rows: the least `k` with
      `k * 60 >= n`. */
  function Passes(n: nat): (k: nat)
    ensures k * 60 >= n && (k == 0 || (k - 1) * 60 < n)
  {
    (n + 59) / 60
  }

  /** Shuffles the Task column consumes: one before the length test, then one
      per pass of the refill loop. */
  function ShuffleCount(n: nat): nat {
    if n <= 60 then 1 else 1 + Passes(n)
  }

  predicate TaskDraws(d: seq<seq<nat>>, n: nat) {
    |d| == ShuffleCount(n) && forall k :: 0 <= k < |d| ==> ShuffleDraws(d[k], 60)
  }

  /** Rows `c * 60` up to `c * 60 + 60` of a column (fewer at the end): the
      rows one pass over the pool fills. */
  function Cycle<T>(tasks: seq<T>, c: nat): (rows: seq<T>)
    ensures |rows| <= 60
  {
    var lo := if c * 60 <= |tasks| then c * 60 else |tasks|;
    var hi := if lo + 60 <= |tasks| then lo + 60 else |tasks|;
    tasks[lo..hi]
  }

  /** What "ensure unique tasks" comes to for a Task column: every task is
      from the pool; within the rows one pass fills, no task occurs more
      often than it does in the pool; and a pass filled completely holds the
      pool's tasks exactly as often as the pool does. */
  ghost predicate UniquePerPass<T>(tasks: seq<T>, pool: seq<T>) {
    && (forall i :: 0 <= i < |tasks| ==> tasks[i] in pool)
    && (forall c: nat :: multiset(Cycle(tasks, c)) <= multiset(pool))
    && (forall c: nat :: (c + 1) * 60 <= |tasks| ==> multiset(Cycle(tasks, c)) == multiset(pool))
  }

  lemma PrefixSubMultiset<T>(s: seq<T>, k: nat)
    requires k <= |s|
    ensures multiset(s[..k]) <= multiset(s)
  {
    assert s == s[..k] + s[k..];
  }

  /** Appending a full pass leaves the earlier passes alone and becomes the
      next one. */
  lemma CycleOfAppend<T>(all: seq<T>, p: seq<T>, k: nat, c: nat)
    requires |all| == k * 60 && |p| == 60
    ensures c < k ==> Cycle(all + p, c) == Cycle(all, c)
    ensures c == k ==> Cycle(all + p, c) == p
    ensures c > k ==> Cycle(all + p, c) == []
  {
    if c < k {
      assert (all + p)[c * 60..c * 60 + 60] == all[c * 60..c * 60 + 60];
    } else if c == k {
      assert (all + p)[c * 60..c * 60 + 60] == p;
    }
  }

  lemma SliceOfPrefix<T>(s: seq<T>, n: nat, lo: nat, hi: nat, top: nat)
    requires lo <= hi <= n <= |s| && hi <= top <= |s|
    ensures s[..n][lo..hi] == s[lo..top][..hi - lo]
  {
  }

  /** Cutting a column to `n` rows cuts each pass to a prefix of itself, and
      keeps the passes that end by row `n` whole. */
  lemma CycleOfPrefix<T>(all: seq<T>, n: nat, c: nat)
    requires n <= |all|
    ensures multiset(Cycle(all[..n], c)) <= multiset(Cycle(all, c))
    ensures (c + 1) * 60 <= n ==> Cycle(all[..n], c) == Cycle(all, c)
  {
    var lo := if c * 60 <= n then c * 60 else n;
    var hi := if lo + 60 <= n then lo + 60 else n;
    var full := Cycle(all, c);
    if c * 60 <= n {
      var top := if lo + 60 <= |all| then lo + 60 else |all|;
      SliceOfPrefix(all, n, lo, hi, top);
      PrefixSubMultiset(full, hi - lo);
    } else {
      assert Cycle(all[..n], c) == [];
    }
  }

  /** With the whole column inside one pass (no more rows than tasks), no
      task occurs more often than it does in the pool. */
  lemma ShortColumn<T>(tasks: seq<T>, pool: seq<T>)
    requires UniquePerPass(tasks, pool) && |tasks| <= 60
    ensures multiset(tasks) <= multiset(pool)
  {
    assert Cycle(tasks, 0) == tasks;
  }

  /** No element occurs twice. */
  ghost predicate NoRepeats<T>(s: seq<T>) {
    forall i, j :: 0 <= i < j < |s| ==> s[i] != s[j]
  }

  lemma {:induction false} NoRepeatsCount<T>(s: seq<T>, x: T)
    requires NoRepeats(s)
    ensures multiset(s)[x] <= 1
  {
    if s != [] {
      var init := s[..|s| - 1];
      assert s == init + [s[|s| - 1]];
      NoRepeatsCount(init, x);
      if x == s[|s| - 1] {
        assert x !in init;
      }
    }
  }

  lemma RepeatCount<T>(s: seq<T>, i: nat, j: nat)
    requires i < j < |s| && s[i] == s[j]
    ensures multiset(s)[s[i]] >= 2
  {
    assert s == s[..j] + [s[j]] + s[j + 1..];
    assert s[i] in s[..j];
  }

  /** A pool without repeats gives rows of one pass distinct tasks. */
  lemma PassHasNoRepeats<T>(tasks: seq<T>, pool: seq<T>, c: nat)
    requires UniquePerPass(tasks, pool) && NoRepeats(pool)
    ensures NoRepeats(Cycle(tasks, c))
  {
    var rows := Cycle(tasks, c);
    forall i, j | 0 <= i < j < |rows|
      ensures rows[i] != rows[j]
    {
      if rows[i] == rows[j] {
        RepeatCount(rows, i, j);
        NoRepeatsCount(pool, rows[i]);
        assert false;
      }
    }
  }

  /** With no more rows than pooled tasks and a pool without repeats, the
      Task column holds distinct tasks. */
  lemma ShortColumnNoRepeats<T>(tasks: seq<T>, pool: seq<T>)
    requires UniquePerPass(tasks, pool) && NoRepeats(pool) && |tasks| <= 60
    ensures NoRepeats(tasks)
  {
    PassHasNoRepeats(tasks, pool, 0);
    assert Cycle(tasks, 0) == tasks;
  }

  lemma InPermutation<T>(p: seq<T>, pool: seq<T>, x: T)
    requires multiset(p) == multiset(pool) && x in p
    ensures x in pool
  {
    assert x in multiset(p);
  }

  /** A column cut from one shuffled copy of the pool keeps the promise. */
  lemma OnePass<T>(tasks: seq<T>, p: seq<T>, pool: seq<T>)
    requires |p| == 60 && multiset(p) == multiset(pool)
    requires |tasks| <= 60 && tasks == p[..|tasks|]
    ensures UniquePerPass(tasks, pool)
  {
    forall i | 0 <= i < |tasks| ensures tasks[i] in pool {
      InPermutation(p, pool, tasks[i]);
    }
    PrefixSubMultiset(p, |tasks|);
    assert Cycle(tasks, 0) == tasks;
    if |tasks| == 60 {
      assert tasks == p;
    }
    forall c: nat | c > 0 ensures Cycle(tasks, c) == [] { }
  }

  /** A column cut from whole shuffled copies of the pool, laid one after
      another, keeps the promise. */
  lemma ManyPasses<T>(all: seq<T>, n: nat, pool: seq<T>)
    requires n <= |all| && |pool| == 60
    requires forall c: nat :: multiset(Cycle(all, c)) <= multiset(pool)
    requires forall c: nat :: c * 60 < |all| ==> multiset(Cycle(all, c)) == multiset(pool)
    ensures UniquePerPass(all[..n], pool)
  {
    var tasks := all[..n];
    forall c: nat
      ensures multiset(Cycle(tasks, c)) <= multiset(pool)
      ensures (c + 1) * 60 <= n ==> multiset(Cycle(tasks, c)) == multiset(pool)
    {
      CycleOfPrefix(all, n, c);
    }
    forall i | 0 <= i < n ensures tasks[i] in pool {
      var c := i / 60;
      assert tasks[i] in Cycle(tasks, c);
      assert tasks[i] in multiset(Cycle(tasks, c));
    }
  }

  /** The Task column of an `n`-row table, as the source fills it: the pool
      copy is shuffled in place; it is cut to `n` rows when it is long
      enough, and otherwise reshuffled and appended pass after pass until it
      covers every row, then cut. */
  method AssignTasks<T>(pool: seq<T>, n: nat, d: seq<seq<nat>>) returns (tasks: seq<T>)
    requires |pool| == 60 && TaskDraws(d, n)
    ensures |tasks| == n && UniquePerPass(tasks, pool)
  {
    var shuffled := new T[|pool|](i requires 0 <= i < |pool| => pool[i]);
    assert shuffled[..] == pool;
    Shuffle(shuffled, d[0]);
    if n <= |pool| {
      tasks := shuffled[..n];
      OnePass(tasks, shuffled[..], pool);
    } else {
      var all: seq<T> := [];
      var k := 0;
      while |all| < n
        invariant k <= Passes(n) && |all| == k * 60
        invariant multiset(shuffled[..]) == multiset(pool)
        invariant forall c: nat :: c < k ==> multiset(Cycle(all, c)) == multiset(pool)
        invariant forall c: nat :: c >= k ==> Cycle(all, c) == []
        decreases n - |all|
      {
        Shuffle(shuffled, d[k + 1]);
        forall c: nat
          ensures c < k + 1 ==> multiset(Cycle(all + shuffled[..], c)) == multiset(pool)
          ensures c >= k + 1 ==> Cycle(all + shuffled[..], c) == []
        {
          CycleOfAppend(all, shuffled[..], k, c);
        }
        all := all + shuffled[..];
        k := k + 1;
      }
      ManyPasses(all, n, pool);
      tasks := all[..n];
    }
  }

  // ---------------------------------------------------------------------
  // transform_to_demo_data

  const IdHeader := "Transcript ID"
  const PersonHeader := "Person"
  const TaskHeader := "Task"
  const ProjectHeader := "Project"
  const StatusHeader := "Status"
  const DateHeader := "Date Assigned"

  /** The columns the transformer overwrites. */
  const DemoHeaders: set<string> :=
    {IdHeader, PersonHeader, TaskHeader, ProjectHeader, StatusHeader, DateHeader}

  /** What the generator returns while one table is transformed, column by
      column: a `randint` per row for the ids, a `choice` per row for names,
      projects and statuses, a `randint` offset per row for the dates, and the
      draws of each `shuffle` of the task pool. */
  datatype Draws = Draws(
    ids: seq<nat>, names: seq<nat>, shuffles: seq<seq<nat>>,
    projects: seq<nat>, statuses: seq<nat>, days: seq<nat>)

  /** Draws that Python's generator can produce for an `n`-row table: every
      number lies in the range its call asks for. */
  predicate DrawsFor(r: Draws, n: nat) {
    && |r.ids| == n && (forall i :: 0 <= i < n ==> 10000 <= r.ids[i] <= 999999)
    && |r.names| == n && (forall i :: 0 <= i < n ==> r.names[i] < |FakeNames|)
    && TaskDraws(r.shuffles, n)
    && |r.projects| == n && (forall i :: 0 <= i < n ==> r.projects[i] < |FakeProjects|)
    && |r.statuses| == n && (forall i :: 0 <= i < n ==> r.statuses[i] < |StatusOptions|)
    && |r.days| == n && (forall i :: 0 <= i < n ==> r.days[i] <= DaysBetween2025())
  }

  /** `[generate_demo_transcript_id(i) for i in range(len(demo_df))]` */
  function TranscriptIds(draws: seq<nat>): (ids: seq<string>)
    requires forall i :: 0 <= i < |draws| ==> 10000 <= draws[i] <= 999999
    ensures |ids| == |draws|
    ensures forall i :: 0 <= i < |ids| ==> 5 <= |ids[i]| <= 6 && AllDigits(ids[i]) && DigitsValue(ids[i]) == draws[i]
  {
    seq(|draws|, i requires 0 <= i < |draws| => TranscriptId(draws[i]))
  }

  /** `[random.choice(pool) for _ in range(len(demo_df))]` */
  function Choices(pool: seq<string>, draws: seq<nat>): (xs: seq<string>)
    requires forall i :: 0 <= i < |draws| ==> draws[i] < |pool|
    ensures |xs| == |draws|
    ensures forall i :: 0 <= i < |xs| ==> xs[i] in pool
  {
    seq(|draws|, i requires 0 <= i < |draws| => Choice(pool, draws[i]))
  }

  /** `[get_random_date_2025() for _ in range(len(demo_df))]` */
  function RandomDates(draws: seq<nat>): (dates: seq<string>)
    requires forall i :: 0 <= i < |draws| ==> draws[i] <= DaysBetween2025()
    ensures |dates| == |draws|
    ensures forall i :: 0 <= i < |dates| ==>
      ParseIso(dates[i]).Some? && ParseIso(dates[i]).value.year == 2025
  {
    seq(|draws|, i requires 0 <= i < |draws| => RandomDate2025(draws[i]))
  }

  /** The generated values of the five columns whose values do not depend
      on one another; the Task column is drawn separately. */
  datatype FakeColumns = FakeColumns(
    ids: seq<string>, persons: seq<string>, projects: seq<string>,
    statuses: seq<string>, dates: seq<string>)

  predicate Fits(v: FakeColumns, n: nat) {
    |v.ids| == n && |v.persons| == n && |v.projects| == n && |v.statuses| == n && |v.dates| == n
  }

  /** The five generated columns of an `n`-row table under the draws `r`. */
  function Generated(r: Draws, n: nat): (v: FakeColumns)
    requires DrawsFor(r, n)
    ensures Fits(v, n)
    ensures forall i :: 0 <= i < n ==>
      && 5 <= |v.ids[i]| <= 6 && AllDigits(v.ids[i])
      && v.persons[i] in FakeNames && v.projects[i] in FakeProjects
      && v.statuses[i] in StatusOptions
      && ParseIso(v.dates[i]).Some? && ParseIso(v.dates[i]).value.year == 2025
  {
    FakeColumns(TranscriptIds(r.ids), Choices(FakeNames, r.names),
      Choices(FakeProjects, r.projects), Choices(StatusOptions, r.statuses),
      RandomDates(r.days))
  }

  /** `u` is `t` with each of the five columns that `t` has set to the
      values in `v`; the headers, the row count and every cell outside the
      six sensitive columns (or outside `t`'s columns) stay as they were. */
  ghost predicate WritesOf(t: Table, u: Table, v: FakeColumns) {
    && u.columns == t.columns && |u.rows| == |t.rows|
    && (IdHeader in t.columns ==> Column(u, IdHeader) == v.ids)
    && (PersonHeader in t.columns ==> Column(u, PersonHeader) == v.persons)
    && (ProjectHeader in t.columns ==> Column(u, ProjectHeader) == v.projects)
    && (StatusHeader in t.columns ==> Column(u, StatusHeader) == v.statuses)
    && (DateHeader in t.columns ==> Column(u, DateHeader) == v.dates)
    && (forall i, c :: 0 <= i < |t.rows| && (c !in t.columns || c !in DemoHeaders) ==>
          Cell(u.rows[i], c) == Cell(t.rows[i], c))
  }

  /** `u` is what the transformer makes of the non-empty table `t` under the
      draws `r`: the generated values in five columns, and in the Task
      column tasks drawn pass by pass from shuffled copies of `taskPool`. */
  ghost predicate DemoOf(t: Table, u: Table, r: Draws, taskPool: seq<string>)
    requires DrawsFor(r, |t.rows|)
  {
    && WritesOf(t, u, Generated(r, |t.rows|))
    && (TaskHeader in t.columns ==> UniquePerPass(Column(u, TaskHeader), taskPool))
  }

  /** The six headers are different strings. */
  lemma HeadersDistinct()
    ensures IdHeader != PersonHeader && IdHeader != TaskHeader && IdHeader != ProjectHeader
    ensures IdHeader != StatusHeader && IdHeader != DateHeader
    ensures PersonHeader != TaskHeader && PersonHeader != ProjectHeader
    ensures PersonHeader != StatusHeader && PersonHeader != DateHeader
    ensures TaskHeader != ProjectHeader && TaskHeader != StatusHeader && TaskHeader != DateHeader
    ensures ProjectHeader != StatusHeader && ProjectHeader != DateHeader
    ensures StatusHeader != DateHeader
  {
    assert IdHeader[|IdHeader| - 1] != DateHeader[|DateHeader| - 1];
    assert PersonHeader[|PersonHeader| - 1] != StatusHeader[|StatusHeader| - 1];
  }

  /** One step of the transformer, `demo_df[c] = values` under
      `if c in demo_df.columns`. */
  function Overwrite(t: Table, c: string, values: seq<string>): (u: Table)
    requires |values| == |t.rows|
    ensures u.columns == t.columns && |u.rows| == |t.rows|
  {
    if c in t.columns then SetColumn(t, c, values) else t
  }

  /** A cell after one step: the new value in the overwritten column, the
      old one everywhere else. */
  lemma OverwriteCell(t: Table, c: string, values: seq<string>, i: nat, h: string)
    requires |values| == |t.rows| && i < |t.rows|
    ensures Cell(Overwrite(t, c, values).rows[i], h)
      == if c in t.columns && h == c then values[i] else Cell(t.rows[i], h)
  { }

  /** `if c in demo_df.columns: demo_df[c] = values` */
  method OverwriteStep(t: Table, c: string, values: seq<string>) returns (u: Table)
    requires |values| == |t.rows|
    ensures u == Overwrite(t, c, values)
  {
    u := t;
    if c in t.columns {
      u := SetColumn(t, c, values);
    }
  }

  /** The six steps in the source's order; `tasks` is the column the Task
      step writes. */
  function DemoTable(t: Table, v: FakeColumns, tasks: seq<string>): (u: Table)
    requires Fits(v, |t.rows|) && |tasks| == |t.rows|
    ensures u.columns == t.columns && |u.rows| == |t.rows|
  {
    var t1 := Overwrite(t, IdHeader, v.ids);
    var t2 := Overwrite(t1, PersonHeader, v.persons);
    var t3 := Overwrite(t2, TaskHeader, tasks);
    var t4 := Overwrite(t3, ProjectHeader, v.projects);
    var t5 := Overwrite(t4, StatusHeader, v.statuses);
    Overwrite(t5, DateHeader, v.dates)
  }

  /** The value the six steps leave in column `h` of row `i`. */
  function DemoCell(t: Table, v: FakeColumns, tasks: seq<string>, i: nat, h: string): string
    requires Fits(v, |t.rows|) && |tasks| == |t.rows| && i < |t.rows|
  {
    if h !in t.columns then Cell(t.rows[i], h)
    else if h == IdHeader then v.ids[i]
    else if h == PersonHeader then v.persons[i]
    else if h == TaskHeader then tasks[i]
    else if h == ProjectHeader then v.projects[i]
    else if h == StatusHeader then v.statuses[i]
    else if h == DateHeader then v.dates[i]
    else Cell(t.rows[i], h)
  }

  lemma DemoTableCell(t: Table, v: FakeColumns, tasks: seq<string>, i: nat, h: string)
    requires Fits(v, |t.rows|) && |tasks| == |t.rows| && i < |t.rows|
    ensures Cell(DemoTable(t, v, tasks).rows[i], h) == DemoCell(t, v, tasks, i, h)
  {
    HeadersDistinct();
    var t1 := Overwrite(t, IdHeader, v.ids);
    var t2 := Overwrite(t1, PersonHeader, v.persons);
    var t3 := Overwrite(t2, TaskHeader, tasks);
    var t4 := Overwrite(t3, ProjectHeader, v.projects);
    var t5 := Overwrite(t4, StatusHeader, v.statuses);
    OverwriteCell(t, IdHeader, v.ids, i, h);
    OverwriteCell(t1, PersonHeader, v.persons, i, h);
    OverwriteCell(t2, TaskHeader, tasks, i, h);
    OverwriteCell(t3, ProjectHeader, v.projects, i, h);
    OverwriteCell(t4, StatusHeader, v.statuses, i, h);
    OverwriteCell(t5, DateHeader, v.dates, i, h);
  }

  /** A column the six steps write holds the written values. */
  lemma DemoColumn(t: Table, v: FakeColumns, tasks: seq<string>, h: string, values: seq<string>)
    requires Fits(v, |t.rows|) && |tasks| == |t.rows| && |values| == |t.rows|
    requires forall i :: 0 <= i < |t.rows| ==> DemoCell(t, v, tasks, i, h) == values[i]
    ensures Column(DemoTable(t, v, tasks), h) == values
  {
    var u := DemoTable(t, v, tasks);
    forall i | 0 <= i < |t.rows|
      ensures Column(u, h)[i] == values[i]
    {
      DemoTableCell(t, v, tasks, i, h);
    }
  }

  /** The six steps write the five generated columns and the Task column,
      and leave every other cell alone. */
  lemma DemoTableWrites(t: Table, v: FakeColumns, tasks: seq<string>)
    requires Fits(v, |t.rows|) && |tasks| == |t.rows|
    ensures WritesOf(t, DemoTable(t, v, tasks), v)
    ensures TaskHeader in t.columns ==> Column(DemoTable(t, v, tasks), TaskHeader) == tasks
  {
    var u := DemoTable(t, v, tasks);
    HeadersDistinct();
    forall i, c | 0 <= i < |t.rows| && (c !in t.columns || c !in DemoHeaders)
      ensures Cell(u.rows[i], c) == Cell(t.rows[i], c)
    {
      DemoTableCell(t, v, tasks, i, c);
    }
    if IdHeader in t.columns { DemoColumn(t, v, tasks, IdHeader, v.ids); }
    if PersonHeader in t.columns { DemoColumn(t, v, tasks, PersonHeader, v.persons); }
    if TaskHeader in t.columns { DemoColumn(t, v, tasks, TaskHeader, tasks); }
    if ProjectHeader in t.columns { DemoColumn(t, v, tasks, ProjectHeader, v.projects); }
    if StatusHeader in t.columns { DemoColumn(t, v, tasks, StatusHeader, v.statuses); }
    if DateHeader in t.columns { DemoColumn(t, v, tasks, DateHeader, v.dates); }
  }

  /** Every cell a demo table holds in a sensitive column comes from the
      fake pools or generators: a five- or six-digit id, a fake name, a task
      of the pool, a fake project, a status option, a date in 2025. */
  lemma DemoCellsAreFake(t: Table, u: Table, r: Draws, taskPool: seq<string>, i: nat)
    requires DrawsFor(r, |t.rows|) && DemoOf(t, u, r, taskPool) && i < |t.rows|
    ensures IdHeader in t.columns ==>
      5 <= |Cell(u.rows[i], IdHeader)| <= 6 && AllDigits(Cell(u.rows[i], IdHeader))
    ensures PersonHeader in t.columns ==> Cell(u.rows[i], PersonHeader) in FakeNames
    ensures TaskHeader in t.columns ==> Cell(u.rows[i], TaskHeader) in taskPool
    ensures ProjectHeader in t.columns ==> Cell(u.rows[i], ProjectHeader) in FakeProjects
    ensures StatusHeader in t.columns ==> Cell(u.rows[i], StatusHeader) in StatusOptions
    ensures DateHeader in t.columns ==>
      ParseIso(Cell(u.rows[i], DateHeader)).Some?
      && ParseIso(Cell(u.rows[i], DateHeader)).value.year == 2025
  {
    var v := Generated(r, |t.rows|);
    assert Column(u, IdHeader)[i] == Cell(u.rows[i], IdHeader);
    assert Column(u, PersonHeader)[i] == Cell(u.rows[i], PersonHeader);
    assert Column(u, TaskHeader)[i] == Cell(u.rows[i], TaskHeader);
    assert Column(u, ProjectHeader)[i] == Cell(u.rows[i], ProjectHeader);
    assert Column(u, StatusHeader)[i] == Cell(u.rows[i], StatusHeader);
    assert Column(u, DateHeader)[i] == Cell(u.rows[i], DateHeader);
  }

  /** A demo table of no more rows than the pool has tasks holds distinct
      tasks in its Task column. */
  lemma DemoTasksDistinct(t: Table, u: Table, r: Draws)
    requires DrawsFor(r, |t.rows|) && DemoOf(t, u, r, FakeTasks)
    requires TaskHeader in t.columns && |t.rows| <= 60
    ensures NoRepeats(Column(u, TaskHeader))
  {
    PoolNoRepeats();
    ShortColumnNoRepeats(Column(u, TaskHeader), FakeTasks);
  }

  /** The six steps, run on the generated columns and on a Task column
      drawn pass by pass from the pool, give the demo table; with no more
      rows than tasks its Task column holds distinct tasks. */
  lemma DemoTableIsDemo(t: Table, r: Draws, tasks: seq<string>)
    requires !IsEmpty(t) && DrawsFor(r, |t.rows|) && |tasks| == |t.rows|
    requires TaskHeader in t.columns ==> UniquePerPass(tasks, FakeTasks)
    ensures var u := DemoTable(t, Generated(r, |t.rows|), tasks);
      && DemoOf(t, u, r, FakeTasks)
      && (TaskHeader in t.columns && |t.rows| <= 60 ==> NoRepeats(Column(u, TaskHeader)))
  {
    var u := DemoTable(t, Generated(r, |t.rows|), tasks);
    DemoTableWrites(t, Generated(r, |t.rows|), tasks);
    if TaskHeader in t.columns && |t.rows| <= 60 {
      DemoTasksDistinct(t, u, r);
    }
  }

  /** `transform_to_demo_data`: a missing or empty table comes back as it
      is; otherwise a copy has each sensitive column it holds overwritten,
      one column after another. */
  method TransformToDemoData(df: Option<Table>, r: Draws) returns (out: Option<Table>)
    requires df.Some? ==> DrawsFor(r, |df.value.rows|)
    ensures df.None? ==> out.None?
    ensures df.Some? && IsEmpty(df.value) ==> out == df
    ensures df.Some? && !IsEmpty(df.value) ==> out.Some? && DemoOf(df.value, out.value, r, FakeTasks)
    ensures out.Some? && TaskHeader in out.value.columns && |out.value.rows| <= 60 ==>
      NoRepeats(Column(out.value, TaskHeader))
  {
    if df.None? || IsEmpty(df.value) {
      return df;
    }
    var t := df.value;
    var n := |t.rows|;
    var v := Generated(r, n);
    ghost var tasks: seq<string> := seq(n, i => "");
    var t1 := OverwriteStep(t, IdHeader, v.ids);
    var t2 := OverwriteStep(t1, PersonHeader, v.persons);
    var t3 := t2;
    if TaskHeader in t2.columns {
      var picked := AssignTasks(FakeTasks, n, r.shuffles);
      t3 := SetColumn(t2, TaskHeader, picked);
      tasks := picked;
    }
    assert t3 == Overwrite(t2, TaskHeader, tasks);
    var t4 := OverwriteStep(t3, ProjectHeader, v.projects);
    var t5 := OverwriteStep(t4, StatusHeader, v.statuses);
    var demo := OverwriteStep(t5, DateHeader, v.dates);
    DemoTableIsDemo(t, r, tasks);
    out := Some(demo);
  }
}
