/** The two formatting helpers of the dashboard's tables: the coloured
    badge shown for a task's status and the relative wording of a task's
    date ("Today", "In 3 days", "2 weeks ago", "Mar 05, 2025"). */
module UiHelpers {
  import opened Wrappers
  import opened Text
  import opened Dates

  // ---------------------------------------------------------------------
  // Status badges

  /** The exact (stripped, lower-cased) statuses each badge accepts; the
      emoji is the green circle. */
  const DoneStatuses: seq<string> := ["done", "complete", "completed", "\U{1F7E2}"]
  const ProgressStatuses: seq<string> := ["working", "in progress", "in-progress", "progress"]
  const OpenStatuses: seq<string> := ["open", "not started", "todo", "to do"]
  const ArchivedStatuses: seq<string> := ["archived", "archive"]

  /** The colours and caption filled into the badge's HTML template. */
  datatype Badge = Badge(background: string, foreground: string, caption: string)

  const DoneBadge := Badge("#918C86", "#FFFDFD", "\U{2713} Done")
  const ProgressBadge := Badge("#E5E4E2", "#2B2B2B", "\U{2192} In Progress")
  const OpenBadge := Badge("#F4F4F4", "#474747", "\U{25CB} Open")
  const ArchivedBadge := Badge("#474747", "#FFFDFD", "\U{2715} Archived")
  const OtherBackground := "#F4F4F4"
  const OtherForeground := "#2B2B2B"

  /** Which branch of the badge's if-chain a status takes. */
  datatype StatusClass = DoneClass | ProgressClass | OpenClass | ArchivedClass | OtherClass

  /** The branch for a stripped, lower-cased status, tried in the source's
      order: done, in progress, open, archived, anything else. */
  function ClassOf(key: string): (c: StatusClass)
    ensures c == DoneClass <==> key in DoneStatuses
    ensures c == ProgressClass <==> key in ProgressStatuses && key !in DoneStatuses
    ensures c == OpenClass <==> key in OpenStatuses && key !in DoneStatuses + ProgressStatuses
    ensures c == ArchivedClass <==>
      key in ArchivedStatuses && key !in DoneStatuses + ProgressStatuses + OpenStatuses
    ensures c == OtherClass <==>
      key !in DoneStatuses + ProgressStatuses + OpenStatuses + ArchivedStatuses
  {
    if key in DoneStatuses then DoneClass
    else if key in ProgressStatuses then ProgressClass
    else if key in OpenStatuses then OpenClass
    else if key in ArchivedStatuses then ArchivedClass
    else OtherClass
  }

  /** No status is listed under two badges, so the order of the tests does
      not matter. */
  lemma StatusListsDisjoint()
    ensures forall k :: k in DoneStatuses ==> k !in ProgressStatuses + OpenStatuses + ArchivedStatuses
    ensures forall k :: k in ProgressStatuses ==> k !in OpenStatuses + ArchivedStatuses
    ensures forall k :: k in OpenStatuses ==> k !in ArchivedStatuses
  {
  }

  /** The badge of each branch; `title` is the caption of an unknown
      status. */
  function BadgeOf(c: StatusClass, title: string): (b: Badge)
    ensures c == OtherClass ==> b.caption == title
  {
    match c
      case DoneClass => DoneBadge
      case ProgressClass => ProgressBadge
      case OpenClass => OpenBadge
      case ArchivedClass => ArchivedBadge
      case OtherClass => Badge(OtherBackground, OtherForeground, title)
  }

  /** `get_status_badge`: no badge (the empty string) for a missing or blank
      status; otherwise the badge of the status's class, where an unknown
      status shows its own text in title case (`status.title()` of the
      status as given, not stripped). */
  function StatusBadge(status: Option<string>): (b: Option<Badge>)
    ensures b.None? <==> status.None? || AllSpace(status.value)
    ensures status.Some? && !AllSpace(status.value) ==>
      var key := Lower(Strip(status.value));
      && (key in DoneStatuses ==> b == Some(DoneBadge))
      && (key in ProgressStatuses ==> b == Some(ProgressBadge))
      && (key in OpenStatuses ==> b == Some(OpenBadge))
      && (key in ArchivedStatuses ==> b == Some(ArchivedBadge))
      && (key !in DoneStatuses + ProgressStatuses + OpenStatuses + ArchivedStatuses ==>
            b == Some(Badge(OtherBackground, OtherForeground, Title(status.value))))
  {
    StatusListsDisjoint();
    if status.None? || Strip(status.value) == [] then None
    else Some(BadgeOf(ClassOf(Lower(Strip(status.value))), Title(status.value)))
  }

  /** Surrounding blanks and letter case do not change the badge of a known
      status. */
  lemma KnownBadgeNormalized(a: string, b: string)
    requires !AllSpace(a) && !AllSpace(b)
    requires Lower(Strip(a)) == Lower(Strip(b))
    requires ClassOf(Lower(Strip(a))) != OtherClass
    ensures StatusBadge(Some(a)) == StatusBadge(Some(b))
  {
  }

  /** Letter case alone never changes a badge, an unknown status's title-cased
      caption included. */
  lemma BadgeIgnoresCase(a: string, b: string)
    requires !AllSpace(a) && Lower(a) == Lower(b)
    ensures StatusBadge(Some(a)) == StatusBadge(Some(b))
  {
    assert !AllSpace(b) by {
      var i :| 0 <= i < |a| && !IsSpace(a[i]);
      assert LowerChar(a[i]) == LowerChar(b[i]);
    }
    var key := Lower(Strip(a));
    assert key == Lower(Strip(b)) by {
      StripLowerCommute(a);
      StripLowerCommute(b);
    }
    assert Title(a) == Title(b) by {
      TitleIgnoresCase(a);
      TitleIgnoresCase(b);
    }
    assert StatusBadge(Some(a)) == Some(BadgeOf(ClassOf(key), Title(a)));
    assert StatusBadge(Some(b)) == Some(BadgeOf(ClassOf(key), Title(b)));
  }

  /** The colours of a badge tell its class: each known class has its own
      pair of colours, and every unknown status gets the remaining pair. */
  lemma BadgeColoursIdentifyClass(c: StatusClass, title: string)
    ensures var b := BadgeOf(c, title);
      && (b.background == DoneBadge.background <==> c == DoneClass)
      && (b.background == ProgressBadge.background <==> c == ProgressClass)
      && (b.background == ArchivedBadge.background <==> c == ArchivedClass)
      && (b.foreground == OpenBadge.foreground <==> c == OpenClass)
      && (b.background == OtherBackground && b.foreground == OtherForeground <==> c == OtherClass)
  {
    assert DoneBadge.background[1] == '9' && ProgressBadge.background[1] == 'E';
    assert OpenBadge.background[1] == 'F' && ArchivedBadge.background[1] == '4';
    assert OpenBadge.foreground[1] == '4' && ProgressBadge.foreground[1] == '2';
    assert DoneBadge.foreground[1] == 'F';
  }

  // ---------------------------------------------------------------------
  // Relative dates

  /** The wording `format_relative_date` picks for a day difference. */
  datatype Relative =
    | Today
    | Tomorrow
    | Yesterday
    | InDays(days: nat)
    | DaysAgo(days: nat)
    | InWeeks(weeks: nat)
    | WeeksAgo(weeks: nat)
    | OnDate

  /** The if-chain on `diff`, the target day minus today in days. */
  function Classify(diff: int): (r: Relative)
    ensures r == Today <==> diff == 0
    ensures r == Tomorrow <==> diff == 1
    ensures r == Yesterday <==> diff == -1
    ensures r.InDays? <==> 2 <= diff <= 7
    ensures r.DaysAgo? <==> -7 <= diff <= -2
    ensures r.InWeeks? <==> 8 <= diff <= 30
    ensures r.WeeksAgo? <==> -30 <= diff <= -8
    ensures r.OnDate? <==> diff < -30 || 30 < diff
    ensures r.InDays? ==> r.days == diff
    ensures r.DaysAgo? ==> r.days == -diff
    ensures r.InWeeks? ==> 1 <= r.weeks <= 4 && 7 * r.weeks <= diff < 7 * r.weeks + 7
    ensures r.WeeksAgo? ==> 1 <= r.weeks <= 4 && 7 * r.weeks <= -diff < 7 * r.weeks + 7
  {
    if diff == 0 then Today
    else if diff == 1 then Tomorrow
    else if diff == -1 then Yesterday
    else if 1 < diff <= 7 then InDays(diff)
    else if -7 <= diff < -1 then DaysAgo(-diff)
    else if 7 < diff <= 30 then InWeeks(diff / 7)
    else if -30 <= diff < -7 then WeeksAgo(-diff / 7)
    else OnDate
  }

  /** "week" or "weeks". */
  function WeekWord(weeks: nat): string {
    if weeks > 1 then " weeks" else " week"
  }

  /** The text for a wording; `OnDate` prints the date itself. */
  function Label(r: Relative, d: Date): (s: string)
    requires Valid(d)
    ensures s != []
  {
    match r
    case Today => "Today"
    case Tomorrow => "Tomorrow"
    case Yesterday => "Yesterday"
    case InDays(n) => "In " + NatToString(n) + " days"
    case DaysAgo(n) => NatToString(n) + " days ago"
    case InWeeks(w) => "In " + NatToString(w) + WeekWord(w)
    case WeeksAgo(w) => NatToString(w) + WeekWord(w) + " ago"
    case OnDate => FormatLong(d)
  }

  /** `format_relative_date(date_str)` with today's day number passed in:
      the empty string for a blank input, the input itself when the stripped
      text is not a `YYYY-MM-DD` date, otherwise the wording for the
      difference in days. */
  function FormatRelativeDate(dateStr: string, todayOrdinal: int): (s: string)
    ensures AllSpace(dateStr) <==> s == []
    ensures !AllSpace(dateStr) && ParseIso(Strip(dateStr)).None? ==> s == dateStr
  {
    if Strip(dateStr) == [] then ""
    else
      match ParseIso(Strip(dateStr))
      case None => dateStr
      case Some(d) => Describe(d, todayOrdinal)
  }

  /** The wording of a parsed date, by its distance from today. */
  function Describe(d: Date, todayOrdinal: int): (s: string)
    requires Valid(d)
    ensures s != []
  {
    Label(Classify(Ordinal(d) - todayOrdinal), d)
  }

  /** A date written by the sheet's own `YYYY-MM-DD` format is worded by its
      distance from today. */
  lemma RelativeOfIso(d: Date, todayOrdinal: int)
    requires Valid(d)
    ensures FormatRelativeDate(FormatIso(d), todayOrdinal) == Describe(d, todayOrdinal)
  {
    var s := FormatIso(d);
    FormatIsoRoundTrip(d);
    IsoStripped(d);
    assert ParseIso(Strip(s)) == Some(d);
    RelativeOfParsed(s, d, todayOrdinal);
  }

  lemma RelativeOfParsed(s: string, d: Date, todayOrdinal: int)
    requires !AllSpace(s) && ParseIso(Strip(s)) == Some(d)
    ensures FormatRelativeDate(s, todayOrdinal) == Describe(d, todayOrdinal)
  {
  }

  /** An ISO date has no surrounding blanks. */
  lemma IsoStripped(d: Date)
    requires Valid(d)
    ensures Strip(FormatIso(d)) == FormatIso(d) && !AllSpace(FormatIso(d))
  {
    var s := FormatIso(d);
    NatToStringLength(d.year, 4, 10000);
    NatToStringLength(d.day, 2, 100);
    assert s[0] == PadNat(d.year, 4)[0];
    assert s[9] == PadNat(d.day, 2)[1];
    StripOfStripped(s);
  }

  /** Within a week either side of today, different days get different
      words: the wording of a near date can be read back as its offset. */
  lemma NearLabelsDistinct(d1: int, d2: int, x: Date, y: Date)
    requires -7 <= d1 <= 7 && -7 <= d2 <= 7 && Valid(x) && Valid(y)
    requires Label(Classify(d1), x) == Label(Classify(d2), y)
    ensures d1 == d2
  {
    var r1, r2 := Classify(d1), Classify(d2);
    var s := Label(r1, x);
    if r1.InDays? && r2.InDays? {
      NumberInLabel(r1.days, r2.days, "In ", " days");
    } else if r1.DaysAgo? && r2.DaysAgo? {
      assert "" + NatToString(r1.days) == NatToString(r1.days);
      assert "" + NatToString(r2.days) == NatToString(r2.days);
      NumberInLabel(r1.days, r2.days, "", " days ago");
    } else if r1 != r2 {
      LeadingChars(r1, x);
      LeadingChars(r2, y);
    }
  }

  /** The first character of a near wording tells its kind. */
  lemma LeadingChars(r: Relative, d: Date)
    requires Valid(d) && (r.InDays? || r.DaysAgo? || r == Today || r == Tomorrow || r == Yesterday)
    ensures var s := Label(r, d);
      && (r.InDays? <==> s[0] == 'I')
      && (r.DaysAgo? <==> IsDigit(s[0]))
      && (r == Yesterday <==> s[0] == 'Y')
      && (r == Today ==> |s| == 5 && s[0] == 'T')
      && (r == Tomorrow ==> |s| == 8 && s[0] == 'T')
  {
    if r.DaysAgo? {
      assert Label(r, d)[0] == NatToString(r.days)[0];
    }
  }

  /** Two labels built from the same prefix and suffix around a number are
      equal only for the same number. */
  lemma NumberInLabel(m: nat, n: nat, prefix: string, suffix: string)
    requires prefix + NatToString(m) + suffix == prefix + NatToString(n) + suffix
    ensures m == n
  {
    var a, b := NatToString(m), NatToString(n);
    var s := prefix + a + suffix;
    assert |a| == |b|;
    assert a == s[|prefix|..|prefix| + |a|];
    assert b == (prefix + b + suffix)[|prefix|..|prefix| + |b|];
    NatToStringValue(m);
    NatToStringValue(n);
  }

  /** Between one and four weeks out, the week count and its plural agree:
      "1 week" for 8 to 13 days, "N weeks" beyond. */
  lemma WeekCountPlural(diff: int)
    requires 8 <= diff <= 30 || -30 <= diff <= -8
    ensures var r := Classify(diff);
      (r.InWeeks? || r.WeeksAgo?) && (WeekWord(r.weeks) == " week" <==> -14 < diff < 14)
  {
  }
}
