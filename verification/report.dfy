/**
 * The `report` command (`execute_rep`): every line of punch.dat with three
 * fields is counted under the day its start stamp falls on and its task;
 * the days are printed in ascending order, each followed by its tasks in
 * ascending order with the sum of their minutes.
 */
module Report {
  import opened Wrappers
  import opened Errors
  import opened PyText
  import opened Numerals
  import opened TimeCodec
  import opened Sorting

  /** One counted line: the day it started on (`%Y%m%d`), its task and its minutes. */
  datatype Entry = Entry(date: string, task: string, minutes: int)

  /**
   * What one line adds to the report. The line is split on tabs as read,
   * line break included; only a line of exactly three fields counts, and
   * it raises ValueError when a stamp in it does not parse or names a year
   * `mktime` refuses.
   */
  function LineEntry(line: string): (r: Result<Option<Entry>, PunchError>)
    ensures r.Failure? <==> var rec := Split(line, '\t');
      |rec| == 3 && (StructOf(rec[1]).None? || StructOf(rec[2]).None?)
    ensures r.Failure? ==> r.error == ValueError
    ensures r.Success? ==> (r.value.Some? <==> |Split(line, '\t')| == 3)
  {
    var rec := Split(line, '\t');
    if |rec| != 3 then Success(None)
    else
      match DurationInMinutes(rec[1], rec[2])
      case Failure(e) => Failure(e)
      case Success(m) => Success(Some(Entry(FormatDate(StructOf(rec[1]).value), rec[0], m)))
  }

  /**
   * A counted line has three fields and adds its minutes under its task
   * text and the day of its start stamp: the stamp's month and day (a
   * space before the day written as `0`), and its whole date when the year
   * is from 1900 on.
   */
  lemma LineEntryCounts(line: string)
    requires LineEntry(line).Success? && LineEntry(line).value.Some?
    ensures var rec := Split(line, '\t'); var e := LineEntry(line).value.value;
      |rec| == 3 && e.task == rec[0] && DurationInMinutes(rec[1], rec[2]) == Success(e.minutes)
      && |rec[1]| >= 8 && |e.date| == 8 && e.date[4..] == PaddedDate(rec[1])[4..]
      && (e.date == PaddedDate(rec[1]) <==> ParseStamp(rec[1]).value.year >= 1900)
  {
    DateKeyIsPrefix(Split(line, '\t')[1]);
  }

  /** The entries of the lines in order, or the error of the first line that raises. */
  function Entries(lines: seq<string>): (r: Result<seq<Entry>, PunchError>)
    ensures r.Failure? ==> r.error == ValueError
    ensures r.Success? ==> |r.value| <= |lines|
  {
    if lines == [] then Success([])
    else
      match Entries(lines[..|lines| - 1])
      case Failure(e) => Failure(e)
      case Success(es) =>
        match LineEntry(lines[|lines| - 1])
        case Failure(e) => Failure(e)
        case Success(None) => Success(es)
        case Success(Some(e)) => Success(es + [e])
  }

  /** The report raises exactly when some line of three fields holds a stamp that does not parse. */
  lemma {:induction false} EntriesFailure(lines: seq<string>)
    ensures Entries(lines).Failure? <==> exists i :: 0 <= i < |lines| && LineEntry(lines[i]).Failure?
    decreases |lines|
  {
    if lines != [] {
      var front := lines[..|lines| - 1];
      EntriesFailure(front);
      if exists i :: 0 <= i < |lines| && LineEntry(lines[i]).Failure? {
        var i :| 0 <= i < |lines| && LineEntry(lines[i]).Failure?;
        if i < |front| {
          assert front[i] == lines[i];
        }
      }
      if exists i :: 0 <= i < |front| && LineEntry(front[i]).Failure? {
        var i :| 0 <= i < |front| && LineEntry(front[i]).Failure?;
        assert lines[i] == front[i];
      }
    }
  }

  /** Once a prefix of the lines raises, so do the lines. */
  lemma {:induction false} EntriesFailureExtends(lines: seq<string>, k: nat)
    requires k <= |lines| && Entries(lines[..k]).Failure?
    ensures Entries(lines).Failure?
    decreases |lines| - k
  {
    if k < |lines| {
      assert lines[..k + 1][..k] == lines[..k];
      EntriesFailureExtends(lines, k + 1);
    } else {
      assert lines[..k] == lines;
    }
  }

  // ---- What the report is made of ----

  /** The days some entry started on. */
  function DatesOf(es: seq<Entry>): set<string> {
    set e | e in es :: e.date
  }

  /** The tasks counted on day `d`. */
  function TasksOn(es: seq<Entry>, d: string): set<string> {
    set e | e in es && e.date == d :: e.task
  }

  /** The minutes of task `t` on day `d`, in the order of the lines. */
  function MinutesFor(es: seq<Entry>, d: string, t: string): seq<int> {
    if es == [] then []
    else
      var e := es[|es| - 1];
      MinutesFor(es[..|es| - 1], d, t) + (if e.date == d && e.task == t then [e.minutes] else [])
  }

  function Sum(xs: seq<int>): int {
    if xs == [] then 0 else Sum(xs[..|xs| - 1]) + xs[|xs| - 1]
  }

  /** A task counted on a day has minutes on that day, and one not counted has none. */
  lemma {:induction false} MinutesForCount(es: seq<Entry>, d: string, t: string)
    ensures t in TasksOn(es, d) <==> MinutesFor(es, d, t) != []
    decreases |es|
  {
    if es != [] {
      var front, e := es[..|es| - 1], es[|es| - 1];
      MinutesForCount(front, d, t);
      assert es == front + [e];
      TasksOnSnoc(front, e, d);
    }
  }

  lemma TasksOnSnoc(es: seq<Entry>, e: Entry, d: string)
    ensures TasksOn(es + [e], d) == TasksOn(es, d) + (if e.date == d then {e.task} else {})
  {
    var s := es + [e];
    forall t
      ensures t in TasksOn(s, d) <==> t in TasksOn(es, d) || (e.date == d && t == e.task)
    {
      if t in TasksOn(s, d) {
        var x :| x in s && x.date == d && x.task == t;
        if x != e {
          assert x in es;
        }
      }
      if t in TasksOn(es, d) {
        var x :| x in es && x.date == d && x.task == t;
        assert x in s;
      }
      if e.date == d && t == e.task {
        assert e in s;
      }
    }
  }

  lemma DatesOfSnoc(es: seq<Entry>, e: Entry)
    ensures DatesOf(es + [e]) == DatesOf(es) + {e.date}
  {
    var s := es + [e];
    forall d
      ensures d in DatesOf(s) <==> d in DatesOf(es) || d == e.date
    {
      if d in DatesOf(s) {
        var x :| x in s && x.date == d;
        if x != e {
          assert x in es;
        }
      }
      if d in DatesOf(es) {
        var x :| x in es && x.date == d;
        assert x in s;
      }
      assert e in s;
    }
  }

  lemma MinutesForSnoc(es: seq<Entry>, e: Entry, d: string, t: string)
    ensures MinutesFor(es + [e], d, t) == MinutesFor(es, d, t) + (if e.date == d && e.task == t then [e.minutes] else [])
  {
    assert (es + [e])[..|es|] == es;
  }

  // ---- The dictionary of `execute_rep` ----

  /** `dateDict`: day -> task -> the minutes of each line, holding exactly the entries `es`. */
  ghost predicate Tabulates(dict: map<string, map<string, seq<int>>>, es: seq<Entry>) {
    dict.Keys == DatesOf(es)
    && forall d :: d in dict ==>
      dict[d].Keys == TasksOn(es, d)
      && forall t :: t in dict[d] ==> dict[d][t] == MinutesFor(es, d, t)
  }

  /** Adding one entry to `dateDict`, creating its day and its task list when they are new. */
  function Record(dict: map<string, map<string, seq<int>>>, e: Entry): map<string, map<string, seq<int>>> {
    var dateValue := if e.date in dict then dict[e.date] else map[];
    var timeList := if e.task in dateValue then dateValue[e.task] else [];
    dict[e.date := dateValue[e.task := timeList + [e.minutes]]]
  }

  /** Recording an entry keeps the dictionary in step with the entries. */
  lemma RecordTabulates(dict: map<string, map<string, seq<int>>>, es: seq<Entry>, e: Entry)
    requires Tabulates(dict, es)
    ensures Tabulates(Record(dict, e), es + [e])
  {
    var dict' := Record(dict, e);
    DatesOfSnoc(es, e);
    forall d | d in dict'
      ensures dict'[d].Keys == TasksOn(es + [e], d)
      ensures forall t :: t in dict'[d] ==> dict'[d][t] == MinutesFor(es + [e], d, t)
    {
      RecordDay(dict, es, e, d);
    }
  }

  /** After recording an entry, each day's tasks and minutes are those of the entries with it. */
  lemma RecordDay(dict: map<string, map<string, seq<int>>>, es: seq<Entry>, e: Entry, d: string)
    requires Tabulates(dict, es) && d in Record(dict, e)
    ensures Record(dict, e)[d].Keys == TasksOn(es + [e], d)
    ensures forall t :: t in Record(dict, e)[d] ==> Record(dict, e)[d][t] == MinutesFor(es + [e], d, t)
  {
    var dict' := Record(dict, e);
    TasksOnSnoc(es, e, d);
    if d == e.date && d !in dict {
      assert TasksOn(es, d) == {};
    }
    forall t | t in dict'[d]
      ensures dict'[d][t] == MinutesFor(es + [e], d, t)
    {
      MinutesForSnoc(es, e, d, t);
      if d == e.date && t == e.task && (d !in dict || t !in dict[d]) {
        MinutesForCount(es, d, t);
      }
    }
  }

  /** The loop over the lines of punch.dat that fills `dateDict`. */
  method Collect(lines: seq<string>) returns (r: Result<map<string, map<string, seq<int>>>, PunchError>)
    ensures r.Failure? <==> Entries(lines).Failure?
    ensures r.Failure? ==> r.error == ValueError
    ensures r.Success? ==> Tabulates(r.value, Entries(lines).value)
  {
    var dict: map<string, map<string, seq<int>>> := map[];
    ghost var es: seq<Entry> := [];
    for i := 0 to |lines|
      invariant Entries(lines[..i]) == Success(es)
      invariant Tabulates(dict, es)
    {
      assert lines[..i + 1][..i] == lines[..i];
      var entry := LineEntry(lines[i]);
      if entry.Failure? {
        EntriesFailureExtends(lines, i + 1);
        return Failure(entry.error);
      }
      if entry.value.Some? {
        var e := entry.value.value;
        RecordTabulates(dict, es, e);
        dict := Record(dict, e);
        es := es + [e];
      }
    }
    assert lines[..|lines|] == lines;
    return Success(dict);
  }

  // ---- Sorting and summing ----

  /** A task and its total minutes on one day. */
  datatype TaskTotal = TaskTotal(task: string, minutes: int)

  /** A day of the report: its `%Y%m%d` key and its tasks in print order. */
  datatype DateGroup = DateGroup(date: string, tasks: seq<TaskTotal>)

  function DatesIn(groups: seq<DateGroup>): (ds: seq<string>)
    ensures |ds| == |groups|
  {
    seq(|groups|, i requires 0 <= i < |groups| => groups[i].date)
  }

  function TaskNames(totals: seq<TaskTotal>): (ts: seq<string>)
    ensures |ts| == |totals|
  {
    seq(|totals|, i requires 0 <= i < |totals| => totals[i].task)
  }

  /** A day of the report lists each of its tasks once, in order, with the sum of its minutes. */
  ghost predicate GroupOk(g: DateGroup, es: seq<Entry>) {
    StrictlySorted(TaskNames(g.tasks))
    && (forall t :: t in TaskNames(g.tasks) <==> t in TasksOn(es, g.date))
    && forall k :: 0 <= k < |g.tasks| ==> g.tasks[k].minutes == Sum(MinutesFor(es, g.date, g.tasks[k].task))
  }

  /** The report of the entries: each day once, in order, each with its tasks. */
  ghost predicate IsReportOf(groups: seq<DateGroup>, es: seq<Entry>) {
    StrictlySorted(DatesIn(groups))
    && (forall d :: d in DatesIn(groups) <==> d in DatesOf(es))
    && forall i :: 0 <= i < |groups| ==> GroupOk(groups[i], es)
  }

  /** Adds up a task's minutes one entry at a time, starting from zero. */
  method SumOf(xs: seq<int>) returns (total: int)
    ensures total == Sum(xs)
  {
    total := 0;
    for i := 0 to |xs|
      invariant total == Sum(xs[..i])
    {
      assert xs[..i + 1][..i] == xs[..i];
      total := total + xs[i];
    }
    assert xs[..|xs|] == xs;
  }

  /** The printing loops of `execute_rep`, producing the days and their totals in print order. */
  method Summarize(dict: map<string, map<string, seq<int>>>, ghost es: seq<Entry>) returns (groups: seq<DateGroup>)
    requires Tabulates(dict, es)
    ensures IsReportOf(groups, es)
  {
    var dates := SortedKeys(dict.Keys);
    groups := [];
    for i := 0 to |dates|
      invariant |groups| == i
      invariant forall k :: 0 <= k < i ==> groups[k].date == dates[k] && GroupOk(groups[k], es)
    {
      var d := dates[i];
      var totals := SummarizeDay(dict[d], es, d);
      groups := groups + [DateGroup(d, totals)];
    }
    assert DatesIn(groups) == dates;
  }

  /** The inner loop of `execute_rep`: one day's tasks in order, each with the sum of its minutes. */
  method SummarizeDay(taskDict: map<string, seq<int>>, ghost es: seq<Entry>, ghost d: string) returns (totals: seq<TaskTotal>)
    requires taskDict.Keys == TasksOn(es, d)
    requires forall t :: t in taskDict ==> taskDict[t] == MinutesFor(es, d, t)
    ensures GroupOk(DateGroup(d, totals), es)
  {
    var tasks := SortedKeys(taskDict.Keys);
    totals := [];
    for k := 0 to |tasks|
      invariant |totals| == k
      invariant forall m :: 0 <= m < k ==> totals[m] == TaskTotal(tasks[m], Sum(MinutesFor(es, d, tasks[m])))
    {
      var total := SumOf(taskDict[tasks[k]]);
      totals := totals + [TaskTotal(tasks[k], total)];
    }
    assert TaskNames(totals) == tasks;
  }

  /** The whole computation of `report`: the days and totals, or ValueError. */
  method BuildReport(lines: seq<string>) returns (r: Result<seq<DateGroup>, PunchError>)
    ensures r.Failure? <==> Entries(lines).Failure?
    ensures r.Failure? ==> r.error == ValueError
    ensures r.Success? ==> IsReportOf(r.value, Entries(lines).value)
  {
    var dict := Collect(lines);
    if dict.Failure? {
      return Failure(dict.error);
    }
    var groups := Summarize(dict.value, Entries(lines).value);
    return Success(groups);
  }

  /** There is only one report of a set of entries: the days, tasks and sums leave no choice. */
  lemma ReportUnique(g1: seq<DateGroup>, g2: seq<DateGroup>, es: seq<Entry>)
    requires IsReportOf(g1, es) && IsReportOf(g2, es)
    ensures g1 == g2
  {
    SortedUnique(DatesIn(g1), DatesIn(g2));
    forall i | 0 <= i < |g1|
      ensures g1[i] == g2[i]
    {
      assert DatesIn(g1)[i] == DatesIn(g2)[i];
      var a, b := g1[i], g2[i];
      assert GroupOk(a, es) && GroupOk(b, es);
      SortedUnique(TaskNames(a.tasks), TaskNames(b.tasks));
      forall k | 0 <= k < |a.tasks|
        ensures a.tasks[k] == b.tasks[k]
      {
        assert TaskNames(a.tasks)[k] == TaskNames(b.tasks)[k];
      }
    }
  }

  // ---- Printing ----

  /** A day's header: the date key cut after four and six characters, the parts joined by dashes, then a colon. */
  function DateHeader(d: string): string {
    Slice(d, 0, 4) + "-" + Slice(d, 4, 6) + "-" + Slice(d, 6, |d|) + ":"
  }

  /** A day written as year-month-day. */
  function IsoDate(t: CalendarTime): string
    requires ValidTime(t)
  {
    Pad4(t.year) + "-" + Pad2(t.month) + "-" + Pad2(t.day)
  }

  /** The header of a day is its date, year-month-day, then a colon. */
  lemma DateHeaderOfDate(t: CalendarTime)
    requires ValidTime(t)
    ensures DateHeader(FormatDate(t)) == IsoDate(t) + ":"
  {
    var d := FormatDate(t);
    assert Slice(d, 0, 4) == Pad4(t.year);
    assert Slice(d, 4, 6) == Pad2(t.month);
    assert Slice(d, 6, |d|) == Pad2(t.day);
  }

  /** A task's line: a tab, the task, a space, then its total minutes as hours and minutes. */
  function TaskLine(t: TaskTotal): string {
    "\t" + t.task + " " + FormatMinutes(t.minutes)
  }

  function TaskLines(totals: seq<TaskTotal>): (lines: seq<string>)
    ensures |lines| == |totals|
  {
    if totals == [] then [] else TaskLines(totals[..|totals| - 1]) + [TaskLine(totals[|totals| - 1])]
  }

  /** The lines `report` prints: each day's header, then a line per task. */
  function ReportLines(groups: seq<DateGroup>): (lines: seq<string>)
  {
    if groups == [] then []
    else
      var g := groups[|groups| - 1];
      ReportLines(groups[..|groups| - 1]) + [DateHeader(g.date)] + TaskLines(g.tasks)
  }

  /** The report prints one line per day and one per task of the day. */
  lemma {:induction false} ReportLinesCount(groups: seq<DateGroup>)
    ensures |ReportLines(groups)| == |groups| + TotalTasks(groups)
    decreases |groups|
  {
    if groups != [] {
      ReportLinesCount(groups[..|groups| - 1]);
    }
  }

  function TotalTasks(groups: seq<DateGroup>): nat {
    if groups == [] then 0 else TotalTasks(groups[..|groups| - 1]) + |groups[|groups| - 1].tasks|
  }
}
