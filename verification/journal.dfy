/**
 * What a punch log means: the finished records in the order they were
 * written and, at most, one record still running. `Render` writes a journal
 * the way the tool writes punch.dat, and the lemmas here show that the
 * tool's line-by-line text operations (`get_last_punch_rec`, `add_out_line`,
 * `add_in_line`, `execute_wh`) act on that text exactly as the
 * corresponding operations on the journal: the intended invariant that
 * only the last line can be open follows.
 */
module Journal {
  import opened Wrappers
  import opened Errors
  import opened PyText
  import opened Numerals
  import opened TimeCodec
  import opened Tasks
  import opened PunchLog

  /** A finished record. */
  datatype Closed = Closed(task: string, start: CalendarTime, end: CalendarTime)

  /** The record of the task that is running. */
  datatype Running = Running(task: string, start: CalendarTime)

  datatype Log = Log(closed: seq<Closed>, running: Option<Running>)

  /** A task text the log holds and gives back intact: non-empty, one field, one line, no surrounding whitespace. */
  predicate GoodTask(task: string) {
    task != [] && Unpadded(task) && '\t' !in task && '\n' !in task
  }

  predicate GoodClosed(c: Closed) {
    GoodTask(c.task) && ClockTime(c.start) && ClockTime(c.end)
  }

  predicate GoodRunning(o: Running) {
    GoodTask(o.task) && ClockTime(o.start)
  }

  predicate GoodLog(j: Log) {
    (forall i :: 0 <= i < |j.closed| ==> GoodClosed(j.closed[i]))
    && (j.running.Some? ==> GoodRunning(j.running.value))
  }

  /** A finished record as a line of punch.dat: what `in` and then `out` appended. */
  function ClosedLine(c: Closed): string
    requires ValidTime(c.start) && ValidTime(c.end)
  {
    InRecord(c.task, c.start) + OutRecord(c.end)
  }

  /** A running record: what `in` appended, with no line break yet. */
  function RunningLine(o: Running): string
    requires ValidTime(o.start)
  {
    InRecord(o.task, o.start)
  }

  function ClosedText(cs: seq<Closed>): (text: string)
    requires forall i :: 0 <= i < |cs| ==> GoodClosed(cs[i])
    ensures text == [] || text[|text| - 1] == '\n'
  {
    if cs == [] then []
    else
      var c := cs[|cs| - 1];
      assert GoodClosed(c);
      ClosedText(cs[..|cs| - 1]) + ClosedLine(c)
  }

  function ClosedLines(cs: seq<Closed>): (lines: seq<string>)
    requires forall i :: 0 <= i < |cs| ==> GoodClosed(cs[i])
    ensures |lines| == |cs|
  {
    if cs == [] then []
    else
      var c := cs[|cs| - 1];
      assert GoodClosed(c);
      ClosedLines(cs[..|cs| - 1]) + [ClosedLine(c)]
  }

  /** The text of punch.dat for a journal. */
  function Render(j: Log): string
    requires GoodLog(j)
  {
    ClosedText(j.closed) + (if j.running.Some? then RunningLine(j.running.value) else [])
  }

  /** The file for a journal: absent while nothing was ever written. */
  function LogOf(j: Log): Option<string>
    requires GoodLog(j)
  {
    if j.closed == [] && j.running.None? then None else Some(Render(j))
  }

  /** The fields `get_last_punch_rec` should see for a journal. */
  function LastFields(j: Log): seq<string>
    requires GoodLog(j)
  {
    if j.running.Some? then [j.running.value.task, FormatStamp(j.running.value.start)]
    else if j.closed == [] then []
    else
      var c := j.closed[|j.closed| - 1];
      [c.task, FormatStamp(c.start), FormatStamp(c.end)]
  }

  // ---- Text facts about single records ----

  /** A timestamp holds no tab, no line break and no surrounding whitespace. */
  lemma StampText(t: CalendarTime)
    requires ValidTime(t)
    ensures var p := FormatStamp(t);
      p != [] && '\t' !in p && '\n' !in p && !IsSpace(p[0]) && !IsSpace(p[|p| - 1])
  {
    var p := FormatStamp(t);
    forall i | 0 <= i < |p|
      ensures p[i] == 'T' || IsDigit(p[i])
    {
      if i < 8 {
        assert p[..8][i] == p[i];
      } else if i > 8 {
        assert p[9..][i - 9] == p[i];
      }
    }
  }

  /** A finished record's line is one full line whose record is its three fields. */
  lemma ClosedLineRecord(c: Closed)
    requires GoodClosed(c)
    ensures IsFullLine(ClosedLine(c))
    ensures Split(Strip(ClosedLine(c)), '\t') == [c.task, FormatStamp(c.start), FormatStamp(c.end)]
  {
    var s1, s2 := FormatStamp(c.start), FormatStamp(c.end);
    StampField(c.start);
    StampField(c.end);
    ThreeFieldLine(c.task, s1, s2);
  }

  /** A timestamp is a good field of a record: it could stand where a task stands. */
  lemma StampField(t: CalendarTime)
    requires ValidTime(t)
    ensures GoodTask(FormatStamp(t))
  {
    StampText(t);
  }

  /** Three fields joined by tabs and closed by a line break: one full line whose record is the three. */
  lemma ThreeFieldLine(a: string, b: string, d: string)
    requires GoodTask(a) && GoodTask(b) && GoodTask(d)
    ensures IsFullLine((a + "\t" + b) + ("\t" + d + "\n"))
    ensures Split(Strip((a + "\t" + b) + ("\t" + d + "\n")), '\t') == [a, b, d]
  {
    var x := a + "\t" + b + "\t" + d;
    assert (a + "\t" + b) + ("\t" + d + "\n") == x + "\n";
    assert x[0] == a[0] && x[|x| - 1] == d[|d| - 1];
    assert '\n' !in x;
    StripUnpadded(x);
    FullLineOf(x);
    SplitThree(a, b, d);
  }

  /** A running record's line has no line break, and its record is its two fields. */
  lemma RunningLineRecord(o: Running)
    requires GoodRunning(o)
    ensures RunningLine(o) != [] && '\n' !in RunningLine(o)
    ensures Split(Strip(RunningLine(o)), '\t') == [o.task, FormatStamp(o.start)]
  {
    StampField(o.start);
    TwoFieldLine(o.task, FormatStamp(o.start));
  }

  /** Two fields joined by a tab: a text without a line break whose record is the two. */
  lemma TwoFieldLine(a: string, b: string)
    requires GoodTask(a) && GoodTask(b)
    ensures a + "\t" + b != [] && '\n' !in a + "\t" + b
    ensures Split(Strip(a + "\t" + b), '\t') == [a, b]
  {
    var x := a + "\t" + b;
    assert x[0] == a[0] && x[|x| - 1] == b[|b| - 1];
    StripUnpadded(x);
    SplitTwo(a, b);
  }

  // ---- The lines of a rendered journal ----

  lemma {:induction false} ClosedTextLines(cs: seq<Closed>)
    requires forall i :: 0 <= i < |cs| ==> GoodClosed(cs[i])
    ensures Lines(ClosedText(cs)) == ClosedLines(cs)
    decreases |cs|
  {
    if cs != [] {
      var front := cs[..|cs| - 1];
      ClosedTextLines(front);
      ClosedLineRecord(cs[|cs| - 1]);
      LinesSnoc(ClosedText(front), ClosedLine(cs[|cs| - 1]));
    }
  }

  lemma {:induction false} ClosedLinesAt(cs: seq<Closed>, i: nat)
    requires forall k :: 0 <= k < |cs| ==> GoodClosed(cs[k])
    requires i < |cs|
    ensures ClosedLines(cs)[i] == ClosedLine(cs[i])
    decreases |cs|
  {
    if i < |cs| - 1 {
      ClosedLinesAt(cs[..|cs| - 1], i);
    }
  }

  /** `readlines` on a rendered journal: one line per finished record, then the running one. */
  lemma RenderLines(j: Log)
    requires GoodLog(j)
    ensures Lines(Render(j)) == ClosedLines(j.closed) + (if j.running.Some? then [RunningLine(j.running.value)] else [])
  {
    ClosedTextLines(j.closed);
    if j.running.Some? {
      RunningLineRecord(j.running.value);
      LinesAppend(ClosedText(j.closed), RunningLine(j.running.value));
      LinesSingle(RunningLine(j.running.value));
    } else {
      assert Render(j) == ClosedText(j.closed);
    }
  }

  /**
   * The state `get_last_punch_rec` reads from a rendered journal is its last
   * record: the running one's two fields, else the last finished one's
   * three, else nothing.
   */
  lemma LastRecordOfLog(j: Log)
    requires GoodLog(j)
    ensures LastRecord(LogOf(j)) == Success(LastFields(j))
  {
    if j.running.Some? {
      LastRecordWhileRunning(j);
    } else if j.closed != [] {
      LastRecordWhileIdle(j);
    }
  }

  lemma LastRecordWhileRunning(j: Log)
    requires GoodLog(j) && j.running.Some?
    ensures LastRecord(LogOf(j)) == Success(LastFields(j))
  {
    var o := j.running.value;
    RenderLines(j);
    RunningLineRecord(o);
    LastRecordOfText(Render(j), ClosedLines(j.closed), RunningLine(o));
  }

  lemma LastRecordWhileIdle(j: Log)
    requires GoodLog(j) && j.running.None? && j.closed != []
    ensures LastRecord(LogOf(j)) == Success(LastFields(j))
  {
    var cs := j.closed;
    RenderLines(j);
    ClosedLinesAt(cs, |cs| - 1);
    ClosedLineRecord(cs[|cs| - 1]);
    var lines := ClosedLines(cs);
    assert lines == lines[..|lines| - 1] + [ClosedLine(cs[|cs| - 1])];
    LastRecordOfText(Render(j), lines[..|lines| - 1], ClosedLine(cs[|cs| - 1]));
  }

  /** A text whose last line is `line` has the record of that line. */
  lemma LastRecordOfText(text: string, front: seq<string>, line: string)
    requires Lines(text) == front + [line]
    ensures text != []
    ensures LastRecord(Some(text)) == Success(Split(Strip(line), '\t'))
  {
    assert Lines(text) != [];
  }

  /** The two states: the log's last record is complete exactly when no task is running. */
  lemma CompleteIffIdle(j: Log)
    requires GoodLog(j)
    ensures LastRecord(LogOf(j)).Success?
    ensures RecordComplete(LastRecord(LogOf(j)).value) <==> j.running.None?
  {
    LastRecordOfLog(j);
  }

  // ---- The commands on the journal, and the text machine simulating them ----

  /** Finishes the running record at `now`, if there is one. */
  function CloseRunning(j: Log, now: CalendarTime): Log {
    if j.running.Some? then Log(j.closed + [Closed(j.running.value.task, j.running.value.start, now)], None)
    else j
  }

  /** `out` on the journal: NoOpenTaskError when nothing runs. */
  function JournalOut(j: Log, now: CalendarTime): Result<Log, PunchError> {
    if j.running.None? then Failure(NoOpenTaskError) else Success(CloseRunning(j, now))
  }

  /** `in` on the journal: finish what runs, then start the task the lookup found, if it found one. */
  function JournalIn(j: Log, task: Result<string, PunchError>, now: CalendarTime): Log {
    var k := CloseRunning(j, now);
    if task.Success? then Log(k.closed, Some(Running(task.value, now))) else k
  }

  lemma CloseRunningText(j: Log, now: CalendarTime)
    requires GoodLog(j) && ClockTime(now)
    ensures GoodLog(CloseRunning(j, now))
    ensures CloseRunning(j, now).running.None?
    ensures j.running.Some? ==> Render(CloseRunning(j, now)) == Render(j) + OutRecord(now)
  {
    if j.running.Some? {
      var o := j.running.value;
      var c := Closed(o.task, o.start, now);
      var cs := j.closed + [c];
      assert cs[..|cs| - 1] == j.closed;
      assert forall i :: 0 <= i < |cs| ==> GoodClosed(cs[i]);
      assert ClosedText(cs) == ClosedText(j.closed) + ClosedLine(c);
      AppendAssoc(ClosedText(j.closed), RunningLine(o), OutRecord(now));
    }
  }

  /**
   * `add_out_line` on a rendered journal is `out` on the journal: it fails
   * with NoOpenTaskError, writing nothing, when nothing runs, and otherwise
   * yields the text of the journal whose running record is finished at
   * `now`, announcing that record's task.
   */
  lemma OutSimulates(j: Log, now: CalendarTime)
    requires GoodLog(j) && ClockTime(now)
    ensures j.running.None? ==> OutStep(LogOf(j), now) == Failure(NoOpenTaskError) && JournalOut(j, now).Failure?
    ensures j.running.Some? ==>
      JournalOut(j, now).Success? && GoodLog(JournalOut(j, now).value)
      && LogOf(JournalOut(j, now).value) == Some(Render(JournalOut(j, now).value))
      && OutStep(LogOf(j), now) == Success(Appended(Render(JournalOut(j, now).value), StopMessage(j.running.value.task)))
  {
    if j.running.Some? {
      OutWhileRunning(j, now);
    } else {
      OutWhileIdle(j, now);
    }
  }

  lemma OutWhileIdle(j: Log, now: CalendarTime)
    requires GoodLog(j) && ClockTime(now) && j.running.None?
    ensures OutStep(LogOf(j), now) == Failure(NoOpenTaskError)
  {
    LastRecordOfLog(j);
  }

  lemma OutWhileRunning(j: Log, now: CalendarTime)
    requires GoodLog(j) && ClockTime(now) && j.running.Some?
    ensures GoodLog(CloseRunning(j, now)) && CloseRunning(j, now).closed != []
    ensures OutStep(LogOf(j), now) == Success(Appended(Render(CloseRunning(j, now)), StopMessage(j.running.value.task)))
  {
    LastRecordOfLog(j);
    assert LastRecord(LogOf(j)).value[0] == j.running.value.task;
    CloseRunningText(j, now);
  }

  /**
   * `add_in_line` on a rendered journal is `in` on the journal: the running
   * record, if any, is finished (and announced) before the line number is
   * looked up, and stays finished when the lookup fails; a found task
   * starts running at `now`.
   */
  lemma InSimulates(j: Log, taskLines: seq<string>, n: nat, now: CalendarTime)
    requires GoodLog(j) && ClockTime(now)
    requires Lookup(taskLines, n).Success? ==> GoodTask(Lookup(taskLines, n).value)
    ensures var task := Lookup(taskLines, n);
      var next := JournalIn(j, task, now);
      var s := InStep(LogOf(j), taskLines, n, now);
      GoodLog(next) && s.log == LogOf(next)
      && s.printed == (if j.running.Some? then [StopMessage(j.running.value.task)] else [])
                      + (if task.Success? then [StartMessage(task.value)] else [])
      && s.outcome == (if task.Success? then Pass else Fail(task.error))
  {
    if Lookup(taskLines, n).Success? {
      InWithTask(j, taskLines, n, now);
    } else {
      InWithoutTask(j, taskLines, n, now);
    }
  }

  /** The messages of the auto-close: the running task's stop, if one runs. */
  function Stopped(j: Log): seq<string> {
    if j.running.Some? then [StopMessage(j.running.value.task)] else []
  }

  lemma InWithoutTask(j: Log, taskLines: seq<string>, n: nat, now: CalendarTime)
    requires GoodLog(j) && ClockTime(now) && Lookup(taskLines, n).Failure?
    ensures GoodLog(CloseRunning(j, now))
    ensures InStep(LogOf(j), taskLines, n, now) == Step(LogOf(CloseRunning(j, now)), Stopped(j), Fail(Lookup(taskLines, n).error))
  {
    LastRecordOfLog(j);
    AutoCloseSimulates(j, now);
    InStepAfterClose(LogOf(j), taskLines, n, now);
  }

  lemma InWithTask(j: Log, taskLines: seq<string>, n: nat, now: CalendarTime)
    requires GoodLog(j) && ClockTime(now) && Lookup(taskLines, n).Success? && GoodTask(Lookup(taskLines, n).value)
    ensures GoodLog(JournalIn(j, Lookup(taskLines, n), now))
    ensures InStep(LogOf(j), taskLines, n, now)
         == Step(LogOf(JournalIn(j, Lookup(taskLines, n), now)), Stopped(j) + [StartMessage(Lookup(taskLines, n).value)], Pass)
  {
    var task := Lookup(taskLines, n).value;
    LastRecordOfLog(j);
    AutoCloseSimulates(j, now);
    InStepAfterClose(LogOf(j), taskLines, n, now);
    StartedLog(j, task, now);
  }

  /** After the auto-close, appending the start line gives the text of the journal with the task running. */
  lemma StartedLog(j: Log, task: string, now: CalendarTime)
    requires GoodLog(j) && GoodTask(task) && ClockTime(now)
    ensures GoodLog(JournalIn(j, Success(task), now))
    ensures LogOf(JournalIn(j, Success(task), now))
         == Some(Render(CloseRunning(j, now)) + InRecord(task, now))
  {
    CloseRunningText(j, now);
    StartRunningText(CloseRunning(j, now), task, now);
  }

  lemma StartRunningText(k: Log, task: string, now: CalendarTime)
    requires GoodLog(k) && k.running.None? && GoodTask(task) && ClockTime(now)
    ensures GoodLog(Log(k.closed, Some(Running(task, now))))
    ensures Render(Log(k.closed, Some(Running(task, now)))) == Render(k) + InRecord(task, now)
  {
    var text := ClosedText(k.closed);
    assert Render(k) == text + [];
    assert text + [] == text;
  }

  /** The auto-close `add_in_line` starts with, on a rendered journal, finishes the running record. */
  lemma AutoCloseSimulates(j: Log, now: CalendarTime)
    requires GoodLog(j) && ClockTime(now)
    ensures GoodLog(CloseRunning(j, now))
    ensures AutoClose(LogOf(j), now)
      == Step(LogOf(CloseRunning(j, now)), if j.running.Some? then [StopMessage(j.running.value.task)] else [], Pass)
    ensures Contents(LogOf(CloseRunning(j, now))) == Render(CloseRunning(j, now))
  {
    OutSimulates(j, now);
    CloseRunningText(j, now);
  }

  /** `execute_wh` on a rendered journal: the running task and its minutes so far, or that none is active. */
  lemma WhatOfLog(j: Log, now: CalendarTime)
    requires GoodLog(j) && ClockTime(now)
    ensures j.running.Some? ==>
      WhatMessage(LogOf(j), now) == Success(ActiveMessage(j.running.value.task, MinutesBetween(j.running.value.start, now)))
    ensures j.running.None? ==> WhatMessage(LogOf(j), now) == Success(IdleMessage())
  {
    LastRecordOfLog(j);
    if j.running.Some? {
      DurationOfStamps(j.running.value.start, now);
    }
  }

  /** A command as the tool receives it, with the clock reading it runs at. */
  datatype Command = In(taskLines: seq<string>, n: nat, now: CalendarTime) | Out(now: CalendarTime)

  /** A command whose clock reading is a real time and whose line number, if it picks a task, picks a good one. */
  predicate GoodCommand(c: Command) {
    ClockTime(c.now) && (c.In? && Lookup(c.taskLines, c.n).Success? ==> GoodTask(Lookup(c.taskLines, c.n).value))
  }

  predicate Clocked(cmds: seq<Command>) {
    forall i :: 0 <= i < |cmds| ==> ClockTime(cmds[i].now)
  }

  predicate GoodCommands(cmds: seq<Command>) {
    Clocked(cmds) && forall i :: 0 <= i < |cmds| ==> GoodCommand(cmds[i])
  }

  /** The log after the tool runs one command; a failing command leaves what it wrote. */
  function TextStep(log: Option<string>, c: Command): Option<string>
    requires ClockTime(c.now)
  {
    match c
    case In(lines, n, now) => InStep(log, lines, n, now).log
    case Out(now) =>
      var r := OutStep(log, now);
      if r.Success? then Some(r.value.text) else log
  }

  /** The journal after the same command. */
  function JournalStep(j: Log, c: Command): Log {
    match c
    case In(lines, n, now) => JournalIn(j, Lookup(lines, n), now)
    case Out(now) =>
      var r := JournalOut(j, now);
      if r.Success? then r.value else j
  }

  /** The log after the tool runs the commands in turn. */
  function RunText(log: Option<string>, cmds: seq<Command>): Option<string>
    requires Clocked(cmds)
    decreases |cmds|
  {
    if cmds == [] then log else RunText(TextStep(log, cmds[0]), cmds[1..])
  }

  /** The journal after the same commands. */
  function RunJournal(j: Log, cmds: seq<Command>): Log
    decreases |cmds|
  {
    if cmds == [] then j else RunJournal(JournalStep(j, cmds[0]), cmds[1..])
  }

  lemma StepSimulates(j: Log, c: Command)
    requires GoodLog(j) && GoodCommand(c)
    ensures GoodLog(JournalStep(j, c))
    ensures TextStep(LogOf(j), c) == LogOf(JournalStep(j, c))
  {
    match c
    case In(lines, n, now) => InSimulates(j, lines, n, now);
    case Out(now) => OutSimulates(j, now);
  }

  /** Running any commands on the text of a journal gives the text of the journal the commands produce. */
  lemma {:induction false} RunSimulates(j: Log, cmds: seq<Command>)
    requires GoodLog(j)
    requires GoodCommands(cmds)
    ensures GoodLog(RunJournal(j, cmds))
    ensures RunText(LogOf(j), cmds) == LogOf(RunJournal(j, cmds))
    decreases |cmds|
  {
    if cmds != [] {
      var c, rest := cmds[0], cmds[1..];
      GoodCommandsTail(cmds);
      StepSimulates(j, c);
      var k := JournalStep(j, c);
      RunSimulates(k, rest);
      assert RunText(LogOf(j), cmds) == RunText(TextStep(LogOf(j), c), rest);
      assert RunJournal(j, cmds) == RunJournal(k, rest);
    }
  }

  lemma GoodCommandsTail(cmds: seq<Command>)
    requires GoodCommands(cmds) && cmds != []
    ensures GoodCommand(cmds[0]) && GoodCommands(cmds[1..])
  {
    assert forall i :: 0 <= i < |cmds[1..]| ==> cmds[1..][i] == cmds[i + 1];
  }

  /**
   * The invariant the tool relies on: starting from no punch.dat, whatever
   * commands run, the last line can always be read, and every line before
   * it is a finished record of three fields.
   */
  lemma OnlyLastLineOpen(cmds: seq<Command>)
    requires GoodCommands(cmds)
    ensures LastRecord(RunText(None, cmds)).Success?
    ensures RunText(None, cmds).Some? ==>
      var lines := Lines(RunText(None, cmds).value);
      forall i :: 0 <= i < |lines| - 1 ==> |Split(Strip(lines[i]), '\t')| == 3
  {
    var empty := Log([], None);
    var j := RunJournal(empty, cmds);
    RunSimulates(empty, cmds);
    LastRecordOfLog(j);
    if LogOf(j).Some? {
      EarlierLinesClosed(j);
    }
  }

  /** In a rendered journal every line but the last is a finished record of three fields. */
  lemma EarlierLinesClosed(j: Log)
    requires GoodLog(j)
    ensures var lines := Lines(Render(j));
      forall i :: 0 <= i < |lines| - 1 ==> |Split(Strip(lines[i]), '\t')| == 3
  {
    var lines := Lines(Render(j));
    RenderLines(j);
    forall i | 0 <= i < |lines| - 1
      ensures |Split(Strip(lines[i]), '\t')| == 3
    {
      assert i < |j.closed|;
      assert lines[i] == ClosedLines(j.closed)[i];
      ClosedLinesAt(j.closed, i);
      ClosedLineRecord(j.closed[i]);
    }
  }
}
