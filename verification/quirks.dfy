/**
 * Behaviours of trunk/Punch.py outside the journal's good cases, kept as the
 * code has them: the state is whatever the last line splits into, so task
 * texts that are blank or hold a tab, and hand-edited last lines, read back
 * as a different number of fields than the tool wrote.
 */
module Quirks {
  import opened Wrappers
  import opened Errors
  import opened PyText
  import opened TimeCodec
  import opened Tasks
  import opened PunchLog
  import opened Journal

  /** A last line of one field: `out` takes it as a running task, `what` does not. */
  lemma OneFieldLine(x: string, now: CalendarTime)
    requires GoodTask(x) && ClockTime(now)
    ensures LastRecord(Some(x)) == Success([x])
    ensures OutStep(Some(x), now) == Success(Appended(x + OutRecord(now), StopMessage(x)))
    ensures WhatMessage(Some(x), now) == Success(IdleMessage())
  {
    SingleFieldRecord(x);
  }

  lemma SingleFieldRecord(x: string)
    requires x != [] && Unpadded(x) && '\n' !in x && '\t' !in x
    ensures LastRecord(Some(x)) == Success([x])
  {
    assert LastLine(x) == x by {
      LinesSingle(x);
    }
    assert Strip(x) == x by {
      StripUnpadded(x);
    }
    SplitNone(x, '\t');
  }

  /** Stripping a text that is one leading tab before an unpadded string. */
  lemma StripAfterTab(t: string)
    requires |t| >= 2 && t[0] == '\t' && Unpadded(t[1..])
    ensures Strip(t) == t[1..]
  {
    var y := t[1..];
    assert LStrip(t) == LStrip(y) == y;
    StripUnpadded(y);
  }

  /** Stripping a line that is one leading tab before an unpadded string, then a line break. */
  lemma StripAfterTabLine(t: string)
    requires |t| >= 3 && t[0] == '\t' && t[|t| - 1] == '\n' && Unpadded(t[1..|t| - 1])
    ensures Strip(t) == t[1..|t| - 1]
  {
    var y := t[1..|t| - 1];
    assert t[1..] == y + "\n";
    assert LStrip(t) == LStrip(y + "\n");
    StripUnpadded(y);
  }

  /**
   * A blank line in the task file starts a record with an empty task. Its
   * line then starts with the tab, which `strip` removes, so the start stamp
   * is read as the task, and after `out` the record still has only two
   * fields: the tool goes on taking the task as running.
   */
  lemma BlankTaskNeverFinishes(start: CalendarTime, end: CalendarTime)
    requires ClockTime(start) && ClockTime(end)
    ensures InStep(None, ["\n"], 1, start) == Step(Some(InRecord("", start)), [StartMessage("")], Pass)
    ensures LastRecord(Some(InRecord("", start))) == Success([FormatStamp(start)])
    ensures OutStep(Some(InRecord("", start)), end)
         == Success(Appended(ClosedLine(Closed("", start, end)), StopMessage(FormatStamp(start))))
    ensures LastRecord(Some(ClosedLine(Closed("", start, end)))) == Success([FormatStamp(start), FormatStamp(end)])
    ensures !RecordComplete([FormatStamp(start), FormatStamp(end)])
  {
    BlankTaskStep(start);
    BlankTaskStarted(start);
    BlankTaskStopped(start, end);
    BlankTaskFinished(start, end);
  }

  lemma BlankTaskStep(start: CalendarTime)
    requires ClockTime(start)
    ensures InStep(None, ["\n"], 1, start) == Step(Some(InRecord("", start)), [StartMessage("")], Pass)
  {
    BlankLineIsEmptyTask();
    assert AutoClose(None, start) == Step(None, [], Pass);
  }

  lemma BlankTaskStopped(start: CalendarTime, end: CalendarTime)
    requires ClockTime(start) && ClockTime(end)
    ensures OutStep(Some(InRecord("", start)), end)
         == Success(Appended(ClosedLine(Closed("", start, end)), StopMessage(FormatStamp(start))))
  {
    BlankTaskStarted(start);
    assert InRecord("", start) + OutRecord(end) == ClosedLine(Closed("", start, end));
  }

  lemma BlankLineIsEmptyTask()
    ensures Lookup(["\n"], 1) == Success("")
  {
    StripUnpadded([]);
    assert [] + "\n" == "\n";
  }

  lemma BlankTaskStarted(start: CalendarTime)
    requires ClockTime(start)
    ensures LastRecord(Some(InRecord("", start))) == Success([FormatStamp(start)])
  {
    var s1 := FormatStamp(start);
    StampText(start);
    assert InRecord("", start) == "\t" + s1;
    RunningRecordAfterTab(s1);
    SplitNone(s1, '\t');
  }

  lemma BlankTaskFinished(start: CalendarTime, end: CalendarTime)
    requires ClockTime(start) && ClockTime(end)
    ensures LastRecord(Some(ClosedLine(Closed("", start, end)))) == Success([FormatStamp(start), FormatStamp(end)])
  {
    var s1, s2 := FormatStamp(start), FormatStamp(end);
    StampText(start);
    StampText(end);
    var y := s1 + "\t" + s2;
    assert ClosedLine(Closed("", start, end)) == "\t" + y + "\n";
    assert y[0] == s1[0] && y[|y| - 1] == s2[|s2| - 1];
    assert '\n' !in y;
    ClosedRecordAfterTab(y);
    SplitTwo(s1, s2);
  }

  /** The record of a finished line that starts with a tab: `strip` drops the tab with the line break. */
  lemma ClosedRecordAfterTab(y: string)
    requires y != [] && Unpadded(y) && '\n' !in y
    ensures LastRecord(Some("\t" + y + "\n")) == Success(Split(y, '\t'))
  {
    var started := "\t" + y;
    var line := started + "\n";
    assert line[1..|line| - 1] == y;
    StripAfterTabLine(line);
    assert '\n' !in started;
    FullLineOf(started);
    LinesOfFullLine(line);
  }

  /** The record of an open line that starts with a tab. */
  lemma RunningRecordAfterTab(y: string)
    requires y != [] && Unpadded(y) && '\n' !in y
    ensures LastRecord(Some("\t" + y)) == Success(Split(y, '\t'))
  {
    var started := "\t" + y;
    assert started[1..] == y;
    StripAfterTab(started);
    assert '\n' !in started;
    LinesSingle(started);
  }

  /**
   * A task text holding a tab splits into two fields, so its finished
   * record has four: `out` takes it as still running and `what` as idle.
   */
  lemma TabbedTaskNeverFinishes(a: string, b: string, start: CalendarTime, end: CalendarTime)
    requires GoodTask(a) && GoodTask(b) && ClockTime(start) && ClockTime(end)
    ensures var line := ClosedLine(Closed(a + "\t" + b, start, end));
      LastRecord(Some(line)) == Success([a, b, FormatStamp(start), FormatStamp(end)])
      && !RecordComplete(LastRecord(Some(line)).value)
      && WhatMessage(Some(line), end) == Success(IdleMessage())
  {
    TabbedTaskRecord(a, b, start, end);
  }

  lemma TabbedTaskRecord(a: string, b: string, start: CalendarTime, end: CalendarTime)
    requires GoodTask(a) && GoodTask(b) && ClockTime(start) && ClockTime(end)
    ensures LastRecord(Some(ClosedLine(Closed(a + "\t" + b, start, end)))) == Success([a, b, FormatStamp(start), FormatStamp(end)])
  {
    var s1, s2 := FormatStamp(start), FormatStamp(end);
    StampText(start);
    StampText(end);
    var x := a + "\t" + b + "\t" + s1 + "\t" + s2;
    assert ClosedLine(Closed(a + "\t" + b, start, end)) == x + "\n";
    assert x[0] == a[0] && x[|x| - 1] == s2[|s2| - 1];
    assert '\n' !in x;
    LastRecordOfLine(x);
    SplitFour(a, b, s1, s2);
  }

  /** A line number 0 passes the range check and starts the last task of the file. */
  lemma LineZeroPicksLast(tasks: seq<string>)
    requires tasks != [] && forall i :: 0 <= i < |tasks| ==> GoodLine(tasks[i])
    ensures Lookup(Lines(TaskFileText(tasks)), 0) == Success(tasks[|tasks| - 1])
  {
    LookupNumbering(tasks, 0);
  }

  /** An existing but empty punch.dat makes every command that reads the state raise IndexError. */
  lemma EmptyLogRaises(taskLines: seq<string>, n: nat, now: CalendarTime)
    requires ClockTime(now)
    ensures OutStep(Some([]), now) == Failure(IndexError)
    ensures InStep(Some([]), taskLines, n, now) == Step(Some([]), [], Fail(IndexError))
    ensures WhatMessage(Some([]), now) == Failure(IndexError)
  {
  }
}
