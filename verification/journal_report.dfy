/**
 * What `report` makes of a punch.dat the tool wrote: every finished record
 * is counted, under the day it started and its task, for the minutes it
 * ran; a running record is not counted.
 */
module JournalReport {
  import opened Wrappers
  import opened PyText
  import opened TimeCodec
  import opened PunchLog
  import opened Journal
  import opened Report

  /** The entry a finished record should add to the report. */
  function ClosedEntry(c: Closed): Entry
    requires GoodClosed(c)
  {
    Entry(FormatDate(c.start), c.task, MinutesBetween(c.start, c.end))
  }

  function ClosedEntries(cs: seq<Closed>): (es: seq<Entry>)
    requires forall i :: 0 <= i < |cs| ==> GoodClosed(cs[i])
    ensures |es| == |cs|
  {
    if cs == [] then []
    else
      var c := cs[|cs| - 1];
      assert GoodClosed(c);
      ClosedEntries(cs[..|cs| - 1]) + [ClosedEntry(c)]
  }

  /**
   * Split without stripping, a finished line is its task, its start stamp
   * and its end stamp with the line break; the break does not disturb the
   * parse, which reads only the first 15 characters.
   */
  lemma ClosedLineEntry(c: Closed)
    requires GoodClosed(c)
    ensures LineEntry(ClosedLine(c)) == Success(Some(ClosedEntry(c)))
  {
    var s1, s2 := FormatStamp(c.start), FormatStamp(c.end);
    var last := s2 + "\n";
    StampText(c.start);
    StampText(c.end);
    assert ClosedLine(c) == c.task + "\t" + s1 + "\t" + last;
    assert '\t' !in last;
    SplitThree(c.task, s1, last);
    ParseOwnStamp(c.start);
    ParseFormatStamp(c.end, "\n");
  }

  /** A running line has two fields, so the report passes over it. */
  lemma RunningLineEntry(o: Running)
    requires GoodRunning(o)
    ensures LineEntry(RunningLine(o)) == Success(None)
  {
    var s1 := FormatStamp(o.start);
    StampText(o.start);
    SplitTwo(o.task, s1);
  }

  lemma {:induction false} ClosedLinesEntries(cs: seq<Closed>)
    requires forall i :: 0 <= i < |cs| ==> GoodClosed(cs[i])
    ensures Entries(ClosedLines(cs)) == Success(ClosedEntries(cs))
    decreases |cs|
  {
    if cs != [] {
      var front, c := cs[..|cs| - 1], cs[|cs| - 1];
      assert GoodClosed(c);
      ClosedLinesEntries(front);
      ClosedLineEntry(c);
      assert ClosedLines(cs) == ClosedLines(front) + [ClosedLine(c)];
      EntriesCounted(ClosedLines(front), ClosedEntries(front), ClosedLine(c), ClosedEntry(c));
    }
  }

  /** The report of a journal's punch.dat counts exactly its finished records, in order. */
  lemma ReportOfJournal(j: Log)
    requires GoodLog(j)
    ensures Entries(Lines(Render(j))) == Success(ClosedEntries(j.closed))
  {
    var closed := ClosedLines(j.closed);
    ClosedLinesEntries(j.closed);
    if j.running.Some? {
      var o := j.running.value;
      assert Lines(Render(j)) == closed + [RunningLine(o)] by {
        RenderLines(j);
      }
      RunningLineEntry(o);
      EntriesSkip(closed, RunningLine(o));
    } else {
      assert Lines(Render(j)) == closed by {
        RenderLines(j);
      }
    }
  }

  lemma EntriesCounted(lines: seq<string>, es: seq<Entry>, line: string, e: Entry)
    requires Entries(lines) == Success(es) && LineEntry(line) == Success(Some(e))
    ensures Entries(lines + [line]) == Success(es + [e])
  {
    assert (lines + [line])[..|lines|] == lines;
  }

  lemma EntriesSkip(lines: seq<string>, line: string)
    requires LineEntry(line) == Success(None)
    ensures Entries(lines + [line]) == Entries(lines)
  {
    assert (lines + [line])[..|lines|] == lines;
  }
}
