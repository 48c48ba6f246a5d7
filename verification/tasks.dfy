/**
 * Picking a task by its line number in todo.txt or a named task file
 * (`add_in_line` and the argument checks of `execute_in` in trunk/Punch.py).
 */
module Tasks {
  import opened Wrappers
  import opened Errors
  import opened PyText
  import opened Numerals

  /**
   * The line with the given number, stripped, after a guard that refuses
   * only numbers past the last line.
   * Numbers count from 1; 0 passes the guard and Python's index -1 then
   * picks the last line, or raises IndexError when there is none.
   */
  function Lookup(lines: seq<string>, n: nat): (r: Result<string, PunchError>)
    ensures r.Failure? <==> n > |lines| || (n == 0 && lines == [])
    ensures r.Failure? ==> r.error == (if n > |lines| then TaskNotFoundError else IndexError)
    ensures r.Success? ==> exists i :: 0 <= i < |lines| && r.value == Strip(lines[i])
  {
    if n > |lines| then Failure(TaskNotFoundError)
    else if n == 0 then
      if lines == [] then Failure(IndexError) else Success(Strip(lines[|lines| - 1]))
    else Success(Strip(lines[n - 1]))
  }

  /** `int(arg)`, or -1 when `int` raises; `in` goes on only when this is not negative. */
  function ArgLineNumber(arg: string): (n: int)
    ensures n >= 0 <==> ParseInt(arg).Some? && ParseInt(arg).value >= 0
    ensures ParseInt(arg).None? ==> n == -1
  {
    match ParseInt(arg)
    case None => -1
    case Some(v) => v
  }

  /** A task text that survives the trip through a task file: one line, no surrounding whitespace. */
  predicate GoodLine(task: string) {
    Unpadded(task) && '\n' !in task
  }

  /** A task file holding one task per line. */
  function TaskFileText(tasks: seq<string>): (text: string)
    ensures |text| >= |tasks|
    ensures text == [] || text[|text| - 1] == '\n'
  {
    if tasks == [] then [] else TaskFileText(tasks[..|tasks| - 1]) + tasks[|tasks| - 1] + "\n"
  }

  lemma {:induction false} TaskFileLines(tasks: seq<string>)
    requires forall i :: 0 <= i < |tasks| ==> GoodLine(tasks[i])
    ensures |Lines(TaskFileText(tasks))| == |tasks|
    ensures forall i :: 0 <= i < |tasks| ==> Lines(TaskFileText(tasks))[i] == tasks[i] + "\n"
    decreases |tasks|
  {
    if tasks != [] {
      var front := tasks[..|tasks| - 1];
      TaskFileLines(front);
      TaskFileSnoc(tasks);
      SnocLines(tasks, Lines(TaskFileText(front)), Lines(TaskFileText(tasks)));
    }
  }

  /** One more task after lines that each hold one task gives lines that each hold one task. */
  lemma SnocLines(tasks: seq<string>, previous: seq<string>, lines: seq<string>)
    requires tasks != []
    requires |previous| == |tasks| - 1
    requires forall i :: 0 <= i < |tasks| - 1 ==> previous[i] == tasks[..|tasks| - 1][i] + "\n"
    requires lines == previous + [tasks[|tasks| - 1] + "\n"]
    ensures |lines| == |tasks|
    ensures forall i :: 0 <= i < |tasks| ==> lines[i] == tasks[i] + "\n"
  {
    forall i | 0 <= i < |tasks|
      ensures lines[i] == tasks[i] + "\n"
    {
      if i < |tasks| - 1 {
        assert lines[i] == previous[i];
        assert tasks[..|tasks| - 1][i] == tasks[i];
      }
    }
  }

  /** Writing one more task line adds one line to what `readlines` returns. */
  lemma TaskFileSnoc(tasks: seq<string>)
    requires tasks != [] && GoodLine(tasks[|tasks| - 1])
    ensures Lines(TaskFileText(tasks)) == Lines(TaskFileText(tasks[..|tasks| - 1])) + [tasks[|tasks| - 1] + "\n"]
  {
    var text, last := TaskFileText(tasks[..|tasks| - 1]), tasks[|tasks| - 1];
    var line := last + "\n";
    assert TaskFileText(tasks) == text + line by {
      AppendAssoc(text, last, "\n");
    }
    FullLineOf(last);
    LinesSnoc(text, line);
  }

  /**
   * Numbering a task file: `in k` on a file written one task per line
   * starts task k for 1 <= k <= the number of tasks, starts the last one for
   * k = 0, and raises TaskNotFoundError beyond the end.
   */
  lemma LookupNumbering(tasks: seq<string>, k: nat)
    requires forall i :: 0 <= i < |tasks| ==> GoodLine(tasks[i])
    ensures 1 <= k <= |tasks| ==> Lookup(Lines(TaskFileText(tasks)), k) == Success(tasks[k - 1])
    ensures k == 0 && tasks != [] ==> Lookup(Lines(TaskFileText(tasks)), k) == Success(tasks[|tasks| - 1])
    ensures k > |tasks| ==> Lookup(Lines(TaskFileText(tasks)), k) == Failure(TaskNotFoundError)
  {
    TaskFileLines(tasks);
    if 1 <= k <= |tasks| {
      StripUnpadded(tasks[k - 1]);
    }
    if k == 0 && tasks != [] {
      StripUnpadded(tasks[|tasks| - 1]);
    }
  }

  /** Every number `str(k)` with k >= 0 is accepted as a line number and means k. */
  lemma ArgLineNumberOfNumeral(k: nat)
    ensures ArgLineNumber(IntStr(k)) == k
  {
    ParseIntStr(k);
  }

  /** A line number with a minus sign is refused, as text that is not a number is. */
  lemma ArgLineNumberRefusesNegative(k: int)
    requires k < 0
    ensures ArgLineNumber(IntStr(k)) < 0
  {
    ParseIntStr(k);
  }
}
