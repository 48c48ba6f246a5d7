/**
 * The punch log, punch.dat: one record per line, fields separated by tabs,
 * `task<TAB>start<TAB>end` once finished and `task<TAB>start` while the task
 * runs. Every command reads the state from the last line only
 * (`get_last_punch_rec`, `punch_rec_complete`) and changes it by appending
 * (`add_out_line`, `add_in_line`); `execute_wh` reports the running task.
 *
 * The log is the file's text, `None` while the file does not exist.
 */
module PunchLog {
  import opened Wrappers
  import opened Errors
  import opened PyText
  import opened Numerals
  import opened TimeCodec
  import opened Tasks

  /** `punch_rec_complete`: a record is complete when it has no field or all three. */
  predicate RecordComplete(rec: seq<string>) {
    |rec| == 0 || |rec| == 3
  }

  /** The text of the log; appending to a missing file creates it empty first. */
  function Contents(log: Option<string>): string {
    if log.Some? then log.value else []
  }

  /** The last line `readlines` gives for a non-empty text. */
  function LastLine(text: string): string
    requires text != []
  {
    var lines := Lines(text);
    lines[|lines| - 1]
  }

  /**
   * `get_last_punch_rec`: the last line, stripped and split on tabs. A
   * missing file reads as no record at all; an existing empty file has no
   * last line to index, which raises IndexError.
   */
  function LastRecord(log: Option<string>): (r: Result<seq<string>, PunchError>)
    ensures log.None? ==> r == Success([])
    ensures r.Failure? <==> log == Some([])
    ensures r.Failure? ==> r.error == IndexError
    ensures r.Success? && log.Some? ==>
      |r.value| >= 1 && Join(r.value, '\t') == Strip(LastLine(log.value))
      && forall i :: 0 <= i < |r.value| ==> '\t' !in r.value[i]
  {
    match log
    case None => Success([])
    case Some(text) =>
      if text == [] then Failure(IndexError) else Success(Split(Strip(LastLine(text)), '\t'))
  }

  /** The record of a text that is one unpadded line, with or without its line break. */
  lemma LastRecordOfLine(x: string)
    requires x != [] && Unpadded(x) && '\n' !in x
    ensures LastRecord(Some(x + "\n")) == Success(Split(x, '\t'))
    ensures LastRecord(Some(x)) == Success(Split(x, '\t'))
  {
    StripUnpadded(x);
    FullLineOf(x);
    LinesOfFullLine(x + "\n");
    LinesSingle(x);
  }

  /** What `add_out_line` appends: a tab, the end stamp, the line break. */
  function OutRecord(now: CalendarTime): string
    requires ValidTime(now)
  {
    "\t" + FormatStamp(now) + "\n"
  }

  /** What `add_in_line` appends: the task, a tab, the start stamp, and no line break. */
  function InRecord(task: string, now: CalendarTime): string
    requires ValidTime(now)
  {
    task + "\t" + FormatStamp(now)
  }

  function StopMessage(task: string): string {
    "Stop timer on: " + task
  }

  function StartMessage(task: string): string {
    "Start timer on: " + task
  }

  function ActiveMessage(task: string, minutes: int): string {
    "Active task: " + task + " " + FormatMinutes(minutes)
  }

  function IdleMessage(): string {
    "No task is active."
  }

  /** A successful append: the log's new text and the line printed. */
  datatype Appended = Appended(text: string, message: string)

  /**
   * `add_out_line`: NoOpenTaskError, with nothing written, when the last
   * record is complete; otherwise the end stamp is appended to the log and
   * the task of the record it closes is announced.
   */
  function OutStep(log: Option<string>, now: CalendarTime): (r: Result<Appended, PunchError>)
    requires ClockTime(now)
    ensures r.Success? <==> LastRecord(log).Success? && !RecordComplete(LastRecord(log).value)
    ensures r.Failure? && LastRecord(log).Success? ==> r.error == NoOpenTaskError
    ensures r.Failure? && LastRecord(log).Failure? ==> r.error == LastRecord(log).error
    ensures r.Success? ==> log.Some? && r.value.text == log.value + OutRecord(now)
    ensures r.Success? ==> r.value.message == StopMessage(LastRecord(log).value[0])
  {
    match LastRecord(log)
    case Failure(e) => Failure(e)
    case Success(rec) =>
      if RecordComplete(rec) then Failure(NoOpenTaskError)
      else Success(Appended(Contents(log) + OutRecord(now), StopMessage(rec[0])))
  }

  predicate EndsWith(s: string, suffix: string) {
    |suffix| <= |s| && s[|s| - |suffix|..] == suffix
  }

  /** The log, the lines printed and the outcome after a command. */
  datatype Step = Step(log: Option<string>, printed: seq<string>, outcome: Outcome<PunchError>)

  /**
   * `add_in_line` with the task file's lines: first the dangling record, if
   * any, is closed exactly as `out` would close it; only then is the line
   * number looked up; then `task<TAB>start` is appended. The close stays
   * written when the lookup fails.
   */
  function InStep(log: Option<string>, taskLines: seq<string>, n: nat, now: CalendarTime): (s: Step)
    requires ClockTime(now)
    ensures LastRecord(log).Failure? ==> s == Step(log, [], Fail(LastRecord(log).error))
    ensures s.outcome.Pass? <==> LastRecord(log).Success? && Lookup(taskLines, n).Success?
    ensures s.outcome.Fail? && LastRecord(log).Success? ==> s.outcome.error == Lookup(taskLines, n).error
    ensures Contents(log) <= Contents(s.log)
    ensures LastRecord(log).Success? && !RecordComplete(LastRecord(log).value) ==>
      Contents(log) + OutRecord(now) <= Contents(s.log)
    ensures s.outcome.Pass? ==> s.log.Some? && EndsWith(s.log.value, InRecord(Lookup(taskLines, n).value, now))
  {
    match LastRecord(log)
    case Failure(e) => Step(log, [], Fail(e))
    case Success(rec) =>
      var closed := AutoClose(log, now);
      match Lookup(taskLines, n)
      case Failure(e) => Step(closed.log, closed.printed, Fail(e))
      case Success(task) =>
        Step(Some(Contents(closed.log) + InRecord(task, now)), closed.printed + [StartMessage(task)], Pass)
  }

  /** What `in` does once the last record reads: close it if open, then look the task up and start it. */
  lemma InStepAfterClose(log: Option<string>, taskLines: seq<string>, n: nat, now: CalendarTime)
    requires ClockTime(now) && LastRecord(log).Success?
    ensures var closed := AutoClose(log, now);
      Lookup(taskLines, n).Failure? ==> InStep(log, taskLines, n, now) == Step(closed.log, closed.printed, Fail(Lookup(taskLines, n).error))
    ensures var closed := AutoClose(log, now); var task := Lookup(taskLines, n);
      task.Success? ==>
        InStep(log, taskLines, n, now) == Step(Some(Contents(closed.log) + InRecord(task.value, now)), closed.printed + [StartMessage(task.value)], Pass)
  {
  }

  /** The first step of `add_in_line`: `add_out_line` when the last record is not complete, nothing otherwise. */
  function AutoClose(log: Option<string>, now: CalendarTime): (s: Step)
    requires ClockTime(now)
  {
    var out := OutStep(log, now);
    if out.Success? then Step(Some(out.value.text), [out.value.message], Pass) else Step(log, [], Pass)
  }

  /**
   * The check of `execute_wh`: a task is active when the last record has
   * exactly two fields, and it has then run for the minutes between its
   * start and `now` (ValueError when the start does not parse).
   */
  function WhatMessage(log: Option<string>, now: CalendarTime): (r: Result<string, PunchError>)
    requires ClockTime(now)
  {
    match LastRecord(log)
    case Failure(e) => Failure(e)
    case Success(rec) =>
      if |rec| == 2 then
        match DurationInMinutes(rec[1], FormatStamp(now))
        case Failure(e) => Failure(e)
        case Success(m) => Success(ActiveMessage(rec[0], m))
      else Success(IdleMessage())
  }
}
