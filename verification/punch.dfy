/**
 * The `Punch` object of trunk/Punch.py: the command line it was made for,
 * the configuration dictionary `parse_config` fills, and the commands
 * `in`, `out`, `what` and `report`. The file system is a map from path to
 * text that the commands read and append to, and what they print is
 * collected in `printed`; a raised exception is the `Fail` outcome.
 */
module PunchApp {
  import opened Wrappers
  import opened Errors
  import opened PyText
  import opened TimeCodec
  import opened Tasks
  import opened PunchLog
  import opened Config
  import opened Report

  /** A file's text, or `None` when there is no file at the path. */
  function FileAt(files: map<string, string>, path: string): Option<string> {
    if path in files then Some(files[path]) else None
  }

  /** `open_punch_file`: TODO_DIR with `/punch.dat` after it, resolved; KeyError when TODO_DIR is not configured. */
  function PunchPath(dict: map<string, string>): (r: Result<string, PunchError>)
    ensures r.Failure? <==> "TODO_DIR" !in dict || Resolve(dict, dict["TODO_DIR"] + "/punch.dat").Failure?
    ensures r.Failure? ==> r.error == KeyError
  {
    if "TODO_DIR" !in dict then Failure(KeyError) else Resolve(dict, dict["TODO_DIR"] + "/punch.dat")
  }

  /** `open_todo`: the resolved TODO_FILE. */
  function TodoPath(dict: map<string, string>): (r: Result<string, PunchError>)
    ensures r.Failure? ==> r.error == KeyError
  {
    if "TODO_FILE" !in dict then Failure(KeyError) else Resolve(dict, dict["TODO_FILE"])
  }

  /** `open_file`: a file named on the command line, in TODO_DIR. */
  function NamedPath(dict: map<string, string>, name: string): (r: Result<string, PunchError>)
    ensures r.Failure? ==> r.error == KeyError
  {
    if "TODO_DIR" !in dict then Failure(KeyError) else Resolve(dict, dict["TODO_DIR"] + "/" + name)
  }

  /** Applies the log a step leaves to the files: written when there is one, untouched otherwise. */
  function Store(files: map<string, string>, path: string, log: Option<string>): map<string, string> {
    if log.Some? then files[path := log.value] else files
  }

  lemma StoreTwice(files: map<string, string>, path: string, log: Option<string>, text: string)
    ensures Store(files, path, log)[path := text] == files[path := text]
  {
  }

  /**
   * The step `in` takes on punch.dat at `path` with the task file at
   * `taskPath`, read once the dangling record is closed.
   */
  function InAt(files: map<string, string>, path: string, taskPath: string, n: nat, now: CalendarTime): Step
    requires ClockTime(now) && taskPath in files
  {
    var log := FileAt(files, path);
    var taskText := if taskPath == path then Contents(AutoClose(log, now).log) else files[taskPath];
    InStep(log, Lines(taskText), n, now)
  }

  /** When punch.dat cannot be read, `in` stops before writing anything. */
  lemma InAtFails(files: map<string, string>, path: string, taskPath: string, n: nat, now: CalendarTime)
    requires ClockTime(now) && taskPath in files && LastRecord(FileAt(files, path)).Failure?
    ensures InAt(files, path, taskPath, n, now) == Step(FileAt(files, path), [], Fail(LastRecord(FileAt(files, path)).error))
    ensures Store(files, path, FileAt(files, path)) == files
  {
  }

  /** `in` in two parts: the close of a dangling record, then the lookup and the start on the files it leaves. */
  lemma InAtSplit(files: map<string, string>, path: string, taskPath: string, n: nat, now: CalendarTime)
    requires ClockTime(now) && taskPath in files && LastRecord(FileAt(files, path)).Success?
    ensures var closed := AutoClose(FileAt(files, path), now);
      var mid := Store(files, path, closed.log);
      var task := Lookup(Lines(mid[taskPath]), n);
      && taskPath in mid
      && FileAt(mid, path) == closed.log
      && (task.Failure? ==> InAt(files, path, taskPath, n, now) == Step(closed.log, closed.printed, Fail(task.error)))
      && (task.Success? ==>
            InAt(files, path, taskPath, n, now)
            == Step(Some(Contents(closed.log) + InRecord(task.value, now)), closed.printed + [StartMessage(task.value)], Pass))
  {
    var log := FileAt(files, path);
    var closed := AutoClose(log, now);
    var mid := Store(files, path, closed.log);
    var taskText := if taskPath == path then Contents(closed.log) else files[taskPath];
    assert mid[taskPath] == taskText;
    InStepAfterClose(log, Lines(taskText), n, now);
  }

  /**
   * Only punch.dat is written, and only by appending: every file keeps its
   * text as a prefix, and a file that changed or appeared is the one
   * TODO_DIR's punch.dat resolves to.
   */
  predicate OnlyPunchAppended(before: map<string, string>, after: map<string, string>, dict: map<string, string>) {
    (forall q :: q in before ==> q in after && before[q] <= after[q])
    && forall q :: q in after && (q !in before || after[q] != before[q]) ==> PunchPath(dict) == Success(q)
  }

  /** What a command leaves: the files, the lines it printed, and how it ended. */
  datatype Effect = Effect(files: map<string, string>, printed: seq<string>, outcome: Outcome<PunchError>)

  /** A command that raises before touching anything. */
  function Raised(files: map<string, string>, err: PunchError): Effect {
    Effect(files, [], Fail(err))
  }

  /** `parse_config` as a value: the dictionary todo.cfg defines, or ToDoConfigNotFoundError when there is no todo.cfg. */
  function Configuration(files: map<string, string>): (r: Result<map<string, string>, PunchError>)
    ensures r.Failure? <==> "todo.cfg" !in files
    ensures r.Failure? ==> r.error == ToDoConfigNotFoundError
  {
    if "todo.cfg" in files then Success(ConfigOf(Lines(files["todo.cfg"]))) else Failure(ToDoConfigNotFoundError)
  }

  /**
   * The task file `in` reads: todo.txt (`open_todo`) after a line number
   * alone, the named file in TODO_DIR (`open_file`) after a line number and a name.
   */
  function TaskFile(dict: map<string, string>, args: seq<string>): (r: Result<string, PunchError>)
    requires |args| == 2 || |args| == 3
    ensures r.Failure? ==> r.error == KeyError
  {
    if |args| == 2 then TodoPath(dict) else NamedPath(dict, args[2])
  }

  /** The error `open_todo` or `open_file` raises when the file is not there. */
  function MissingTaskFile(args: seq<string>): PunchError {
    if |args| == 2 then ToDoFileNotFoundError else TaskFileNotFoundError
  }

  /**
   * `execute_in`: the configuration first; then one argument after `in`
   * or two, a line number that is not negative, and a task file that
   * exists; then `add_in_line`. With no argument after `in` it raises
   * PunchCommandError; with three or more it does nothing.
   */
  function InCommand(args: seq<string>, files: map<string, string>, now: CalendarTime): Effect
    requires ClockTime(now)
  {
    match Configuration(files)
    case Failure(err) => Raised(files, err)
    case Success(dict) =>
      if |args| == 1 then Raised(files, PunchCommandError)
      else if |args| != 2 && |args| != 3 then Effect(files, [], Pass)
      else if ArgLineNumber(args[1]) < 0 then Raised(files, PunchCommandError)
      else
        match TaskFile(dict, args)
        case Failure(err) => Raised(files, err)
        case Success(taskPath) =>
          if taskPath !in files then Raised(files, MissingTaskFile(args))
          else
            match PunchPath(dict)
            case Failure(err) => Raised(files, err)
            case Success(p) =>
              var s := InAt(files, p, taskPath, ArgLineNumber(args[1]), now);
              Effect(Store(files, p, s.log), s.printed, s.outcome)
  }

  /** `execute_out`: the configuration, no argument after `out`, then `add_out_line`. */
  function OutCommand(args: seq<string>, files: map<string, string>, now: CalendarTime): Effect
    requires ClockTime(now)
  {
    match Configuration(files)
    case Failure(err) => Raised(files, err)
    case Success(dict) =>
      if |args| != 1 then Raised(files, PunchCommandError)
      else
        match PunchPath(dict)
        case Failure(err) => Raised(files, err)
        case Success(p) =>
          match OutStep(FileAt(files, p), now)
          case Failure(err) => Raised(files, err)
          case Success(a) => Effect(files[p := a.text], [a.message], Pass)
  }

  /** `execute_wh`: the configuration, no argument after `what`, then the active task or that there is none. */
  function WhatCommand(args: seq<string>, files: map<string, string>, now: CalendarTime): (e: Effect)
    requires ClockTime(now)
    ensures e.files == files
    ensures e.outcome.Pass? ==> |e.printed| == 1
    ensures e.outcome.Fail? ==> e.printed == []
  {
    match Configuration(files)
    case Failure(err) => Raised(files, err)
    case Success(dict) =>
      if |args| != 1 then Raised(files, PunchCommandError)
      else
        match PunchPath(dict)
        case Failure(err) => Raised(files, err)
        case Success(p) =>
          match WhatMessage(FileAt(files, p), now)
          case Failure(err) => Raised(files, err)
          case Success(m) => Effect(files, [m], Pass)
  }

  /**
   * The lines `execute_rep` reads: punch.dat opened for reading, with
   * IOError when it is not there (`report` does not catch it).
   */
  function ReportInput(args: seq<string>, files: map<string, string>): (r: Result<seq<string>, PunchError>)
    ensures r.Failure? <==>
      Configuration(files).Failure? || |args| != 1 || PunchPath(Configuration(files).value).Failure?
      || PunchPath(Configuration(files).value).value !in files
  {
    match Configuration(files)
    case Failure(err) => Failure(err)
    case Success(dict) =>
      if |args| != 1 then Failure(PunchCommandError)
      else
        match PunchPath(dict)
        case Failure(err) => Failure(err)
        case Success(p) => if p !in files then Failure(IOError) else Success(Lines(files[p]))
  }

  /** The four commands `execute` knows, by the first argument. */
  datatype Verb = InVerb | OutVerb | WhatVerb | ReportVerb

  function VerbOf(word: string): Option<Verb> {
    if word == "in" then Some(InVerb)
    else if word == "out" then Some(OutVerb)
    else if word == "wh" || word == "what" then Some(WhatVerb)
    else if word == "report" || word == "rep" then Some(ReportVerb)
    else None
  }

  /** `in` writes nothing but punch.dat, and only appends to it. */
  lemma InOnlyAppends(args: seq<string>, files: map<string, string>, now: CalendarTime)
    requires ClockTime(now) && Configuration(files).Success?
    ensures OnlyPunchAppended(files, InCommand(args, files, now).files, Configuration(files).value)
  {
    var dict := Configuration(files).value;
    var after := InCommand(args, files, now).files;
    if after != files {
      var p := PunchPath(dict).value;
      var taskPath := TaskFile(dict, args).value;
      var s := InAt(files, p, taskPath, ArgLineNumber(args[1]), now);
      assert after == Store(files, p, s.log);
      StoreAppends(files, p, s.log, dict);
    } else {
      StoreAppends(files, "", None, dict);
    }
  }

  /** `out` writes nothing but punch.dat, and only appends to it. */
  lemma OutOnlyAppends(args: seq<string>, files: map<string, string>, now: CalendarTime)
    requires ClockTime(now) && Configuration(files).Success?
    ensures OnlyPunchAppended(files, OutCommand(args, files, now).files, Configuration(files).value)
  {
    var dict := Configuration(files).value;
    var after := OutCommand(args, files, now).files;
    if after != files {
      var p := PunchPath(dict).value;
      var a := OutStep(FileAt(files, p), now).value;
      assert after == Store(files, p, Some(a.text));
      StoreAppends(files, p, Some(a.text), dict);
    } else {
      StoreAppends(files, "", None, dict);
    }
  }

  /** Storing a log that extends punch.dat's text, or storing none, only appends to punch.dat. */
  lemma StoreAppends(files: map<string, string>, p: string, log: Option<string>, dict: map<string, string>)
    requires log.Some? ==> PunchPath(dict) == Success(p) && Contents(FileAt(files, p)) <= log.value
    ensures OnlyPunchAppended(files, Store(files, p, log), dict)
  {
  }

  class Punch {
    /** The positional arguments: the command, then its line number and task file. */
    const args: seq<string>
    /** `propDict`: the names and values read from todo.cfg. */
    var propDict: map<string, string>
    /** The files the commands see: path to text. */
    var files: map<string, string>
    /** The lines printed so far. */
    var printed: seq<string>

    constructor (args: seq<string>, files: map<string, string>)
      ensures this.args == args && this.files == files
      ensures propDict == map[] && printed == []
    {
      this.args := args;
      this.files := files;
      propDict := map[];
      printed := [];
    }

    /** This object holds what the command `e` leaves, printed after `before`, and ended as `r`. */
    ghost predicate Left(e: Effect, before: seq<string>, r: Outcome<PunchError>)
      reads this
    {
      files == e.files && printed == before + e.printed && r == e.outcome
    }

    /** `propDict` is what todo.cfg in `filesBefore` defines, or unchanged when there is no todo.cfg. */
    ghost predicate Reconfigured(filesBefore: map<string, string>, dictBefore: map<string, string>)
      reads this
    {
      match Configuration(filesBefore)
      case Success(dict) => propDict == dict
      case Failure(_) => propDict == dictBefore
    }

    /**
     * The effect of `report` on the lines `input` it reads: nothing is
     * written; a failure prints nothing; otherwise the printed lines are
     * the report of the entries those lines hold.
     */
    ghost predicate Reported(input: Result<seq<string>, PunchError>, filesBefore: map<string, string>, before: seq<string>, r: Outcome<PunchError>)
      reads this
    {
      && files == filesBefore
      && (input.Failure? ==> r == Fail(input.error) && printed == before)
      && (input.Success? && Entries(input.value).Failure? ==> r == Fail(ValueError) && printed == before)
      && (input.Success? && Entries(input.value).Success? ==>
            r == Pass
            && exists groups :: IsReportOf(groups, Entries(input.value).value) && printed == before + ReportLines(groups))
    }

    /** `execute`: the first argument picks the command; IndexError without one, PunchCommandError for an unknown one. */
    method Execute(now: CalendarTime) returns (r: Outcome<PunchError>)
      requires ClockTime(now)
      modifies this
      ensures |args| == 0 ==> r == Fail(IndexError)
      ensures |args| > 0 && VerbOf(args[0]).None? ==> r == Fail(PunchCommandError)
      ensures |args| == 0 || VerbOf(args[0]).None? ==> files == old(files) && printed == old(printed) && propDict == old(propDict)
      ensures |args| > 0 && VerbOf(args[0]).Some? ==> Reconfigured(old(files), old(propDict))
      ensures |args| > 0 && VerbOf(args[0]) == Some(InVerb) ==> Left(InCommand(args, old(files), now), old(printed), r)
      ensures |args| > 0 && VerbOf(args[0]) == Some(OutVerb) ==> Left(OutCommand(args, old(files), now), old(printed), r)
      ensures |args| > 0 && VerbOf(args[0]) == Some(WhatVerb) ==> Left(WhatCommand(args, old(files), now), old(printed), r)
      ensures |args| > 0 && VerbOf(args[0]) == Some(ReportVerb) ==> Reported(ReportInput(args, old(files)), old(files), old(printed), r)
    {
      if |args| == 0 {
        return Fail(IndexError);
      }
      var verb := VerbOf(args[0]);
      if verb.None? {
        return Fail(PunchCommandError);
      }
      match verb.value
      case InVerb => r := ExecuteIn(now);
      case OutVerb => r := ExecuteOut(now);
      case WhatVerb => r := ExecuteWhat(now);
      case ReportVerb => r := ExecuteReport();
    }

    /** `execute_in`, proved against `InCommand`. */
    method ExecuteIn(now: CalendarTime) returns (r: Outcome<PunchError>)
      requires ClockTime(now)
      modifies this
      ensures Reconfigured(old(files), old(propDict))
      ensures Left(InCommand(args, old(files), now), old(printed), r)
    {
      r := ParseConfig();
      if r.Fail? {
        return;
      }
      if |args| == 1 {
        return Fail(PunchCommandError);
      }
      if |args| == 2 || |args| == 3 {
        var n := ArgLineNumber(args[1]);
        if n < 0 {
          return Fail(PunchCommandError);
        }
        var taskPath := TaskFile(propDict, args);
        if taskPath.Failure? {
          return Fail(taskPath.error);
        }
        if taskPath.value !in files {
          return Fail(MissingTaskFile(args));
        }
        r := AddInLine(taskPath.value, n, now);
      }
    }

    /** `execute_out`, proved against `OutCommand`. */
    method ExecuteOut(now: CalendarTime) returns (r: Outcome<PunchError>)
      requires ClockTime(now)
      modifies this
      ensures Reconfigured(old(files), old(propDict))
      ensures Left(OutCommand(args, old(files), now), old(printed), r)
    {
      r := ParseConfig();
      if r.Fail? {
        return;
      }
      if |args| != 1 {
        return Fail(PunchCommandError);
      }
      r := AddOutLine(now);
    }

    /** `execute_wh`, proved against `WhatCommand`. */
    method ExecuteWhat(now: CalendarTime) returns (r: Outcome<PunchError>)
      requires ClockTime(now)
      modifies this
      ensures Reconfigured(old(files), old(propDict))
      ensures Left(WhatCommand(args, old(files), now), old(printed), r)
    {
      r := ParseConfig();
      if r.Fail? {
        return;
      }
      assert Configuration(files) == Success(propDict);
      if |args| != 1 {
        return Fail(PunchCommandError);
      }
      var path := PunchPath(propDict);
      if path.Failure? {
        return Fail(path.error);
      }
      var message := WhatMessage(FileAt(files, path.value), now);
      if message.Failure? {
        return Fail(message.error);
      }
      printed := printed + [message.value];
    }

    /**
     * `execute_rep`: the entries of punch.dat are tabulated by day and
     * task before anything is printed, then printed day by day in order.
     */
    method ExecuteReport() returns (r: Outcome<PunchError>)
      modifies this
      ensures Reconfigured(old(files), old(propDict))
      ensures Reported(ReportInput(args, old(files)), old(files), old(printed), r)
    {
      r := ParseConfig();
      if r.Fail? {
        return;
      }
      if |args| != 1 {
        return Fail(PunchCommandError);
      }
      var path := PunchPath(propDict);
      if path.Failure? {
        return Fail(path.error);
      }
      if path.value !in files {
        return Fail(IOError);
      }
      var groups := BuildReport(Lines(files[path.value]));
      if groups.Failure? {
        return Fail(groups.error);
      }
      printed := printed + ReportLines(groups.value);
    }

    /**
     * `parse_config`: ToDoConfigNotFoundError without todo.cfg; otherwise
     * the dictionary is rebuilt from todo.cfg's lines, one definition at a time.
     */
    method ParseConfig() returns (r: Outcome<PunchError>)
      modifies this
      ensures files == old(files) && printed == old(printed)
      ensures "todo.cfg" !in files ==> r == Fail(ToDoConfigNotFoundError) && propDict == old(propDict)
      ensures "todo.cfg" in files ==> r == Pass && propDict == ConfigOf(Lines(files["todo.cfg"]))
    {
      if "todo.cfg" !in files {
        return Fail(ToDoConfigNotFoundError);
      }
      var lines := Lines(files["todo.cfg"]);
      ghost var defs := Definitions(lines);
      propDict := map[];
      for i := 0 to |lines|
        invariant files == old(files) && printed == old(printed)
        invariant propDict == Assign(defs[..i])
      {
        var d := ParseConfigLine(lines[i]);
        AssignStep(defs, i);
        if d.Some? {
          propDict := propDict[d.value.name := d.value.value];
        }
      }
      assert defs[..|lines|] == defs;
      return Pass;
    }

    /**
     * `add_out_line`: the step `OutStep` on punch.dat. On success the end
     * stamp is appended and the stopped task printed; on failure nothing changes.
     */
    method AddOutLine(now: CalendarTime) returns (r: Outcome<PunchError>)
      requires ClockTime(now)
      modifies this
      ensures propDict == old(propDict)
      ensures PunchPath(propDict).Failure? ==> r == Fail(KeyError) && files == old(files) && printed == old(printed)
      ensures PunchPath(propDict).Success? ==>
        var path := PunchPath(propDict).value;
        var step := OutStep(FileAt(old(files), path), now);
        (step.Failure? ==> r == Fail(step.error) && files == old(files) && printed == old(printed))
        && (step.Success? ==>
              r == Pass && files == old(files)[path := step.value.text] && printed == old(printed) + [step.value.message])
    {
      var path := PunchPath(propDict);
      if path.Failure? {
        return Fail(path.error);
      }
      var step := OutStep(FileAt(files, path.value), now);
      if step.Failure? {
        return Fail(step.error);
      }
      files := files[path.value := step.value.text];
      printed := printed + [step.value.message];
      return Pass;
    }

    /**
     * `add_in_line` with the task file at `taskPath` already open: the
     * step `InStep` on punch.dat. The task file is read after the dangling
     * record is closed, so when it is punch.dat itself the lines include
     * that close.
     */
    method AddInLine(taskPath: string, n: nat, now: CalendarTime) returns (r: Outcome<PunchError>)
      requires ClockTime(now) && taskPath in files
      modifies this
      ensures propDict == old(propDict)
      ensures PunchPath(propDict).Failure? ==> r == Fail(KeyError) && files == old(files) && printed == old(printed)
      ensures PunchPath(propDict).Success? ==>
        var path := PunchPath(propDict).value;
        var s := InAt(old(files), path, taskPath, n, now);
        r == s.outcome && files == Store(old(files), path, s.log) && printed == old(printed) + s.printed
    {
      var path := PunchPath(propDict);
      if path.Failure? {
        return Fail(path.error);
      }
      var p := path.value;
      ghost var closed := AutoClose(FileAt(files, p), now);
      var rec := LastRecord(FileAt(files, p));
      if rec.Failure? {
        InAtFails(files, p, taskPath, n, now);
        return Fail(rec.error);
      }
      InAtSplit(files, p, taskPath, n, now);
      CloseDangling(p, now);
      ghost var task := Lookup(Lines(files[taskPath]), n);
      r := StartTask(p, taskPath, n, now);
      if task.Success? {
        StoreTwice(old(files), p, closed.log, files[p]);
        AppendAssoc(old(printed), closed.printed, [StartMessage(task.value)]);
      }
    }

    /** The start of `add_in_line`: `add_out_line` when the last record is open, nothing otherwise. */
    method CloseDangling(p: string, now: CalendarTime)
      requires ClockTime(now) && PunchPath(propDict) == Success(p) && LastRecord(FileAt(files, p)).Success?
      modifies this
      ensures propDict == old(propDict)
      ensures var closed := AutoClose(FileAt(old(files), p), now);
        files == Store(old(files), p, closed.log) && printed == old(printed) + closed.printed
    {
      ghost var log := FileAt(files, p);
      var rec := LastRecord(FileAt(files, p));
      if !RecordComplete(rec.value) {
        var _ := AddOutLine(now);
      } else if log.Some? {
        assert files[p := log.value] == files;
      }
    }

    /**
     * The rest of `add_in_line` once punch.dat holds no open record: the
     * task file is read, the task looked up, and `task<TAB>start` appended.
     */
    method StartTask(path: string, taskPath: string, n: nat, now: CalendarTime) returns (r: Outcome<PunchError>)
      requires ClockTime(now) && taskPath in files
      modifies this
      ensures propDict == old(propDict)
      ensures var task := Lookup(Lines(old(files)[taskPath]), n);
        (task.Failure? ==> r == Fail(task.error) && files == old(files) && printed == old(printed))
        && (task.Success? ==>
              r == Pass && files == old(files)[path := Contents(FileAt(old(files), path)) + InRecord(task.value, now)]
              && printed == old(printed) + [StartMessage(task.value)])
    {
      var lines := Lines(files[taskPath]);
      var task := Lookup(lines, n);
      if task.Failure? {
        return Fail(task.error);
      }
      files := files[path := Contents(FileAt(files, path)) + InRecord(task.value, now)];
      printed := printed + [StartMessage(task.value)];
      return Pass;
    }
  }
}
