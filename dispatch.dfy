/** The command dispatch of dbt-coves (`handle` in dbt_coves/core/main.py):
    parse the arguments, refuse a missing command, install the traceback
    handler, load the configuration when the task needs it, switch logging to
    debug when asked, then build and run the task. The collaborators are not
    modelled: what they return is passed in, and each call is recorded as an
    event of a ghost trace. */
module Dispatch {
  import opened Wrappers

  /** A task class: its name and its `needs_config` attribute. */
  datatype TaskClass = TaskClass(name: string, needsConfig: bool)

  /** What `DbtCovesFlags.parse_args` leaves on the flags object. */
  datatype Flags = Flags(taskCls: Option<TaskClass>, logLevel: Option<string>)

  /** The calls `handle` makes to its collaborators. */
  datatype Event =
    | ParseArgs(cliArgs: seq<string>)
    | InstallTraceback
    | ConstructConfig
    | LoadConfig
    | SetDebug
    | Instantiate(task: TaskClass, withConfig: bool)
    | Run(task: TaskClass)

  /** What `get_instance(...).run()` does: return an exit code or raise. */
  datatype TaskOutcome = Returned(code: int) | Raised(reason: string)

  /** The exceptions that leave `handle`. */
  datatype HandleError =
    | MissingCommand
    | ConfigError(reason: string)
    | TaskError(reason: string)

  /** The process-wide logging state that `set_debug` switches. */
  class LogManager {
    var debug: bool

    constructor ()
      ensures !debug
    {
      debug := false;
    }
  }

  /** The position of each kind of call in `handle`'s fixed order. */
  function Rank(e: Event): nat
  {
    match e
    case ParseArgs(_) => 0
    case InstallTraceback => 1
    case ConstructConfig => 2
    case LoadConfig => 3
    case SetDebug => 4
    case Instantiate(_, _) => 5
    case Run(_) => 6
  }

  ghost predicate InOrder(trace: seq<Event>)
  {
    forall i, j :: 0 <= i < j < |trace| ==> Rank(trace[i]) < Rank(trace[j])
  }

  /** What `handle` returns or raises, and the calls it makes, given what
      parsing produced, what `load_config` does and what the task does.
      This is the reference the lemmas below reason about; `Handle` is proved
      to agree with it. */
  function HandleSpec(cliArgs: seq<string>, flags: Flags, load: Outcome<string>, task: TaskOutcome)
    : (r: (Result<int, HandleError>, seq<Event>))
    ensures |r.1| >= 1 && r.1[0] == ParseArgs(cliArgs)
    ensures r.0 == Failure(MissingCommand) <==> flags.taskCls.None?
    ensures r.0.Failure? && r.0.error.ConfigError? <==>
      flags.taskCls.Some? && flags.taskCls.value.needsConfig && load.Fail?
    ensures flags.taskCls.Some? && flags.taskCls.value.needsConfig && load.Fail? ==>
      r.0 == Failure(ConfigError(load.error))
    ensures flags.taskCls.Some? && (flags.taskCls.value.needsConfig ==> load.Pass?) && task.Raised? ==>
      r.0 == Failure(TaskError(task.reason))
  {
    var parsed := [ParseArgs(cliArgs)];
    match flags.taskCls
    case None => (Failure(MissingCommand), parsed)
    case Some(cls) =>
      var installed := parsed + [InstallTraceback];
      if cls.needsConfig && load.Fail? then
        (Failure(ConfigError(load.error)), installed + [ConstructConfig, LoadConfig])
      else
        var configured := if cls.needsConfig then installed + [ConstructConfig, LoadConfig] else installed;
        var logged := if flags.logLevel == Some("debug") then configured + [SetDebug] else configured;
        var ran := logged + [Instantiate(cls, cls.needsConfig), Run(cls)];
        match task
        case Returned(code) => (Success(code), ran)
        case Raised(reason) => (Failure(TaskError(reason)), ran)
  }

  /** `handle(parser, cli_args)`. */
  method Handle(cliArgs: seq<string>, flags: Flags, load: Outcome<string>, task: TaskOutcome, log: LogManager)
    returns (r: Result<int, HandleError>, ghost trace: seq<Event>)
    modifies log
    ensures (r, trace) == HandleSpec(cliArgs, flags, load, task)
    ensures log.debug == (old(log.debug) || SetDebug in trace)
  {
    trace := [ParseArgs(cliArgs)];
    if flags.taskCls.None? {
      return Failure(MissingCommand), trace;
    }
    var cls := flags.taskCls.value;
    trace := trace + [InstallTraceback];
    if cls.needsConfig {
      trace := trace + [ConstructConfig, LoadConfig];
      if load.Fail? {
        return Failure(ConfigError(load.error)), trace;
      }
    }
    if flags.logLevel == Some("debug") {
      log.debug := true;
      trace := trace + [SetDebug];
    }
    trace := trace + [Instantiate(cls, cls.needsConfig), Run(cls)];
    match task
    case Returned(code) =>
      r := Success(code);
    case Raised(reason) =>
      r := Failure(TaskError(reason));
  }

  /** No task class: `handle` raises after parsing and makes no other call. */
  lemma MissingTaskRaisesFirst(cliArgs: seq<string>, flags: Flags, load: Outcome<string>, task: TaskOutcome)
    requires flags.taskCls.None?
    ensures HandleSpec(cliArgs, flags, load, task) == (Failure(MissingCommand), [ParseArgs(cliArgs)])
  {
  }

  /** The configuration is constructed and loaded exactly when the task needs it;
      a task that does not need it is built without one. */
  lemma ConfigLoadedIffNeeded(cliArgs: seq<string>, flags: Flags, load: Outcome<string>, task: TaskOutcome)
    requires flags.taskCls.Some?
    ensures var trace := HandleSpec(cliArgs, flags, load, task).1;
      (LoadConfig in trace <==> flags.taskCls.value.needsConfig) &&
      (ConstructConfig in trace <==> flags.taskCls.value.needsConfig)
    ensures var trace := HandleSpec(cliArgs, flags, load, task).1;
      !flags.taskCls.value.needsConfig ==> Instantiate(flags.taskCls.value, false) in trace
  {
  }

  /** Debug logging is switched on exactly for the log level "debug" (compared
      case-sensitively), and only once the steps before it succeeded. */
  lemma DebugIffLevelDebug(cliArgs: seq<string>, flags: Flags, load: Outcome<string>, task: TaskOutcome)
    ensures var trace := HandleSpec(cliArgs, flags, load, task).1;
      SetDebug in trace <==>
        flags.taskCls.Some? && flags.logLevel == Some("debug") &&
        (flags.taskCls.value.needsConfig ==> load.Pass?)
  {
  }

  lemma UpperCaseDebugIgnored(cliArgs: seq<string>, cls: TaskClass, load: Outcome<string>, task: TaskOutcome)
    ensures SetDebug !in HandleSpec(cliArgs, Flags(Some(cls), Some("DEBUG")), load, task).1
  {
    DebugIffLevelDebug(cliArgs, Flags(Some(cls), Some("DEBUG")), load, task);
  }

  /** The calls happen in the fixed order parse, traceback, configuration, debug,
      instantiate, run, each at most once, starting with the parse. The
      traceback handler is always installed once there is a task class, and
      the task is always built and run once the configuration step passed;
      a failed `load_config` ends the calls there. */
  lemma {:induction false} CallsInOrder(cliArgs: seq<string>, flags: Flags, load: Outcome<string>, task: TaskOutcome)
    ensures var trace := HandleSpec(cliArgs, flags, load, task).1;
      |trace| >= 1 && trace[0] == ParseArgs(cliArgs) && InOrder(trace)
    ensures var trace := HandleSpec(cliArgs, flags, load, task).1;
      flags.taskCls.Some? ==> |trace| >= 2 && trace[1] == InstallTraceback
    ensures var trace := HandleSpec(cliArgs, flags, load, task).1;
      flags.taskCls.Some? && (flags.taskCls.value.needsConfig ==> load.Pass?) ==>
        |trace| >= 2 &&
        trace[|trace| - 2..] == [Instantiate(flags.taskCls.value, flags.taskCls.value.needsConfig), Run(flags.taskCls.value)]
    ensures var trace := HandleSpec(cliArgs, flags, load, task).1;
      flags.taskCls.Some? && flags.taskCls.value.needsConfig && load.Fail? ==>
        trace == [ParseArgs(cliArgs), InstallTraceback, ConstructConfig, LoadConfig]
  {
  }

  /** `handle` returns exactly the code that `run()` returned, and returns only
      after running the task. */
  lemma ReturnsRunResult(cliArgs: seq<string>, flags: Flags, load: Outcome<string>, task: TaskOutcome)
    ensures var (r, trace) := HandleSpec(cliArgs, flags, load, task);
      r.Success? <==>
        flags.taskCls.Some? && (flags.taskCls.value.needsConfig ==> load.Pass?) && task.Returned?
    ensures var (r, trace) := HandleSpec(cliArgs, flags, load, task);
      r.Success? ==> r.value == task.code && Run(flags.taskCls.value) in trace
  {
  }
}
