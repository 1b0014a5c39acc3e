/** `FdsService` (fds/services/fds_service.py): `fds init` and `fds status`,
    which run the git step and then the DVC step and report each with the
    printer. */
module FdsService {
  import opened Wrappers
  import opened Host
  import opened Text
  import opened DvcCommands
  import GitService
  import DvcService

  /** The two tools `status` reports on, in the order it asks them. */
  datatype Tool = Git | Dvc

  /** What `init` prints for one tool's result: Python's truth value of the
      returned string picks success or error. */
  function InitReport(tool: Tool, msg: string): (e: Effect)
    ensures e.Say? && (e.level == Success <==> msg != "") && (e.level == Error <==> msg == "")
  {
    match tool
    case Git =>
      if msg != "" then Say(Success, "Git repo initialized successfully")
      else Say(Error, "Git repo failed to initialize")
    case Dvc =>
      if msg != "" then Say(Success, "DVC repo initialized successfully")
      else Say(Error, "DVC repo failed to initialize")
  }

  /** `init` as a function of the world it starts from. A step that raises
      ends the operation with its error. */
  function FdsInit(env: Env, w: World): (Result<()>, World)
  {
    var (g, w1) := GitService.GitInitOutcome(env, w);
    if g.Err? then (Err(g.message), w1)
    else
      var w2 := w1.Emit(InitReport(Git, g.value));
      var (d, w3) := DvcInitOutcome(env, w2);
      if d.Err? then (Err(d.message), w3)
      else (Ok(()), w3.Emit(InitReport(Dvc, d.value)))
  }

  const GitUntracked := "Untracked git files are:"
  const DvcUntracked := "Untracked dvc files are:"
  const GitClean := "Git repo clean"
  const DvcClean := "DVC repo clean"
  const GitStatusFailed := "Git status failed to execute"
  const DvcStatusFailed := "DVC status failed to execute"

  /** What a service's `status()` hands to `fds status`. As written it is the
      `CompletedProcess` that `execute_command` returns; as evidently
      intended it is the list of paths the tool reports. */
  datatype StatusValue = Process(proc: Completed) | Paths(files: seq<string>)

  /** Python's `len(v)`: a list has a length, while a `CompletedProcess` has
      no `__len__`, so `len` raises `TypeError`. */
  function Len(v: StatusValue): (r: Result<int>)
    ensures r.Ok? <==> v.Paths?
    ensures v.Paths? ==> r.value == |v.files|
  {
    match v
    case Process(_) => Err("object of type 'CompletedProcess' has no len()")
    case Paths(files) => Ok(|files|)
  }

  /** What one `try`/`except` block of `status` prints: anything raised, by
      the command or by `len`, is reported as the tool's failure. */
  function StatusReport(tool: Tool, res: Result<StatusValue>): (e: Effect)
  {
    if res.Err? then Say(Error, Failed(tool))
    else match Len(res.value)
      case Err(_) => Say(Error, Failed(tool))
      case Ok(n) =>
        if n == 0 then Say(Success, Clean(tool))
        else Say(Warn, Heading(tool) + "\n" + Join(res.value.files, '\n'))
  }

  /** The status result as written: the finished process, or the failure. */
  function StatusOf(env: Env, cmd: Cmd): Result<StatusValue>
  {
    if env.fails(Exec(cmd)) then Err("status failed") else Ok(Process(env.output(cmd)))
  }

  /** Everything `status` does as written: both tools are asked, whatever
      the first answered. */
  function StatusEffects(env: Env): seq<Effect>
  {
    [Exec(GitService.GitStatusCmd), StatusReport(Git, StatusOf(env, GitService.GitStatusCmd)),
     Exec(DvcStatusCmd), StatusReport(Dvc, StatusOf(env, DvcStatusCmd))]
  }

  /** The status result as evidently intended: the paths the tool reports as
      changed, or the failure. */
  function IntendedStatusOf(env: Env, cmd: Cmd): Result<StatusValue>
  {
    if env.fails(Exec(cmd)) then Err("status failed") else Ok(Paths(env.lines(cmd)))
  }

  /** Everything `status` evidently should do: the same commands, each
      reported from the paths the tool reports. */
  function IntendedStatusEffects(env: Env): (es: seq<Effect>)
    ensures |es| == 4 && es[0] == Exec(GitService.GitStatusCmd) && es[2] == Exec(DvcStatusCmd)
  {
    [Exec(GitService.GitStatusCmd), StatusReport(Git, IntendedStatusOf(env, GitService.GitStatusCmd)),
     Exec(DvcStatusCmd), StatusReport(Dvc, IntendedStatusOf(env, DvcStatusCmd))]
  }

  class Fds {
    const dvc: DvcService.DVCService

    constructor(dvc: DvcService.DVCService)
      ensures this.dvc == dvc
    {
      this.dvc := dvc;
    }

    /** `init`: git first, then DVC; each success is reported, and a step
        that raises stops the operation. */
    method Init(env: Env, w: World) returns (res: Result<()>, w': World)
      ensures (res, w') == FdsInit(env, w)
    {
      var msg;
      msg, w' := GitService.Init(env, w);
      if msg.Err? {
        return Err(msg.message), w';
      }
      w' := w'.Emit(if msg.value != "" then Say(Success, "Git repo initialized successfully")
                    else Say(Error, "Git repo failed to initialize"));
      assert w'.log[|w'.log| - 1] == InitReport(Git, msg.value);
      msg, w' := dvc.Init(env, w');
      if msg.Err? {
        return Err(msg.message), w';
      }
      w' := w'.Emit(if msg.value != "" then Say(Success, "DVC repo initialized successfully")
                    else Say(Error, "DVC repo failed to initialize"));
      assert w'.log[|w'.log| - 1] == InitReport(Dvc, msg.value);
      res := Ok(());
    }

    /** `status`: each tool's status is run and reported; whatever it
        raises is reported and does not stop the other tool's report. */
    method Status(env: Env, w: World) returns (w': World)
      ensures w' == World(w.existing, w.log + StatusEffects(env))
    {
      var proc;
      proc, w' := GitService.Status(env, w);
      w' := w'.Emit(StatusReport(Git, if proc.Ok? then Ok(Process(proc.value)) else Err(proc.message)));
      proc, w' := dvc.Status(env, w');
      w' := w'.Emit(StatusReport(Dvc, if proc.Ok? then Ok(Process(proc.value)) else Err(proc.message)));
    }
  }

  /** `init` never prints its failure messages: a step that does not raise
      returns a non-empty string, and a step that raises ends the
      operation before anything is printed for it. */
  lemma InitNeverReportsFailure(env: Env, w: World)
    ensures var (_, w') := FdsInit(env, w);
      |w.log| <= |w'.log| && w'.log[..|w.log|] == w.log &&
      forall i :: |w.log| <= i < |w'.log| ==> !(w'.log[i].Say? && w'.log[i].level == Error)
  {
    var (g, w1) := GitService.GitInitOutcome(env, w);
    if g.Ok? {
      var w2 := w1.Emit(InitReport(Git, g.value));
      var (d, w3) := DvcInitOutcome(env, w2);
      assert w2.log[..|w.log|] == w.log;
      if d.Ok? {
        assert w3.Emit(InitReport(Dvc, d.value)).log[..|w.log|] == w.log;
      }
    }
  }

  /** `init` succeeds exactly when neither repository needed creating or
      its creation did not raise, and afterwards both exist. The DVC step is
      not tried once the git step raised. */
  lemma InitSucceeds(env: Env, w: World)
    ensures var (res, w') := FdsInit(env, w);
      (res.Ok? <==>
        ("./.git" in w.existing || !env.fails(InitRepository("."))) &&
        ("./.dvc" in w.existing || !env.fails(Exec(DvcInitCmd)))) &&
      (res.Ok? ==> "./.git" in w'.existing && "./.dvc" in w'.existing) &&
      ("./.git" !in w.existing && env.fails(InitRepository(".")) ==>
        w'.log == w.log + [InitRepository(".")])
  {
    var (g, w1) := GitService.GitInitOutcome(env, w);
    if g.Ok? {
      var w2 := w1.Emit(InitReport(Git, g.value));
      var (d, w3) := DvcInitOutcome(env, w2);
      assert w2.existing == w1.existing;
    }
  }

  /** Running `init` again after it succeeded creates nothing and runs no
      command: it only reports both repositories once more. */
  lemma InitIdempotent(env: Env, w: World)
    requires FdsInit(env, w).0.Ok?
    ensures var w' := FdsInit(env, w).1;
      FdsInit(env, w') ==
        (Ok(()), World(w'.existing, w'.log + [Say(Success, "Git repo initialized successfully"),
                                              Say(Success, "DVC repo initialized successfully")]))
  {
    InitSucceeds(env, w);
    var w' := FdsInit(env, w).1;
    var a, b := Say(Success, "Git repo initialized successfully"), Say(Success, "DVC repo initialized successfully");
    assert w'.log + [a] + [b] == w'.log + [a, b];
  }

  /** As written, `status` reports both tools as failed whatever they
      answer: `len` of the finished process raises, and the bare `except`
      turns that into the failure message. */
  lemma StatusAlwaysReportsFailure(env: Env)
    ensures StatusEffects(env) ==
      [Exec(GitService.GitStatusCmd), Say(Error, GitStatusFailed), Exec(DvcStatusCmd), Say(Error, DvcStatusFailed)]
  {
  }

  /** A clean git repository shows the difference: `git status` succeeds and
      reports nothing, yet the code as written prints the failure where
      "Git repo clean" is intended. */
  lemma CleanRepoReportedAsFailure(env: Env)
    requires !env.fails(Exec(GitService.GitStatusCmd)) && env.lines(GitService.GitStatusCmd) == []
    ensures StatusEffects(env)[1] == Say(Error, GitStatusFailed)
    ensures IntendedStatusEffects(env)[1] == Say(Success, GitClean)
  {
  }

  /** A report is a success exactly when the tool reported no paths, a
      warning exactly when it reported some, and an error exactly when
      something raised: the command, or `len` of a value without a length. */
  lemma StatusReportLevels(tool: Tool, res: Result<StatusValue>)
    ensures var e := StatusReport(tool, res);
      e.Say? &&
      (e.level == Success <==> res == Ok(Paths([]))) &&
      (e.level == Error <==> res.Err? || res.value.Process?) &&
      (e.level == Warn <==> res.Ok? && res.value.Paths? && res.value.files != [])
  {
  }

  /** The warning lists the reported paths one per line: splitting it at
      line breaks gives back its heading and then exactly those paths, as
      long as no path itself holds a line break. */
  lemma StatusWarningListsFiles(tool: Tool, files: seq<string>)
    requires files != []
    requires forall i :: 0 <= i < |files| ==> '\n' !in files[i]
    ensures Split(StatusReport(tool, Ok(Paths(files))).text, '\n') == [Heading(tool)] + files
  {
    assert StatusReport(tool, Ok(Paths(files))).text == Heading(tool) + "\n" + Join(files, '\n');
    HeadingHasNoBreak(tool);
    SplitHeaded(Heading(tool), files);
  }

  lemma SplitHeaded(heading: string, lines: seq<string>)
    requires '\n' !in heading && lines != []
    requires forall i :: 0 <= i < |lines| ==> '\n' !in lines[i]
    ensures Split(heading + "\n" + Join(lines, '\n'), '\n') == [heading] + lines
  {
    SplitPrefix(heading, Join(lines, '\n'), '\n');
    SplitJoin(lines, '\n');
  }

  function Heading(tool: Tool): string
  {
    if tool == Git then GitUntracked else DvcUntracked
  }

  function Clean(tool: Tool): string
  {
    if tool == Git then GitClean else DvcClean
  }

  function Failed(tool: Tool): string
  {
    if tool == Git then GitStatusFailed else DvcStatusFailed
  }

  lemma HeadingHasNoBreak(tool: Tool)
    ensures '\n' !in Heading(tool)
  {
    assert forall i :: 0 <= i < |GitUntracked| ==> GitUntracked[i] != '\n';
    assert forall i :: 0 <= i < |DvcUntracked| ==> DvcUntracked[i] != '\n';
  }
}
