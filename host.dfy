/** What the services see of the outside world. Everything the Python code
    does through `execute_command`, `pygit2`, `append_line_to_file`, the
    printer and the interactive prompts is recorded, in order, as an `Effect`
    in the `World`; everything it learns from outside (ignore checks, the
    user's answers, command outcomes and outputs, the working tree) is a
    field of the fixed `Env`. */
module Host {
  import opened FileTree

  /** An external command line: `["git", "add", "."]`. */
  type Cmd = seq<string>

  /** The three colours of the printer. */
  datatype Level = Success | Warn | Error

  /** The five answers of the selection prompt (`DvcChoices`). */
  datatype DvcChoice = AddDvc | AddGit | Ignore | Skip | StepInto

  datatype Effect =
    | Exec(cmd: Cmd)                              // execute_command(cmd)
    | InitRepository(path: string)                // pygit2.init_repository(path)
    | AppendLine(file: string, line: string)      // append_line_to_file(file, line)
    | Say(level: Level, text: string)             // printer.success / warn / error
    | Ask(path: string, size: nat, isDir: bool)   // the selection prompt of _get_choice
    | AskInput(prompt: string)                    // get_input_from_user(prompt)
    | AskRemote(choices: seq<string>)             // the remote prompt of _show_choice_of_remotes

  /** A finished process: `CompletedProcess(returncode, stdout, stderr)`. */
  datatype Completed = Completed(returncode: int, stdout: string, stderr: string)

  /** The state the services change: which paths exist (as `does_file_exist`
      reports them) and the effects so far. */
  datatype World = World(existing: set<string>, log: seq<Effect>)
  {
    /** Performs one effect. */
    function Emit(e: Effect): (w: World)
      ensures w.log == log + [e] && w.existing == existing
    {
      World(existing, log + [e])
    }

    /** `append_line_to_file(file, line)`: the file exists afterwards. */
    function Append(file: string, line: string): (w: World)
      ensures w.log == log + [AppendLine(file, line)] && w.existing == existing + {file}
    {
      World(existing + {file}, log + [AppendLine(file, line)])
    }
  }

  /** The answers the outside world gives. */
  datatype Env = Env(
    tree: Node,                             // the working directory "."
    threshold: nat,                         // MAX_THRESHOLD_SIZE
    gitIgnored: string -> bool,             // check_git_ignore(path) prints something
    dvcIgnored: string -> bool,             // check_dvc_ignore(path) prints something
    choose: (string, nat, bool) -> DvcChoice, // the answer to the selection prompt
    fails: Effect -> bool,                  // the effect raises (non-zero exit of execute_command)
    output: Cmd -> Completed,               // what a command prints, when its output is read
    lines: Cmd -> seq<string>,              // what a status command reports as changed
    attempt: (Cmd, nat) -> Completed,       // the n-th run of a retried network command
    input: string -> string,                // the answer to get_input_from_user(prompt)
    dvcUrlOf: string -> string,             // construct_dvc_url_from_git_url_dagshub(git_url)
    pickRemote: seq<string> -> string)      // the answer to the remote prompt

  /** Regrouping a log that grows by appends. */
  lemma Regroup<T>(a: seq<T>, b: seq<T>, c: seq<T>, d: seq<T>, e: seq<T>)
    ensures a + b + c + d + e == a + (b + c + d + e)
  {
  }
}
