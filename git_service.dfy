/** `GitService` (fds/services/git_service.py): `init`, `status`, `add` and
    `commit` of the working directory's git repository. The service keeps no
    state of its own, so its operations are methods on the threaded
    `World`. */
module GitService {
  import opened Wrappers
  import opened Host
  import opened DvcCommands

  const GitStatusCmd: Cmd := ["git", "status"]
  const GitIgnoreFile: string := ".gitignore"

  function GitAddCmd(path: string): (cmd: Cmd)
    ensures |cmd| == 3 && cmd[..2] == ["git", "add"] && cmd[2] == path
  {
    ["git", "add", path]
  }

  function GitCommitCmd(message: string): (cmd: Cmd)
    ensures |cmd| == 4 && cmd[..3] == ["git", "commit", "-am"] && cmd[3] == message
  {
    ["git", "commit", "-am", message]
  }

  /** What `init` returns and leaves behind: nothing happens when `./.git`
      exists; otherwise `pygit2.init_repository(".")` creates it, unless it
      raises. */
  function GitInitOutcome(env: Env, w: World): (r: (Result<string>, World))
    ensures r.0.Ok? <==> "./.git" in w.existing || !env.fails(InitRepository("."))
    ensures r.0.Ok? ==> r.0.value != "" && "./.git" in r.1.existing
    ensures "./.git" in w.existing ==> r.0 == Ok("git already initialized")
    ensures "./.git" !in w.existing && r.0.Ok? ==> r.0 == Ok("git initialized successfully")
    ensures r.1.log == if "./.git" in w.existing then w.log else w.log + [InitRepository(".")]
    ensures r.1.existing == if r.0.Ok? then w.existing + {"./.git"} else w.existing
  {
    if "./.git" in w.existing then (Ok("git already initialized"), w)
    else
      var w1 := w.Emit(InitRepository("."));
      if env.fails(InitRepository(".")) then (Err("git init failed"), w1)
      else (Ok("git initialized successfully"), World(w1.existing + {"./.git"}, w1.log))
  }

  method Init(env: Env, w: World) returns (res: Result<string>, w': World)
    ensures (res, w') == GitInitOutcome(env, w)
  {
    if "./.git" in w.existing {
      return Ok("git already initialized"), w;
    }
    w' := w.Emit(InitRepository("."));
    if env.fails(InitRepository(".")) {
      return Err("git init failed"), w';
    }
    w' := World(w'.existing + {"./.git"}, w'.log);
    res := Ok("git initialized successfully");
  }

  /** `status`: what `execute_command(["git", "status"])` returns, the
      finished process, or the failure it raises. */
  method Status(env: Env, w: World) returns (res: Result<Completed>, w': World)
    ensures w' == w.Emit(Exec(GitStatusCmd))
    ensures res.Err? <==> env.fails(Exec(GitStatusCmd))
    ensures res.Ok? ==> res.value == env.output(GitStatusCmd)
  {
    w' := w.Emit(Exec(GitStatusCmd));
    if env.fails(Exec(GitStatusCmd)) {
      return Err("git status failed"), w';
    }
    res := Ok(env.output(GitStatusCmd));
  }

  /** The `git add` commands `add(path)` issues when none of them fails:
      the path itself, then its `.dvc` file when that exists, then
      `.gitignore` when that exists. */
  function AddCmds(path: string, existing: set<string>): (cmds: seq<Cmd>)
    ensures |cmds| == 1 + (if path + ".dvc" in existing then 1 else 0)
                        + (if GitIgnoreFile in existing then 1 else 0)
    ensures cmds[0] == GitAddCmd(path)
    ensures path + ".dvc" in existing ==> cmds[1] == GitAddCmd(path + ".dvc")
    ensures GitIgnoreFile in existing ==> cmds[|cmds| - 1] == GitAddCmd(GitIgnoreFile)
  {
    [GitAddCmd(path)]
      + (if path + ".dvc" in existing then [GitAddCmd(path + ".dvc")] else [])
      + (if GitIgnoreFile in existing then [GitAddCmd(GitIgnoreFile)] else [])
  }

  /** `add(path)`: nothing when git ignores the path; otherwise the commands
      of `AddCmds`, stopping at the first that fails. */
  method Add(env: Env, path: string, w: World) returns (res: Result<()>, w': World)
    ensures env.gitIgnored(path) ==> res == Ok(()) && w' == w
    ensures !env.gitIgnored(path) ==>
      w' == World(w.existing, w.log + Execs(RunUntilFailure(env, AddCmds(path, w.existing)))) &&
      (res.Ok? <==> AllSucceed(env, AddCmds(path, w.existing)))
  {
    if env.gitIgnored(path) {
      return Ok(()), w;
    }
    ghost var cmds := AddCmds(path, w.existing);
    var ok;
    ok, w' := Stage(env, GitAddCmd(path), cmds, [], w.log, w);
    if !ok {
      return Err("git add failed"), w';
    }
    ghost var done := [GitAddCmd(path)];
    var dvcFile := path + ".dvc";
    if dvcFile in w.existing {
      ok, w' := Stage(env, GitAddCmd(dvcFile), cmds, done, w.log, w');
      if !ok {
        return Err("git add failed"), w';
      }
      done := done + [GitAddCmd(dvcFile)];
    }
    if GitIgnoreFile in w.existing {
      ok, w' := Stage(env, GitAddCmd(GitIgnoreFile), cmds, done, w.log, w');
      if !ok {
        return Err("git add failed"), w';
      }
      done := done + [GitAddCmd(GitIgnoreFile)];
    }
    assert done == cmds;
    res := Ok(());
  }

  /** One `execute_command(["git", "add", ...])` of `add`: `done` are the
      commands of `cmds` that already ran, all successfully, and `cmd` is
      the next one. */
  method Stage(env: Env, cmd: Cmd, ghost cmds: seq<Cmd>, ghost done: seq<Cmd>,
               ghost start: seq<Effect>, w: World) returns (ok: bool, w': World)
    requires |done| < |cmds| && done == cmds[..|done|] && cmds[|done|] == cmd
    requires AllSucceed(env, done) && w.log == start + Execs(done)
    ensures ok <==> !env.fails(Exec(cmd))
    ensures w' == World(w.existing, start + Execs(done + [cmd]))
    ensures !ok ==> RunUntilFailure(env, cmds) == done + [cmd]
    ensures ok ==> AllSucceed(env, done + [cmd]) && done + [cmd] == cmds[..|done| + 1]
  {
    w' := w.Emit(Exec(cmd));
    ok := !env.fails(Exec(cmd));
    assert Execs(done + [cmd]) == Execs(done) + [Exec(cmd)];
    assert done + [cmd] == cmds[..|done| + 1];
    if !ok {
      RunStopsAt(env, cmds, |done|);
    }
  }

  /** `commit(message)`: `git commit -am <message>`. */
  method Commit(env: Env, message: string, w: World) returns (res: Result<()>, w': World)
    ensures w' == w.Emit(Exec(GitCommitCmd(message)))
    ensures res.Err? <==> env.fails(Exec(GitCommitCmd(message)))
  {
    var cmd := ["git", "commit", "-am", message];
    w' := w.Emit(Exec(cmd));
    if env.fails(Exec(cmd)) {
      return Err("git commit failed"), w';
    }
    res := Ok(());
  }

  /** A path's `.dvc` file is staged only after the path itself was staged
      successfully, and `.gitignore` only after both. */
  lemma AddStagesInOrder(env: Env, path: string, existing: set<string>, k: int)
    requires var ran := RunUntilFailure(env, AddCmds(path, existing)); 0 < k < |ran|
    ensures var ran := RunUntilFailure(env, AddCmds(path, existing));
      ran[0] == GitAddCmd(path) && !env.fails(Exec(ran[0])) &&
      forall j :: 0 <= j < k ==> !env.fails(Exec(ran[j]))
  {
    var cmds := AddCmds(path, existing);
    var ran := RunUntilFailure(env, cmds);
    if !AllSucceed(env, cmds) {
      forall j | 0 <= j < k ensures !env.fails(Exec(ran[j])) {
        assert ran[..|ran| - 1][j] == ran[j];
      }
    } else {
      forall j | 0 <= j < k ensures !env.fails(Exec(ran[j])) {
        assert ran[j] == cmds[j];
      }
    }
  }
}
