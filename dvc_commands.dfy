/** The command lines `DVCService` runs, and the behaviour of its network
    operations as functions: the credential retry of `__handle_dvc_auth` and
    the choice of remote in `pull` (fds/services/dvc_service.py). */
module DvcCommands {
  import opened Wrappers
  import opened Host
  import opened Text
  import opened DvcRemotes

  const DvcInitCmd: Cmd := ["dvc", "init", "--subdir"]
  const DvcStatusCmd: Cmd := ["dvc", "status"]
  const RemoteListCmd: Cmd := ["dvc", "remote", "list"]
  const DefaultRemoteCmd: Cmd := ["dvc", "remote", "default"]
  const Unauthorized: string := "401 Unauthorized"
  const CancelPull: string := "Cancel Pull"

  /** What `init` returns and leaves behind: nothing happens when
      `./.dvc` exists; otherwise `dvc init --subdir` runs and creates it,
      unless it fails. */
  function DvcInitOutcome(env: Env, w: World): (r: (Result<string>, World))
    ensures r.0.Ok? <==> "./.dvc" in w.existing || !env.fails(Exec(DvcInitCmd))
    ensures r.0.Ok? ==> r.0.value != "" && "./.dvc" in r.1.existing
    ensures "./.dvc" in w.existing ==> r.0 == Ok("DVC already initialized")
    ensures "./.dvc" !in w.existing && r.0.Ok? ==> r.0 == Ok("DVC initialized successfully")
    ensures r.1.log == if "./.dvc" in w.existing then w.log else w.log + [Exec(DvcInitCmd)]
    ensures r.1.existing == if r.0.Ok? then w.existing + {"./.dvc"} else w.existing
  {
    if "./.dvc" in w.existing then (Ok("DVC already initialized"), w)
    else
      var w1 := w.Emit(Exec(DvcInitCmd));
      if env.fails(Exec(DvcInitCmd)) then (Err("dvc init failed"), w1)
      else (Ok("DVC initialized successfully"), World(w1.existing + {"./.dvc"}, w1.log))
  }

  /** The command of `commit`: quiet, and forced exactly when auto-confirm is on. */
  function CommitCmd(autoConfirm: bool): (cmd: Cmd)
    ensures |cmd| == if autoConfirm then 4 else 3
    ensures cmd[..3] == ["dvc", "commit", "-q"]
    ensures "-f" in cmd <==> autoConfirm
  {
    ["dvc", "commit", "-q"] + (if autoConfirm then ["-f"] else [])
  }

  /** The command of `__execute_push_command`: `-r <remote>` is passed
      exactly when the remote is a non-empty string. */
  function PushCmd(remote: string): (cmd: Cmd)
    ensures |cmd| == 4 <==> remote != ""
    ensures |cmd| == 2 <==> remote == ""
    ensures cmd[..2] == ["dvc", "push"]
    ensures remote != "" ==> cmd[2..] == ["-r", remote]
  {
    ["dvc", "push"] + (if remote != "" then ["-r", remote] else [])
  }

  /** The remote a push command names, or "" when it names none. */
  function PushedRemote(cmd: Cmd): string
  {
    if |cmd| == 4 && cmd[2] == "-r" then cmd[3] else ""
  }

  /** A push command can be read back: it names exactly the remote it was
      built for, so different remotes give different commands. */
  lemma PushCmdNamesRemote(remote: string)
    ensures PushedRemote(PushCmd(remote)) == remote
  {
    var cmd := PushCmd(remote);
    if remote != "" {
      assert cmd[2..] == ["-r", remote];
      assert cmd[2] == "-r" && cmd[3] == remote;
    }
  }

  /** The command of `pull` once a remote is known. */
  function PullCmd(remote: string): Cmd
  {
    ["dvc", "pull", "-r", remote]
  }

  function RemoteAddCmd(url: string): Cmd
  {
    ["dvc", "remote", "add", "--local", "dagshub", url]
  }

  predicate IsModify(cmd: Cmd)
  {
    |cmd| >= 3 && cmd[..3] == ["dvc", "remote", "modify"]
  }

  /** The three `dvc remote modify <remote> --local` commands of
      `__handle_dvc_auth`; the third writes the password under the `user`
      key, as line 293 does. */
  function ModifyCmds(remote: string, user: string, password: string): (cmds: seq<Cmd>)
    ensures |cmds| == 3 && forall i :: 0 <= i < 3 ==> |cmds[i]| == 7 && IsModify(cmds[i])
    ensures forall i :: 0 <= i < 3 ==> cmds[i][..5] == ["dvc", "remote", "modify", remote, "--local"]
    ensures cmds[0][5..] == ["auth", "basic"] && cmds[1][5..] == ["user", user] && cmds[2][5..] == ["user", password]
  {
    var m := ["dvc", "remote", "modify", remote, "--local"];
    [m + ["auth", "basic"], m + ["user", user], m + ["user", password]]
  }

  /** `"dagshub.com" in url.lower()`. */
  predicate OnDagshub(url: string)
  {
    Contains(Lower(url), "dagshub.com")
  }

  const AskDagshub := "Please enter your credentials, so we can pull from DAGsHub remote"
  const TokenHint := "You can navigate to https://dagshub.com/user/settings/tokens to get the token"
  const AskDvc := "Please enter your credentials, so we can pull from your dvc remote"
  const DagshubUser := "Enter your DAGsHub username"
  const DagshubToken := "Enter your DAGsHub token"
  const DvcUser := "Enter your dvc username"
  const DvcPassword := "Enter your dvc password"

  /** The prompts that collect the credentials: DAGsHub's wording for a
      remote on dagshub.com, generic wording otherwise. */
  function Prompts(dagshub: bool): (p: seq<Effect>)
  {
    if dagshub then
      [Say(Warn, AskDagshub),
       AskInput(DagshubUser),
       Say(Warn, TokenHint),
       AskInput(DagshubToken)]
    else
      [Say(Warn, AskDvc),
       AskInput(DvcUser),
       AskInput(DvcPassword)]
  }

  /** The prompts shown for `remote`, and the user name and password they
      give. */
  function Credentials(env: Env, remote: string): (r: (seq<Effect>, string, string))
    ensures r.0 == Prompts(OnDagshub(remote))
  {
    if OnDagshub(remote) then
      (Prompts(true), env.input(DagshubUser), env.input(DagshubToken))
    else
      (Prompts(false), env.input(DvcUser), env.input(DvcPassword))
  }

  function Execs(cmds: seq<Cmd>): (es: seq<Effect>)
    ensures |es| == |cmds| && forall i :: 0 <= i < |cmds| ==> es[i] == Exec(cmds[i])
  {
    if cmds == [] then [] else [Exec(cmds[0])] + Execs(cmds[1..])
  }

  predicate AllSucceed(env: Env, cmds: seq<Cmd>)
  {
    forall i :: 0 <= i < |cmds| ==> !env.fails(Exec(cmds[i]))
  }

  /** The commands of a sequence that run when each raises on failure: all
      of them when none fails, otherwise up to and including the first that
      fails. */
  function RunUntilFailure(env: Env, cmds: seq<Cmd>): (ran: seq<Cmd>)
    ensures ran <= cmds
    ensures AllSucceed(env, cmds) ==> ran == cmds
    ensures !AllSucceed(env, cmds) ==>
      ran != [] && env.fails(Exec(ran[|ran| - 1])) && AllSucceed(env, ran[..|ran| - 1])
  {
    if cmds == [] then []
    else if env.fails(Exec(cmds[0])) then [cmds[0]]
    else
      var rest := RunUntilFailure(env, cmds[1..]);
      assert forall i :: 1 <= i < |cmds| ==> cmds[i] == cmds[1..][i - 1];
      var ran := [cmds[0]] + rest;
      assert !AllSucceed(env, cmds) ==> ran[..|ran| - 1] == [cmds[0]] + rest[..|rest| - 1];
      ran
  }

  /** The run stops exactly at the first command that fails. */
  lemma RunStopsAt(env: Env, cmds: seq<Cmd>, k: int)
    requires 0 <= k < |cmds| && env.fails(Exec(cmds[k])) && AllSucceed(env, cmds[..k])
    ensures RunUntilFailure(env, cmds) == cmds[..k + 1]
  {
    var ran := RunUntilFailure(env, cmds);
    var m := |ran| - 1;
    assert ran == cmds[..m + 1];
    assert forall j :: 0 <= j < k ==> cmds[..k][j] == cmds[j];
    assert forall j :: 0 <= j < m ==> ran[..m][j] == cmds[j];
  }

  /** Whether the first run of the handler was refused as unauthorized. */
  predicate Refused(env: Env, cmd: Cmd)
  {
    Contains(env.attempt(cmd, 0).stderr, Unauthorized)
  }

  /** The credential commands `__handle_dvc_auth` issues after a refusal. */
  function AuthModifies(env: Env, remote: string): seq<Cmd>
  {
    var creds := Credentials(env, remote);
    ModifyCmds(remote, creds.1, creds.2)
  }

  /** The effects of `__handle_dvc_auth(remote, handler)` where the handler
      runs `cmd` and its n-th run returns `env.attempt(cmd, n)`: the handler;
      after a refusal, the prompts, the credential commands up to the first
      that fails and, when all three succeed, the handler once more. */
  function AuthEffects(env: Env, remote: string, cmd: Cmd): seq<Effect>
  {
    if !Refused(env, cmd) then [Exec(cmd)]
    else
      var mods := AuthModifies(env, remote);
      [Exec(cmd)] + Credentials(env, remote).0 + Execs(RunUntilFailure(env, mods)) +
      (if AllSucceed(env, mods) then [Exec(cmd)] else [])
  }

  /** What `__handle_dvc_auth` returns or raises. */
  function AuthResult(env: Env, remote: string, cmd: Cmd): Result<()>
  {
    if !Refused(env, cmd) then Ok(())
    else if !AllSucceed(env, AuthModifies(env, remote)) then Err("dvc remote modify failed")
    else if env.attempt(cmd, 1).returncode != 0 then Err("")
    else Ok(())
  }

  /** How many times an effect occurs in a log. */
  function Occurrences(log: seq<Effect>, e: Effect): nat
  {
    if log == [] then 0 else (if log[0] == e then 1 else 0) + Occurrences(log[1..], e)
  }

  lemma {:induction false} OccurrencesAppend(a: seq<Effect>, b: seq<Effect>, e: Effect)
    ensures Occurrences(a + b, e) == Occurrences(a, e) + Occurrences(b, e)
  {
    if a == [] {
      assert a + b == b;
    } else {
      assert (a + b)[1..] == a[1..] + b;
      OccurrencesAppend(a[1..], b, e);
    }
  }

  lemma {:induction false} OccurrencesAbsent(log: seq<Effect>, e: Effect)
    requires forall i :: 0 <= i < |log| ==> log[i] != e
    ensures Occurrences(log, e) == 0
  {
    if log != [] {
      OccurrencesAbsent(log[1..], e);
    }
  }

  /** The handler runs first; it runs once when that run is not refused as
      unauthorized, and never more than twice: twice exactly when the
      refusal was answered by storing all three credential settings. */
  lemma AuthAttempts(env: Env, remote: string, cmd: Cmd)
    requires !IsModify(cmd)
    ensures AuthEffects(env, remote, cmd)[0] == Exec(cmd)
    ensures Occurrences(AuthEffects(env, remote, cmd), Exec(cmd)) ==
      if Refused(env, cmd) && AllSucceed(env, AuthModifies(env, remote)) then 2 else 1
  {
    if Refused(env, cmd) {
      RefusedAttempts(env, remote, cmd);
    } else {
      assert Occurrences([Exec(cmd)], Exec(cmd)) == 1 + Occurrences([], Exec(cmd));
    }
  }

  lemma RefusedAttempts(env: Env, remote: string, cmd: Cmd)
    requires !IsModify(cmd) && Refused(env, cmd)
    ensures AuthEffects(env, remote, cmd)[0] == Exec(cmd)
    ensures Occurrences(AuthEffects(env, remote, cmd), Exec(cmd)) ==
      if AllSucceed(env, AuthModifies(env, remote)) then 2 else 1
  {
    var mods := AuthModifies(env, remote);
    var prompts := Credentials(env, remote).0;
    var execs := Execs(RunUntilFailure(env, mods));
    var tail: seq<Effect> := if AllSucceed(env, mods) then [Exec(cmd)] else [];
    assert AuthEffects(env, remote, cmd) == [Exec(cmd)] + prompts + execs + tail;
    HandlerNotAmong(env, remote, cmd);
    RetryCount(cmd, prompts, execs, tail);
  }

  lemma RetryCount(cmd: Cmd, prompts: seq<Effect>, execs: seq<Effect>, tail: seq<Effect>)
    requires forall i :: 0 <= i < |prompts| ==> prompts[i] != Exec(cmd)
    requires forall i :: 0 <= i < |execs| ==> execs[i] != Exec(cmd)
    requires tail == [] || tail == [Exec(cmd)]
    ensures Occurrences([Exec(cmd)] + prompts + execs + tail, Exec(cmd)) == 1 + |tail|
  {
    OccurrencesAbsent(prompts, Exec(cmd));
    OccurrencesAbsent(execs, Exec(cmd));
    OccurrencesAppend([Exec(cmd)], prompts, Exec(cmd));
    OccurrencesAppend([Exec(cmd)] + prompts, execs, Exec(cmd));
    OccurrencesAppend([Exec(cmd)] + prompts + execs, tail, Exec(cmd));
    assert Occurrences(tail, Exec(cmd)) == |tail|;
  }

  /** Between the two runs of the handler only prompts and credential
      commands are logged. */
  lemma HandlerNotAmong(env: Env, remote: string, cmd: Cmd)
    requires !IsModify(cmd)
    ensures var prompts := Credentials(env, remote).0;
      forall i :: 0 <= i < |prompts| ==> prompts[i] != Exec(cmd)
    ensures var execs := Execs(RunUntilFailure(env, AuthModifies(env, remote)));
      forall i :: 0 <= i < |execs| ==> execs[i] != Exec(cmd)
  {
    PromptsNotExec(env, remote);
    ModifiesNotAmong(env, AuthModifies(env, remote), cmd);
  }

  lemma PromptsNotExec(env: Env, remote: string)
    ensures var prompts := Credentials(env, remote).0;
      forall i :: 0 <= i < |prompts| ==> !prompts[i].Exec?
  {
    NoExecPrompted(OnDagshub(remote));
  }

  lemma NoExecPrompted(dagshub: bool)
    ensures forall i :: 0 <= i < |Prompts(dagshub)| ==> !Prompts(dagshub)[i].Exec?
  {
  }

  lemma ModifiesNotAmong(env: Env, mods: seq<Cmd>, cmd: Cmd)
    requires !IsModify(cmd)
    requires forall k :: 0 <= k < |mods| ==> IsModify(mods[k])
    ensures var execs := Execs(RunUntilFailure(env, mods));
      forall i :: 0 <= i < |execs| ==> execs[i] != Exec(cmd)
  {
    var ran := RunUntilFailure(env, mods);
    forall k | 0 <= k < |ran| ensures Execs(ran)[k] != Exec(cmd) {
      assert ran[k] == mods[k];
    }
  }

  /** The first remote, in dictionary order, whose URL is `url`: the `for
      remote, url in remote_list.items()` loop with its `break`. */
  function FirstWithUrl(d: seq<Remote>, url: string): (r: Option<string>)
    ensures r.None? <==> forall i :: 0 <= i < |d| ==> d[i].url != url
    ensures r.Some? ==> exists i :: 0 <= i < |d| && d[i] == Remote(r.value, url) &&
                                    forall j :: 0 <= j < i ==> d[j].url != url
  {
    if d == [] then None
    else if d[0].url == url then Some(d[0].name)
    else
      var r := FirstWithUrl(d[1..], url);
      assert forall i :: 1 <= i < |d| ==> d[i] == d[1..][i - 1];
      assert r.Some? ==> exists i :: 0 <= i < |d| && d[i] == Remote(r.value, url) &&
                                     forall j :: 0 <= j < i ==> d[j].url != url by {
        if r.Some? {
          var i :| 0 <= i < |d[1..]| && d[1..][i] == Remote(r.value, url) && forall j :: 0 <= j < i ==> d[1..][j].url != url;
          assert d[i + 1] == Remote(r.value, url) && forall j :: 0 <= j < i + 1 ==> d[j].url != url;
        }
      }
      r
  }

  /** The remotes `__get_remotes_list` reports. */
  function Listed(env: Env): seq<Remote>
  {
    Parsed(Split(env.output(RemoteListCmd).stdout, '\n'))
  }

  /** The remote-resolution part of `pull`: `Ok(Some(r))` to pull from `r`,
      `Ok(None)` when the user cancels. The condition at line 357 is always
      true, so the default remote is asked for and never used. */
  function ResolveRemote(env: Env, gitUrl: string, remoteName: Option<string>, w: World): (Result<Option<string>>, World)
  {
    if remoteName.Some? then (Ok(remoteName), w)
    else if OnDagshub(gitUrl) then
      var url := env.dvcUrlOf(gitUrl);
      var w1 := w.Emit(Exec(RemoteListCmd));
      if env.fails(Exec(RemoteListCmd)) then (Err("dvc remote list failed"), w1)
      else
        var found := FirstWithUrl(Listed(env), url);
        if found.Some? then (Ok(found), w1)
        else
          var w2 := w1.Emit(Exec(RemoteAddCmd(url)));
          if env.fails(Exec(RemoteAddCmd(url))) then (Err("dvc remote add failed"), w2)
          else (Ok(Some("dagshub")), w2)
    else
      var w1 := w.Emit(Exec(DefaultRemoteCmd));
      if env.fails(Exec(DefaultRemoteCmd)) then (Err("dvc remote default failed"), w1)
      else
        var w2 := w1.Emit(Exec(RemoteListCmd));
        if env.fails(Exec(RemoteListCmd)) then (Err("dvc remote list failed"), w2)
        else
          var choices := Keys(Listed(env)) + [CancelPull];
          var pick := env.pickRemote(choices);
          var w3 := w2.Emit(AskRemote(choices));
          (if pick in Keys(Listed(env)) then Ok(Some(pick)) else Ok(None), w3)
  }

  /** The result of `pull`: 0 when the user cancels, nothing otherwise. */
  datatype PullEnd = Cancelled | Pulled

  function PullOutcome(env: Env, gitUrl: string, remoteName: Option<string>, w: World): (Result<PullEnd>, World)
  {
    var w0 := w.Emit(Say(Warn, "Staring DVC Clone..."));
    var resolved := ResolveRemote(env, gitUrl, remoteName, w0);
    var w1 := resolved.1;
    match resolved.0
    case Err(m) => (Err(m), w1)
    case Ok(None) => (Ok(Cancelled), w1)
    case Ok(Some(remote)) =>
      var res := AuthResult(env, remote, PullCmd(remote));
      (if res.Err? then Err(res.message) else Ok(Pulled),
       World(w1.existing, w1.log + AuthEffects(env, remote, PullCmd(remote))))
  }

  /** A remote given by the caller is pulled from directly: nothing is
      listed, added or asked for before the pull. */
  lemma PullGivenRemote(env: Env, gitUrl: string, remote: string, w: World)
    ensures var out := PullOutcome(env, gitUrl, Some(remote), w);
      out.1.log == w.log + [Say(Warn, "Staring DVC Clone...")] + AuthEffects(env, remote, PullCmd(remote)) &&
      (out.0.Ok? <==> AuthResult(env, remote, PullCmd(remote)).Ok?)
  {
  }

  /** For a DAGsHub URL, the first listed remote with the DAGsHub storage URL
      is used; only when none has it is a `dagshub` remote added. */
  lemma PullDagshubRemote(env: Env, gitUrl: string, w: World)
    requires OnDagshub(gitUrl) && !env.fails(Exec(RemoteListCmd))
    ensures var out := ResolveRemote(env, gitUrl, None, w);
      var found := FirstWithUrl(Listed(env), env.dvcUrlOf(gitUrl));
      (found.Some? ==> out.0 == Ok(found) && out.1.log == w.log + [Exec(RemoteListCmd)]) &&
      (found.None? ==> out.1.log == w.log + [Exec(RemoteListCmd), Exec(RemoteAddCmd(env.dvcUrlOf(gitUrl)))] &&
                       (out.0.Ok? <==> !env.fails(Exec(RemoteAddCmd(env.dvcUrlOf(gitUrl))))) &&
                       (out.0.Ok? ==> out.0.value == Some("dagshub")))
  {
  }

  /** The log of a pull from a URL that is not DAGsHub's, up to the prompt
      for the remote. */
  function PickPrelude(env: Env, w: World): seq<Effect>
  {
    w.log + [Say(Warn, "Staring DVC Clone..."), Exec(DefaultRemoteCmd), Exec(RemoteListCmd),
             AskRemote(Keys(Listed(env)) + [CancelPull])]
  }

  /** Otherwise the user picks among the listed remotes and "Cancel Pull"; a
      pick that is not a listed remote ends the pull with 0 before any `dvc
      pull` runs. */
  lemma PullCancelled(env: Env, gitUrl: string, w: World)
    requires !OnDagshub(gitUrl)
    requires !env.fails(Exec(DefaultRemoteCmd)) && !env.fails(Exec(RemoteListCmd))
    requires env.pickRemote(Keys(Listed(env)) + [CancelPull]) !in Keys(Listed(env))
    ensures PullOutcome(env, gitUrl, None, w) == (Ok(Cancelled), World(w.existing, PickPrelude(env, w)))
  {
    var w0 := w.Emit(Say(Warn, "Staring DVC Clone..."));
    var r := ResolveRemote(env, gitUrl, None, w0);
    assert r.0 == Ok(None);
    assert r.1 == World(w.existing, PickPrelude(env, w));
  }

  /** A pick that is a listed remote is pulled from. */
  lemma PullPicked(env: Env, gitUrl: string, w: World)
    requires !OnDagshub(gitUrl)
    requires !env.fails(Exec(DefaultRemoteCmd)) && !env.fails(Exec(RemoteListCmd))
    requires env.pickRemote(Keys(Listed(env)) + [CancelPull]) in Keys(Listed(env))
    ensures var pick := env.pickRemote(Keys(Listed(env)) + [CancelPull]);
      PullOutcome(env, gitUrl, None, w).1.log == PickPrelude(env, w) + AuthEffects(env, pick, PullCmd(pick))
  {
  }

  /** What `dvc remote default` prints never matters: two worlds that differ
      only in that output pull the same way. */
  lemma PullIgnoresDefaultRemote(env: Env, env': Env, gitUrl: string, remoteName: Option<string>, w: World)
    requires env' == env.(output := env'.output)
    requires forall c :: c != DefaultRemoteCmd ==> env'.output(c) == env.output(c)
    ensures PullOutcome(env', gitUrl, remoteName, w) == PullOutcome(env, gitUrl, remoteName, w)
  {
    var w0 := w.Emit(Say(Warn, "Staring DVC Clone..."));
    assert RemoteListCmd[2] != DefaultRemoteCmd[2];
    assert Listed(env') == Listed(env);
    assert ResolveRemote(env', gitUrl, remoteName, w0) == ResolveRemote(env, gitUrl, remoteName, w0);
    forall remote: string
      ensures AuthEffects(env', remote, PullCmd(remote)) == AuthEffects(env, remote, PullCmd(remote))
      ensures AuthResult(env', remote, PullCmd(remote)) == AuthResult(env, remote, PullCmd(remote))
    {
      AuthSameAnswers(env', env, remote, PullCmd(remote));
    }
  }

  /** The credential retry only looks at the handler's runs, the user's
      answers and which commands fail. */
  lemma AuthSameAnswers(e1: Env, e2: Env, remote: string, cmd: Cmd)
    requires e1.attempt == e2.attempt && e1.input == e2.input && e1.fails == e2.fails
    ensures AuthEffects(e1, remote, cmd) == AuthEffects(e2, remote, cmd)
    ensures AuthResult(e1, remote, cmd) == AuthResult(e2, remote, cmd)
  {
    assert Credentials(e1, remote) == Credentials(e2, remote);
    var mods := AuthModifies(e1, remote);
    assert AuthModifies(e2, remote) == mods;
    RunSameFailures(e1, e2, mods);
    assert AllSucceed(e1, mods) == AllSucceed(e2, mods);
  }

  lemma {:induction false} RunSameFailures(e1: Env, e2: Env, cmds: seq<Cmd>)
    requires e1.fails == e2.fails
    ensures RunUntilFailure(e1, cmds) == RunUntilFailure(e2, cmds)
  {
    if cmds != [] {
      RunSameFailures(e1, e2, cmds[1..]);
    }
  }
}
