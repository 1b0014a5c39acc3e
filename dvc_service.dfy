/** `DVCService` of `fds/services/dvc_service.py`: the one piece of state it
    keeps between calls is the banner flag `selection_message_count`; the
    outside world is threaded through each method as a `World` value. Each
    method is proved to compute the function of module DvcTriage or
    DvcCommands that specifies it. */
module DvcService {
  import opened Wrappers
  import opened FileTree
  import opened Host
  import opened Text
  import opened DvcTriage
  import opened DvcCommands
  import opened DvcRemotes
  import Utils

  /** The entries before the iterator's position are kept; the rest are
      still to be looked at. The position may pass the end by one when the
      last entry was removed. */
  function SkipFrom(env: Env, root: string, ds: seq<Node>, i: int): seq<Node>
    requires 0 <= i <= |ds| + 1
  {
    var k := if i <= |ds| then i else |ds|;
    ds[..k] + SkipPass(env, root, ds[k..])
  }

  lemma UnexcludedStep(ds: seq<Node>, kept: seq<Node>, i: int)
    requires 0 <= i < |ds| && kept + Unexcluded(ds[i..]) == Unexcluded(ds)
    ensures (if ds[i].name in Excluded then kept else kept + [ds[i]]) + Unexcluded(ds[i + 1..])
      == Unexcluded(ds)
  {
    assert ds[i..][1..] == ds[i + 1..];
    if ds[i].name !in Excluded {
      assert (kept + [ds[i]]) + Unexcluded(ds[i + 1..]) == kept + ([ds[i]] + Unexcluded(ds[i + 1..]));
    }
  }

  lemma KeepStep(env: Env, root: string, ds: seq<Node>, i: int)
    requires 0 <= i < |ds| && !ShouldSkipListAdd(env, Slash(root, ds[i].name))
    ensures SkipFrom(env, root, ds, i + 1) == SkipFrom(env, root, ds, i)
  {
    assert ds[i..] == [ds[i]] + ds[i + 1..];
    assert ds[..i + 1] == ds[..i] + [ds[i]];
  }

  lemma RemoveStep(env: Env, root: string, ds: seq<Node>, i: int)
    requires 0 <= i < |ds| && ShouldSkipListAdd(env, Slash(root, ds[i].name))
    ensures SkipFrom(env, root, ds[..i] + ds[i + 1..], i + 1) == SkipFrom(env, root, ds, i)
  {
    var next := ds[..i] + ds[i + 1..];
    var rest := ds[i..];
    assert SkipFrom(env, root, ds, i) == ds[..i] + SkipPass(env, root, rest);
    if i + 1 < |ds| {
      assert SkipPass(env, root, rest) == [ds[i + 1]] + SkipPass(env, root, ds[i + 2..]) by {
        assert rest[0] == ds[i] && rest[2..] == ds[i + 2..] && rest[1] == ds[i + 1];
      }
      assert SkipFrom(env, root, next, i + 1) == ds[..i] + [ds[i + 1]] + SkipPass(env, root, ds[i + 2..]) by {
        assert next[..i + 1] == ds[..i] + [ds[i + 1]];
        assert next[i + 1..] == ds[i + 2..];
      }
    } else {
      assert SkipPass(env, root, rest) == [] by {
        assert rest == [ds[i]];
      }
      assert SkipFrom(env, root, next, i + 1) == ds[..i] by {
        assert next == ds[..i];
        assert next[|next|..] == [];
      }
    }
  }

  class DVCService {
    /** Whether the selection banner has been shown (0 until it is). */
    var selectionMessageCount: int

    constructor()
      ensures selectionMessageCount == 0
    {
      selectionMessageCount := 0;
    }

    /** `init`. */
    method Init(env: Env, w: World) returns (res: Result<string>, w': World)
      ensures (res, w') == DvcInitOutcome(env, w)
    {
      if "./.dvc" in w.existing {
        return Ok("DVC already initialized"), w;
      }
      w' := w.Emit(Exec(DvcInitCmd));
      if env.fails(Exec(DvcInitCmd)) {
        return Err("dvc init failed"), w';
      }
      w' := World(w'.existing + {"./.dvc"}, w'.log);
      res := Ok("DVC initialized successfully");
    }

    /** `status`: what `execute_command(["dvc", "status"])` returns, the
        finished process, or the failure it raises. */
    method Status(env: Env, w: World) returns (res: Result<Completed>, w': World)
      ensures w' == w.Emit(Exec(DvcStatusCmd))
      ensures res.Err? <==> env.fails(Exec(DvcStatusCmd))
      ensures res.Ok? ==> res.value == env.output(DvcStatusCmd)
    {
      w' := w.Emit(Exec(DvcStatusCmd));
      if env.fails(Exec(DvcStatusCmd)) {
        return Err("dvc status failed"), w';
      }
      res := Ok(env.output(DvcStatusCmd));
    }

    /** Line 197: `dirs.remove(d)` for every `d` named `.git` or `.dvc`. */
    method RemoveExcluded(dirs: seq<Node>) returns (kept: seq<Node>)
      ensures kept == Unexcluded(dirs)
    {
      kept := [];
      var i := 0;
      while i < |dirs|
        invariant 0 <= i <= |dirs|
        invariant kept + Unexcluded(dirs[i..]) == Unexcluded(dirs)
      {
        UnexcludedStep(dirs, kept, i);
        if dirs[i].name !in Excluded {
          kept := kept + [dirs[i]];
        }
        i := i + 1;
      }
    }

    /** `__skip_already_added`: `for d in dirs` with `dirs.remove(d)` inside.
        The list iterator advances by one position whether or not the entry
        at that position was removed, so the entry that slides into the
        removed one's place is never looked at. */
    method SkipAlreadyAdded(env: Env, root: string, dirs: seq<Node>) returns (dirs': seq<Node>)
      ensures dirs' == SkipPass(env, root, dirs)
    {
      dirs' := dirs;
      var i := 0;
      while i < |dirs'|
        invariant 0 <= i <= |dirs'| + 1
        invariant SkipFrom(env, root, dirs', i) == SkipPass(env, root, dirs)
        decreases |dirs'| + 1 - i
      {
        if ShouldSkipListAdd(env, Slash(root, dirs'[i].name)) {
          RemoveStep(env, root, dirs', i);
          dirs' := dirs'[..i] + dirs'[i + 1..];
        } else {
          KeepStep(env, root, dirs', i);
        }
        i := i + 1;
      }
    }

    /** `__get_to_add_to_dvc(path, dirs, ...)`: the decision for one path, the
        caller's `dirs` afterwards, and the prompt and `.gitignore` and
        `.dvcignore` lines it produces; the banner is shown before the first
        prompt of this service only. */
    method GetToAddToDvc(env: Env, path: string, n: Node, dirs: seq<Node>, w: World)
      returns (r: AddToDvc, dirs': seq<Node>, w': World)
      modifies this
      ensures var c := Classify(env, path, n);
        var st := Prompted(env, path, n, c, Walk([], [], [], old(selectionMessageCount), w));
        r == Verdict(c, path) && dirs' == (if Prunes(c) then [] else dirs) &&
        w' == st.world && selectionMessageCount == st.count
    {
      dirs', w' := dirs, w;
      if !ShouldSkipListAdd(env, path) {
        var size := Utils.EntrySize(n);
        if size < env.threshold {
          if n.Dir? {
            return AddToDvc(None, Some(path), None), dirs', w';
          }
          return AddToDvc(None, None, None), dirs', w';
        }
        if env.dvcIgnored(path) {
          return AddToDvc(None, Some(path), None), dirs', w';
        }
        if selectionMessageCount == 0 {
          selectionMessageCount := 1;
          w' := w'.Emit(Say(Warn, Banner));
        }
        w' := w'.Emit(Ask(path, size, n.Dir?));
        var answer := env.choose(path, size, n.Dir?);
        if answer == AddDvc {
          return AddToDvc(Some(path), None, None), [], w';
        } else if answer == AddGit {
          return AddToDvc(None, None, None), [], w';
        } else if answer == Skip {
          return AddToDvc(None, None, Some(path)), [], w';
        } else if answer == Ignore {
          w' := w'.Append(".gitignore", IgnoreLine(path));
          w' := w'.Append(".dvcignore", IgnoreLine(path));
          return AddToDvc(None, None, None), [], w';
        }
      }
      r := AddToDvc(None, None, None);
    }

    /** The `for file in files` loop of `__add`. */
    method ClassifyFiles(env: Env, root: string, fs: seq<Node>,
                         chosen: seq<string>, ignored: seq<string>, skipped: seq<string>, w: World)
      returns (chosen': seq<string>, ignored': seq<string>, skipped': seq<string>, w': World)
      modifies this
      ensures Walk(chosen', ignored', skipped', selectionMessageCount, w') ==
              FilesPass(env, root, fs, Walk(chosen, ignored, skipped, old(selectionMessageCount), w))
    {
      chosen', ignored', skipped', w' := chosen, ignored, skipped, w;
      var j := 0;
      while j < |fs|
        invariant 0 <= j <= |fs|
        invariant FilesPass(env, root, fs[j..], Walk(chosen', ignored', skipped', selectionMessageCount, w')) ==
                  FilesPass(env, root, fs, Walk(chosen, ignored, skipped, old(selectionMessageCount), w))
      {
        assert fs[j..][1..] == fs[j + 1..];
        var r, unused;
        r, unused, w' := GetToAddToDvc(env, Slash(root, fs[j].name), fs[j], [], w');
        if r.fileToIgnore.Some? {
          ignored' := ignored' + [r.fileToIgnore.value];
        }
        if r.fileToAdd.Some? {
          chosen' := chosen' + [r.fileToAdd.value];
        }
        if r.fileToSkip.Some? {
          skipped' := skipped' + [r.fileToSkip.value];
        }
        j := j + 1;
      }
    }

    /** One `(root, dirs, files)` of `os.walk` in `__add`: prune `dirs`,
        classify the directory, then its files when they are to be looked
        at; `kids` are the subdirectories the walk goes on with. */
    method VisitDir(env: Env, it: Item,
                    chosen: seq<string>, ignored: seq<string>, skipped: seq<string>, w: World)
      returns (chosen': seq<string>, ignored': seq<string>, skipped': seq<string>, w': World, kids: seq<Item>)
      modifies this
      ensures var res := Visit(env, it, Walk(chosen, ignored, skipped, old(selectionMessageCount), w));
        Walk(chosen', ignored', skipped', selectionMessageCount, w') == res.0 && kids == res.1
    {
      chosen', ignored', skipped' := chosen, ignored, skipped;
      var dirs := RemoveExcluded(SubDirs(ChildrenOf(it.node)));
      dirs := SkipAlreadyAdded(env, it.path, dirs);
      var r;
      r, dirs, w' := GetToAddToDvc(env, it.path, it.node, dirs, w);
      if r.fileToIgnore.Some? {
        ignored' := ignored' + [r.fileToIgnore.value];
      }
      if r.fileToAdd.Some? {
        chosen' := chosen' + [r.fileToAdd.value];
      }
      if r.fileToSkip.Some? {
        skipped' := skipped' + [r.fileToSkip.value];
      } else if it.path !in ignored' && it.path !in chosen' {
        chosen', ignored', skipped', w' :=
          ClassifyFiles(env, it.path, Files(ChildrenOf(it.node)), chosen', ignored', skipped', w');
      }
      kids := ChildItems(it.path, dirs);
    }

    /** `add` (and `__add`): walk every argument, then `dvc add` everything
        chosen in one command. */
    method Add(env: Env, args: seq<string>, w: World) returns (res: Result<DvcAdd>, w': World)
      modifies this
      ensures var out := AddOutcome(env, args, old(selectionMessageCount), w);
        res == out.0 && w' == out.1.world && selectionMessageCount == out.1.count
    {
      var chosen, ignored, skipped := [], [], [];
      w' := w;
      var roots := Roots(args);
      ghost var start := Walk([], [], [], selectionMessageCount, w);
      var k := 0;
      while k < |roots|
        invariant 0 <= k <= |roots|
        invariant WalkRoots(env, roots[k..], Walk(chosen, ignored, skipped, selectionMessageCount, w')) ==
                  WalkRoots(env, roots, start)
      {
        var p := roots[k];
        ghost var before := Walk(chosen, ignored, skipped, selectionMessageCount, w');
        assert roots[k..][1..] == roots[k + 1..];
        if IsLargeFile(env, p) {
          chosen := chosen + [p];
        }
        var n := Lookup(env.tree, p);
        if n.Some? && n.value.Dir? {
          var stack := [Item(p, n.value)];
          while stack != []
            invariant WalkList(env, stack, Walk(chosen, ignored, skipped, selectionMessageCount, w')) ==
                      WalkRoot(env, p, before)
            decreases Weight(stack)
          {
            var kids;
            chosen, ignored, skipped, w', kids := VisitDir(env, stack[0], chosen, ignored, skipped, w');
            WeightAppend(kids, stack[1..]);
            stack := kids + stack[1..];
          }
        }
        k := k + 1;
      }
      if |chosen| > 0 {
        w' := w'.Emit(Say(Warn, "Adding to dvc..."));
        w' := w'.Emit(Exec(DvcAddCmd(chosen)));
        if env.fails(Exec(DvcAddCmd(chosen))) {
          return Err("dvc add failed"), w';
        }
      }
      res := Ok(DvcAdd(chosen, skipped));
    }

    /** `commit`: `dvc commit -q`, with `-f` when auto-confirm is on. */
    method Commit(env: Env, autoConfirm: bool, w: World) returns (res: Result<()>, w': World)
      ensures w' == w.Emit(Exec(CommitCmd(autoConfirm)))
      ensures res.Err? <==> env.fails(Exec(CommitCmd(autoConfirm)))
    {
      var cmd := ["dvc", "commit", "-q"];
      if autoConfirm {
        cmd := cmd + ["-f"];
      }
      assert cmd == CommitCmd(autoConfirm);
      w' := w.Emit(Exec(cmd));
      if env.fails(Exec(cmd)) {
        return Err("dvc commit failed"), w';
      }
      res := Ok(());
    }

    /** `__execute_push_command`: the command it runs. */
    method PushCommand(remote: string) returns (cmd: Cmd)
      ensures cmd == PushCmd(remote)
    {
      cmd := ["dvc", "push"];
      if remote != "" {
        cmd := cmd + ["-r"];
        cmd := cmd + [remote];
      }
    }

    /** `__handle_dagshub_remote`: asks for the DAGsHub user name and token. */
    method HandleDagshubRemote(env: Env, w: World) returns (user: string, password: string, w': World)
      ensures user == env.input(DagshubUser)
      ensures password == env.input(DagshubToken)
      ensures w'.existing == w.existing
      ensures w'.log == w.log + [Say(Warn, AskDagshub),
                                 AskInput(DagshubUser),
                                 Say(Warn, TokenHint),
                                 AskInput(DagshubToken)]
    {
      w' := w.Emit(Say(Warn, AskDagshub));
      w' := w'.Emit(AskInput(DagshubUser));
      user := env.input(DagshubUser);
      w' := w'.Emit(Say(Warn, TokenHint));
      w' := w'.Emit(AskInput(DagshubToken));
      password := env.input(DagshubToken);
    }

    /** Lines 281-286 of `__handle_dvc_auth`: the credentials, asked with
        DAGsHub's wording when the remote is on dagshub.com. */
    method AskCredentials(env: Env, remote: string, w: World) returns (user: string, password: string, w': World)
      ensures w'.log == w.log + Credentials(env, remote).0 && w'.existing == w.existing
      ensures user == Credentials(env, remote).1 && password == Credentials(env, remote).2
    {
      if OnDagshub(remote) {
        user, password, w' := HandleDagshubRemote(env, w);
      } else {
        w' := w.Emit(Say(Warn, AskDvc));
        w' := w'.Emit(AskInput(DvcUser));
        user := env.input(DvcUser);
        w' := w'.Emit(AskInput(DvcPassword));
        password := env.input(DvcPassword);
      }
    }

    /** `__handle_dvc_auth(remote, handler)` for a handler that runs `cmd`. */
    method HandleDvcAuth(env: Env, remote: string, cmd: Cmd, w: World) returns (res: Result<()>, w': World)
      ensures res == AuthResult(env, remote, cmd)
      ensures w' == World(w.existing, w.log + AuthEffects(env, remote, cmd))
    {
      w' := w.Emit(Exec(cmd));
      var output := env.attempt(cmd, 0);
      if Contains(output.stderr, Unauthorized) {
        var user, password;
        user, password, w' := AskCredentials(env, remote, w');
        ghost var prompts := Credentials(env, remote).0;
        ghost var ran := Execs(RunUntilFailure(env, AuthModifies(env, remote)));
        assert AuthModifies(env, remote) == ModifyCmds(remote, user, password);
        var stored;
        stored, w' := StoreCredentials(env, remote, user, password, w');
        assert w'.log == w.log + [Exec(cmd)] + prompts + ran;
        if !stored {
          assert AuthEffects(env, remote, cmd) == [Exec(cmd)] + prompts + ran + [];
          Regroup(w.log, [Exec(cmd)], prompts, ran, []);
          return Err("dvc remote modify failed"), w';
        }
        w' := w'.Emit(Exec(cmd));
        assert AuthEffects(env, remote, cmd) == [Exec(cmd)] + prompts + ran + [Exec(cmd)];
        Regroup(w.log, [Exec(cmd)], prompts, ran, [Exec(cmd)]);
        output := env.attempt(cmd, 1);
        if output.returncode != 0 {
          return Err(""), w';
        }
      }
      res := Ok(());
    }

    /** Lines 287-293 of `__handle_dvc_auth`: basic authentication, the user
        name and then the password, each written with `dvc remote modify
        <remote> --local`; the password goes under the `user` key. */
    method StoreCredentials(env: Env, remote: string, user: string, password: string, w: World)
      returns (stored: bool, w': World)
      ensures stored <==> AllSucceed(env, ModifyCmds(remote, user, password))
      ensures w' == World(w.existing, w.log + Execs(RunUntilFailure(env, ModifyCmds(remote, user, password))))
    {
      var remoteModify := ["dvc", "remote", "modify", remote, "--local"];
      ghost var m := ModifyCmds(remote, user, password);
      assert m[1..][1..] == m[2..] && m[2..][1..] == [];
      w' := w.Emit(Exec(remoteModify + ["auth", "basic"]));
      if env.fails(Exec(remoteModify + ["auth", "basic"])) {
        assert RunUntilFailure(env, m) == [m[0]];
        return false, w';
      }
      w' := w'.Emit(Exec(remoteModify + ["user", user]));
      if env.fails(Exec(remoteModify + ["user", user])) {
        assert RunUntilFailure(env, m) == [m[0], m[1]];
        return false, w';
      }
      w' := w'.Emit(Exec(remoteModify + ["user", password]));
      if env.fails(Exec(remoteModify + ["user", password])) {
        assert RunUntilFailure(env, m) == [m[0], m[1], m[2]];
        return false, w';
      }
      assert AllSucceed(env, m) && RunUntilFailure(env, m) == m;
      stored := true;
    }

    /** `push`: the push command, retried once with credentials. */
    method Push(env: Env, remote: string, w: World) returns (res: Result<()>, w': World)
      ensures res == AuthResult(env, remote, PushCmd(remote))
      ensures w' == World(w.existing, w.log + AuthEffects(env, remote, PushCmd(remote)))
    {
      var cmd := PushCommand(remote);
      res, w' := HandleDvcAuth(env, remote, cmd, w);
    }

    /** `__get_remotes_list`: the remotes `dvc remote list` prints. */
    method GetRemotesList(env: Env, w: World) returns (res: Result<seq<Remote>>, w': World)
      ensures w' == w.Emit(Exec(RemoteListCmd))
      ensures res == if env.fails(Exec(RemoteListCmd)) then Err("dvc remote list failed") else Ok(Listed(env))
    {
      w' := w.Emit(Exec(RemoteListCmd));
      if env.fails(Exec(RemoteListCmd)) {
        return Err("dvc remote list failed"), w';
      }
      var lines := Split(env.output(RemoteListCmd).stdout, '\n');
      var remotes := [];
      for i := 0 to |lines|
        invariant remotes == Parsed(lines[..i])
      {
        assert lines[..i + 1][..i] == lines[..i];
        var fields := Split(lines[i], '\t');
        if |fields| == 2 {
          remotes := Put(remotes, fields[0], fields[1]);
        }
      }
      assert lines[..|lines|] == lines;
      res := Ok(remotes);
    }

    /** `pull`: find the remote to pull from, then pull with one retry on
        an authorization failure. */
    method Pull(env: Env, gitUrl: string, remoteName: Option<string>, w: World)
      returns (res: Result<PullEnd>, w': World)
      ensures (res, w') == PullOutcome(env, gitUrl, remoteName, w)
    {
      w' := w.Emit(Say(Warn, "Staring DVC Clone..."));
      var name := remoteName;
      if name.None? {
        if OnDagshub(gitUrl) {
          var dvcUrl := env.dvcUrlOf(gitUrl);
          var listed;
          listed, w' := GetRemotesList(env, w');
          if listed.Err? {
            return Err(listed.message), w';
          }
          var remotes := listed.value;
          var i := 0;
          while i < |remotes|
            invariant 0 <= i <= |remotes| && name.None?
            invariant FirstWithUrl(remotes[i..], dvcUrl) == FirstWithUrl(remotes, dvcUrl)
          {
            if remotes[i].url == dvcUrl {
              name := Some(remotes[i].name);
              break;
            }
            assert remotes[i..][1..] == remotes[i + 1..];
            i := i + 1;
          }
          if name.None? {
            name := Some("dagshub");
            w' := w'.Emit(Exec(RemoteAddCmd(dvcUrl)));
            if env.fails(Exec(RemoteAddCmd(dvcUrl))) {
              return Err("dvc remote add failed"), w';
            }
          }
        } else {
          w' := w'.Emit(Exec(DefaultRemoteCmd));
          if env.fails(Exec(DefaultRemoteCmd)) {
            return Err("dvc remote default failed"), w';
          }
          var defaultRemote := Strip(env.output(DefaultRemoteCmd).stdout);
          // A non-empty string literal is true, so this holds whatever the output.
          var noDefault := defaultRemote == "" || "No default remote set" != "";
          if noDefault {
            var listed;
            listed, w' := GetRemotesList(env, w');
            if listed.Err? {
              return Err(listed.message), w';
            }
            var choices := Keys(listed.value) + [CancelPull];
            w' := w'.Emit(AskRemote(choices));
            var pick := env.pickRemote(choices);
            if pick !in Keys(listed.value) {
              return Ok(Cancelled), w';
            }
            name := Some(pick);
          } else {
            name := Some(defaultRemote);
          }
        }
      }
      var auth;
      auth, w' := HandleDvcAuth(env, name.value, PullCmd(name.value), w');
      if auth.Err? {
        return Err(auth.message), w';
      }
      res := Ok(Pulled);
    }
  }
}
