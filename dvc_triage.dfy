/** The decisions of the large-file triage in `fds/services/dvc_service.py`,
    as functions: what `__get_to_add_to_dvc` decides for one path, what one
    iteration of the `os.walk` loop in `__add` does, and what the whole walk
    over the arguments of `add` produces. The imperative code in module
    DvcService is proved to compute exactly these functions. */
module DvcTriage {
  import opened Wrappers
  import opened FileTree
  import opened Host
  import Utils

  /** `self.repo_path` and `AddCommands.ALL`. */
  const RepoPath: string := "."
  const All: string := "."

  /** `folders_to_exclude`: the metadata directories of the two tools. */
  const Excluded: set<string> := {".git", ".dvc"}

  const Banner: string := "========== Make your selection, Press \"h\" for help =========="

  /** The `AddToDvc` dataclass: at most one of the three is set. */
  datatype AddToDvc = AddToDvc(fileToAdd: Option<string>, fileToIgnore: Option<string>, fileToSkip: Option<string>)

  /** The `DvcAdd` dataclass returned by `add`. */
  datatype DvcAdd = DvcAdd(filesAddedToDvc: seq<string>, filesSkipped: seq<string>)

  /** The f-string `f"{root}/{name}"` that names a listed entry. */
  function Slash(root: string, name: string): string
  {
    root + "/" + name
  }

  /** `__should_skip_list_add`: the repository root is always skipped, any
      other path exactly when git ignores it. */
  function ShouldSkipListAdd(env: Env, path: string): (skip: bool)
    ensures path == RepoPath ==> skip
    ensures path != RepoPath ==> (skip <==> env.gitIgnored(path))
  {
    path == RepoPath || env.gitIgnored(path)
  }

  /** The ways `__get_to_add_to_dvc` can end for one path. */
  datatype Classification =
    | Exempt                    // the repository root or a git-ignored path
    | SmallDir                  // a directory below the threshold
    | SmallFile                 // a file below the threshold
    | DvcIgnored                // at or above the threshold, but dvc-ignored
    | Chosen(choice: DvcChoice) // the user was asked and gave this answer

  /** Which of the five outcomes a path gets. The size used is `EntrySize`, a
      file's own size (see `Utils.EntrySize`). */
  function Classify(env: Env, path: string, n: Node): (c: Classification)
    ensures c == Exempt <==> ShouldSkipListAdd(env, path)
    ensures c == SmallDir <==>
      !ShouldSkipListAdd(env, path) && Utils.EntrySize(n) < env.threshold && n.Dir?
    ensures c == SmallFile <==>
      !ShouldSkipListAdd(env, path) && Utils.EntrySize(n) < env.threshold && n.File?
    ensures c == DvcIgnored <==>
      !ShouldSkipListAdd(env, path) && Utils.EntrySize(n) >= env.threshold && env.dvcIgnored(path)
    ensures c.Chosen? <==>
      !ShouldSkipListAdd(env, path) && Utils.EntrySize(n) >= env.threshold && !env.dvcIgnored(path)
    ensures c.Chosen? ==> c.choice == env.choose(path, Utils.EntrySize(n), n.Dir?)
  {
    if ShouldSkipListAdd(env, path) then Exempt
    else if Utils.EntrySize(n) < env.threshold then (if n.Dir? then SmallDir else SmallFile)
    else if env.dvcIgnored(path) then DvcIgnored
    else Chosen(env.choose(path, Utils.EntrySize(n), n.Dir?))
  }

  /** The `AddToDvc` value returned for an outcome: the path is to be added
      exactly when the user chose Add to DVC, skipped exactly when the user
      chose Skip, and recorded as ignored exactly for a small directory or a
      dvc-ignored path; never more than one of the three. */
  function Verdict(c: Classification, path: string): (r: AddToDvc)
    ensures r.fileToAdd == (if c == Chosen(AddDvc) then Some(path) else None)
    ensures r.fileToSkip == (if c == Chosen(Skip) then Some(path) else None)
    ensures r.fileToIgnore == (if c == SmallDir || c == DvcIgnored then Some(path) else None)
    ensures (r.fileToAdd.Some? ==> r.fileToIgnore.None? && r.fileToSkip.None?) &&
            (r.fileToIgnore.Some? ==> r.fileToSkip.None?)
  {
    match c
    case SmallDir => AddToDvc(None, Some(path), None)
    case DvcIgnored => AddToDvc(None, Some(path), None)
    case Chosen(AddDvc) => AddToDvc(Some(path), None, None)
    case Chosen(Skip) => AddToDvc(None, None, Some(path))
    case _ => AddToDvc(None, None, None)
  }

  /** Every answer except Step Into empties the caller's `dirs`. */
  predicate Prunes(c: Classification)
  {
    c.Chosen? && c.choice != StepInto
  }

  /** `path[path.startswith('./') and 2:]`: the path without one leading
      `./`, or unchanged when it has none. */
  function IgnoreLine(path: string): (line: string)
    ensures "./" <= path ==> "./" + line == path
    ensures !("./" <= path) ==> line == path
  {
    if "./" <= path then path[2..] else path
  }

  /** The state of one `add`: the three lists of `__add`, the banner flag
      `selection_message_count` and the outside world. */
  datatype Walk = Walk(chosen: seq<string>, ignored: seq<string>, skipped: seq<string>,
                       count: int, world: World)

  /** The effects of `__get_to_add_to_dvc` for an outcome: when the user is
      asked, the banner first if it was not shown yet, then the prompt, then
      for Ignore the same line appended to `.gitignore` and to `.dvcignore`. */
  function Prompted(env: Env, path: string, n: Node, c: Classification, st: Walk): (st': Walk)
  {
    if !c.Chosen? then st
    else
      var w0 := st.world;
      var w1 := if st.count == 0 then w0.Emit(Say(Warn, Banner)) else w0;
      var w2 := w1.Emit(Ask(path, Utils.EntrySize(n), n.Dir?));
      var w3 := if c.choice == Ignore then w2.Append(".gitignore", IgnoreLine(path)).Append(".dvcignore", IgnoreLine(path)) else w2;
      st.(count := if st.count == 0 then 1 else st.count, world := w3)
  }

  /** The three `if add_to_dvc.… is not None` appends of `__add`. */
  function Record(st: Walk, r: AddToDvc): Walk
  {
    var s1 := if r.fileToIgnore.Some? then st.(ignored := st.ignored + [r.fileToIgnore.value]) else st;
    var s2 := if r.fileToAdd.Some? then s1.(chosen := s1.chosen + [r.fileToAdd.value]) else s1;
    if r.fileToSkip.Some? then s2.(skipped := s2.skipped + [r.fileToSkip.value]) else s2
  }

  /** One file of a directory: `__get_to_add_to_dvc(f"{root}/{file}", [], "File")`
      and the appends that follow it. */
  function FileStep(env: Env, root: string, f: Node, st: Walk): Walk
  {
    var p := Slash(root, f.name);
    var c := Classify(env, p, f);
    Record(Prompted(env, p, f, c, st), Verdict(c, p))
  }

  /** The files of a directory, in order. */
  function FilesPass(env: Env, root: string, fs: seq<Node>, st: Walk): Walk
  {
    if fs == [] then st else FilesPass(env, root, fs[1..], FileStep(env, root, fs[0], st))
  }

  /** Line 197: the subdirectories not named `.git` or `.dvc`. */
  function Unexcluded(ds: seq<Node>): (r: seq<Node>)
    ensures CountAll(r) <= CountAll(ds)
  {
    if ds == [] then []
    else if ds[0].name in Excluded then Unexcluded(ds[1..])
    else [ds[0]] + Unexcluded(ds[1..])
  }

  /** What is left are exactly the listed subdirectories not named `.git`
      or `.dvc`. */
  lemma {:induction false} UnexcludedKeeps(ds: seq<Node>)
    ensures forall i :: 0 <= i < |Unexcluded(ds)| ==>
      Unexcluded(ds)[i] in ds && Unexcluded(ds)[i].name !in Excluded
    ensures forall i :: 0 <= i < |ds| && ds[i].name !in Excluded ==> ds[i] in Unexcluded(ds)
  {
    if ds != [] {
      UnexcludedKeeps(ds[1..]);
      var rest := Unexcluded(ds[1..]);
      assert forall x :: x in ds[1..] ==> x in ds;
      forall i | 1 <= i < |ds| ensures ds[i] == ds[1..][i - 1] { }
      if ds[0].name !in Excluded {
        var r := [ds[0]] + rest;
        forall i | 1 <= i < |r| ensures r[i] == rest[i - 1] { }
      }
    }
  }

  /** `__skip_already_added` as Python runs it: `dirs.remove(d)` inside
      `for d in dirs` shifts the next entry into the slot just visited, so the
      entry after each removed one is kept without being checked. */
  function SkipPass(env: Env, root: string, ds: seq<Node>): seq<Node>
  {
    if ds == [] then []
    else if ShouldSkipListAdd(env, Slash(root, ds[0].name)) then
      (if |ds| == 1 then [] else [ds[1]] + SkipPass(env, root, ds[2..]))
    else [ds[0]] + SkipPass(env, root, ds[1..])
  }

  /** The pass only removes entries: what is left was listed, and weighs no
      more than the listing. */
  lemma {:induction false} SkipPassShrinks(env: Env, root: string, ds: seq<Node>)
    ensures var r := SkipPass(env, root, ds);
      (forall i :: 0 <= i < |r| ==> r[i] in ds) && CountAll(r) <= CountAll(ds)
  {
    if ds != [] {
      if ShouldSkipListAdd(env, Slash(root, ds[0].name)) {
        if |ds| > 1 {
          SkipPassShrinks(env, root, ds[2..]);
          assert ds[1..][1..] == ds[2..];
          assert forall x :: x in ds[2..] ==> x in ds;
        }
      } else {
        SkipPassShrinks(env, root, ds[1..]);
        assert forall x :: x in ds[1..] ==> x in ds;
      }
    }
  }

  /** A directory `os.walk` will yield: its root path and its entry. */
  datatype Item = Item(path: string, node: Node)

  function Weight(items: seq<Item>): nat
  {
    if items == [] then 0 else Count(items[0].node) + Weight(items[1..])
  }

  lemma {:induction false} WeightAppend(a: seq<Item>, b: seq<Item>)
    ensures Weight(a + b) == Weight(a) + Weight(b)
  {
    if a == [] {
      assert a + b == b;
    } else {
      assert (a + b)[1..] == a[1..] + b;
      WeightAppend(a[1..], b);
    }
  }

  /** The subdirectories the walk descends into, named as `os.walk` names
      them (`os.path.join(root, d)`). */
  function ChildItems(root: string, ds: seq<Node>): (items: seq<Item>)
    ensures |items| == |ds|
    ensures forall i :: 0 <= i < |ds| ==> items[i] == Item(JoinPath(root, ds[i].name), ds[i])
    ensures Weight(items) == CountAll(ds)
  {
    if ds == [] then [] else [Item(JoinPath(root, ds[0].name), ds[0])] + ChildItems(root, ds[1..])
  }

  function ChildrenOf(n: Node): seq<Node>
  {
    if n.Dir? then n.children else []
  }

  /** The directories left in `dirs` once the walk has pruned and the
      directory itself has been classified. */
  function Descend(env: Env, it: Item): (kept: seq<Node>)
    ensures CountAll(kept) < Count(it.node)
  {
    var ds := SkipPass(env, it.path, Unexcluded(SubDirs(ChildrenOf(it.node))));
    SkipPassShrinks(env, it.path, Unexcluded(SubDirs(ChildrenOf(it.node))));
    if Prunes(Classify(env, it.path, it.node)) then [] else ds
  }

  /** Whether the files of the directory are classified after the directory:
      not when it was skipped, is among the ignored, or is among the chosen. */
  predicate ScansFiles(st: Walk, path: string, r: AddToDvc)
  {
    r.fileToSkip.None? && path !in st.ignored && path !in st.chosen
  }

  /** One iteration of `for (root, dirs, files) in os.walk(...)` in `__add`:
      the new state, and the subdirectories to walk next. */
  function Visit(env: Env, it: Item, st: Walk): (res: (Walk, seq<Item>))
    ensures Weight(res.1) < Count(it.node)
  {
    var c := Classify(env, it.path, it.node);
    var r := Verdict(c, it.path);
    var st1 := Record(Prompted(env, it.path, it.node, c, st), r);
    var st2 := if ScansFiles(st1, it.path, r) then FilesPass(env, it.path, Files(ChildrenOf(it.node)), st1) else st1;
    (st2, ChildItems(it.path, Descend(env, it)))
  }

  /** The walk, top-down and depth first: each directory before the
      subdirectories left in its `dirs`, and those in order. */
  function WalkList(env: Env, items: seq<Item>, st: Walk): Walk
    decreases Weight(items)
  {
    if items == [] then st
    else
      var (st', kids) := Visit(env, items[0], st);
      WeightAppend(kids, items[1..]);
      WalkList(env, kids + items[1..], st')
  }

  /** `paths_to_walk`: only the root when `.` is an argument, otherwise each
      argument under `./`, in order. */
  function Roots(args: seq<string>): (roots: seq<string>)
    ensures All in args ==> roots == [RepoPath]
    ensures All !in args ==>
      |roots| == |args| && (forall i :: 0 <= i < |args| ==> roots[i] == RepoPath + "/" + args[i])
  {
    if All in args then [RepoPath] else seq(|args|, i requires 0 <= i < |args| => RepoPath + "/" + args[i])
  }

  /** A path that names a file at or above the threshold. */
  predicate IsLargeFile(env: Env, p: string)
  {
    var n := Lookup(env.tree, p);
    n.Some? && n.value.File? && Utils.EntrySize(n.value) >= env.threshold
  }

  /** One entry of `paths_to_walk`: a large file is chosen outright; a
      directory is walked (`os.walk` yields nothing for a file or a missing
      path). */
  function WalkRoot(env: Env, p: string, st: Walk): (st': Walk)
    ensures IsLargeFile(env, p) ==> st' == st.(chosen := st.chosen + [p])
  {
    var st1 := if IsLargeFile(env, p) then st.(chosen := st.chosen + [p]) else st;
    var n := Lookup(env.tree, p);
    if n.Some? && n.value.Dir? then WalkList(env, [Item(p, n.value)], st1) else st1
  }

  function WalkRoots(env: Env, roots: seq<string>, st: Walk): Walk
  {
    if roots == [] then st else WalkRoots(env, roots[1..], WalkRoot(env, roots[0], st))
  }

  /** `["dvc", "add"]` followed by the chosen paths. */
  function DvcAddCmd(chosen: seq<string>): (cmd: Cmd)
    ensures |cmd| == |chosen| + 2 && cmd[..2] == ["dvc", "add"] && cmd[2..] == chosen
  {
    ["dvc", "add"] + chosen
  }

  /** The state once every argument has been walked. */
  function AddWalk(env: Env, args: seq<string>, count: int, w: World): Walk
  {
    WalkRoots(env, Roots(args), Walk([], [], [], count, w))
  }

  /** The end of `add`: one `dvc add` of everything chosen when anything was
      chosen; a failing `dvc add` raises. */
  function FinishAdd(env: Env, st: Walk): (Result<DvcAdd>, Walk)
  {
    if st.chosen == [] then (Ok(DvcAdd(st.chosen, st.skipped)), st)
    else
      var e := Exec(DvcAddCmd(st.chosen));
      var st' := st.(world := st.world.Emit(Say(Warn, "Adding to dvc...")).Emit(e));
      (if env.fails(e) then Err("dvc add failed") else Ok(DvcAdd(st.chosen, st.skipped)), st')
  }

  /** The whole `add`: the walk over every argument, then `dvc add`. */
  function AddOutcome(env: Env, args: seq<string>, count: int, w: World): (Result<DvcAdd>, Walk)
  {
    FinishAdd(env, AddWalk(env, args, count, w))
  }
}
