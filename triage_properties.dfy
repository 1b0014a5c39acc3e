/** What the triage walk of `add` guarantees, proved about the functions of
    module DvcTriage: every prompt is about a path that is not the root, not
    ignored by either tool and at or above the threshold; nothing is chosen
    for DVC or skipped unless the user answered so (or the path is a large
    file named on the command line); the banner appears once, before the
    first prompt; the walk runs no external command; and a directory below
    the threshold is walked without a single prompt or outside effect. */
module TriageProperties {
  import opened Wrappers
  import opened FileTree
  import opened Host
  import opened DvcTriage
  import Utils

  /** A prompt only ever asks about a path that is neither the root nor
      ignored by either tool, and that is at or above the threshold. */
  predicate ProperAsk(env: Env, e: Effect)
  {
    e.Ask? ==>
      e.path != RepoPath && !env.gitIgnored(e.path) && !env.dvcIgnored(e.path) && e.size >= env.threshold
  }

  predicate AsksProper(env: Env, log: seq<Effect>)
  {
    forall i :: 0 <= i < |log| ==> ProperAsk(env, log[i])
  }

  predicate NoExec(log: seq<Effect>)
  {
    forall i :: 0 <= i < |log| ==> !log[i].Exec?
  }

  function NumAsks(log: seq<Effect>): nat
  {
    if log == [] then 0 else (if log[0].Ask? then 1 else 0) + NumAsks(log[1..])
  }

  function NumBanners(log: seq<Effect>): nat
  {
    if log == [] then 0 else (if log[0] == Say(Warn, Banner) then 1 else 0) + NumBanners(log[1..])
  }

  lemma {:induction false} CountsAppend(a: seq<Effect>, b: seq<Effect>)
    ensures NumAsks(a + b) == NumAsks(a) + NumAsks(b)
    ensures NumBanners(a + b) == NumBanners(a) + NumBanners(b)
  {
    if a == [] {
      assert a + b == b;
    } else {
      assert (a + b)[1..] == a[1..] + b;
      CountsAppend(a[1..], b);
    }
  }

  /** Effects that are neither a prompt nor the banner. */
  lemma {:induction false} QuietEffects(log: seq<Effect>)
    requires forall i :: 0 <= i < |log| ==> !log[i].Ask? && log[i] != Say(Warn, Banner)
    ensures NumAsks(log) == 0 && NumBanners(log) == 0
  {
    if log != [] {
      QuietEffects(log[1..]);
    }
  }

  /** The user was asked about `p` and answered `choice`. */
  predicate Answered(env: Env, log: seq<Effect>, p: string, choice: DvcChoice)
  {
    exists i :: 0 <= i < |log| && log[i].Ask? && log[i].path == p &&
      env.choose(p, log[i].size, log[i].isDir) == choice
  }

  /** Why a path may be among the chosen: the user chose Add to DVC for it,
      or it is a large file named by the arguments. */
  predicate Justified(env: Env, roots: seq<string>, log: seq<Effect>, p: string)
  {
    Answered(env, log, p, AddDvc) || (p in roots && IsLargeFile(env, p))
  }

  lemma AnsweredPersists(env: Env, log: seq<Effect>, log': seq<Effect>, p: string, choice: DvcChoice)
    requires log <= log' && Answered(env, log, p, choice)
    ensures Answered(env, log', p, choice)
  {
    var i :| 0 <= i < |log| && log[i].Ask? && log[i].path == p &&
      env.choose(p, log[i].size, log[i].isDir) == choice;
    assert log'[i] == log[i];
  }

  /** The effects between two states of one walk. */
  function Delta(st: Walk, st': Walk): seq<Effect>
    requires st.world.log <= st'.world.log
  {
    st'.world.log[|st.world.log|..]
  }

  /** Every question in `d` answered Add to DVC put its path among `chosen`,
      and every one answered Skip put its path among `skipped`. */
  predicate HonoursAnswers(env: Env, d: seq<Effect>, chosen: seq<string>, skipped: seq<string>)
  {
    forall i :: 0 <= i < |d| && d[i].Ask? ==>
      (env.choose(d[i].path, d[i].size, d[i].isDir) == AddDvc ==> d[i].path in chosen) &&
      (env.choose(d[i].path, d[i].size, d[i].isDir) == Skip ==> d[i].path in skipped)
  }

  /** How a later state of an `add` relates to an earlier one: the effects
      and the lists only grow; the new effects run no command and ask only
      proper questions; the banner flag is set, and the banner shown, exactly
      when the first prompt comes; each new chosen path is justified and each
      new skipped path was answered Skip; and, conversely, each new answer
      Add to DVC or Skip landed in the matching list. */
  predicate Extends(env: Env, roots: seq<string>, st: Walk, st': Walk)
  {
    st.world.log <= st'.world.log && st.chosen <= st'.chosen && st.skipped <= st'.skipped &&
    var d := Delta(st, st');
    NoExec(d) && AsksProper(env, d) &&
    st'.count == (if NumAsks(d) > 0 && st.count == 0 then 1 else st.count) &&
    NumBanners(d) == (if NumAsks(d) > 0 && st.count == 0 then 1 else 0) &&
    (forall i :: |st.chosen| <= i < |st'.chosen| ==> Justified(env, roots, st'.world.log, st'.chosen[i])) &&
    (forall i :: |st.skipped| <= i < |st'.skipped| ==> Answered(env, st'.world.log, st'.skipped[i], Skip)) &&
    HonoursAnswers(env, d, st'.chosen, st'.skipped)
  }

  lemma ExtendsReflexive(env: Env, roots: seq<string>, st: Walk)
    ensures Extends(env, roots, st, st)
  {
    assert Delta(st, st) == [];
  }

  lemma ExtendsTransitive(env: Env, roots: seq<string>, a: Walk, b: Walk, c: Walk)
    requires Extends(env, roots, a, b) && Extends(env, roots, b, c)
    ensures Extends(env, roots, a, c)
  {
    var d1, d2 := Delta(a, b), Delta(b, c);
    assert Delta(a, c) == d1 + d2;
    CountsAppend(d1, d2);
    forall i | |a.chosen| <= i < |c.chosen|
      ensures Justified(env, roots, c.world.log, c.chosen[i])
    {
      if i < |b.chosen| {
        assert c.chosen[i] == b.chosen[i];
        if Answered(env, b.world.log, b.chosen[i], AddDvc) {
          AnsweredPersists(env, b.world.log, c.world.log, b.chosen[i], AddDvc);
        }
      }
    }
    forall i | |a.skipped| <= i < |c.skipped|
      ensures Answered(env, c.world.log, c.skipped[i], Skip)
    {
      if i < |b.skipped| {
        assert c.skipped[i] == b.skipped[i];
        AnsweredPersists(env, b.world.log, c.world.log, b.skipped[i], Skip);
      }
    }
    assert forall i :: 0 <= i < |d1 + d2| ==> (d1 + d2)[i] == if i < |d1| then d1[i] else d2[i - |d1|];
    HonoursAppend(env, d1, d2, b, c);
  }

  lemma HonoursAppend(env: Env, d1: seq<Effect>, d2: seq<Effect>, b: Walk, c: Walk)
    requires b.chosen <= c.chosen && b.skipped <= c.skipped
    requires HonoursAnswers(env, d1, b.chosen, b.skipped) && HonoursAnswers(env, d2, c.chosen, c.skipped)
    ensures HonoursAnswers(env, d1 + d2, c.chosen, c.skipped)
  {
    forall i | 0 <= i < |d1 + d2| && (d1 + d2)[i].Ask?
      ensures var e := (d1 + d2)[i];
        (env.choose(e.path, e.size, e.isDir) == AddDvc ==> e.path in c.chosen) &&
        (env.choose(e.path, e.size, e.isDir) == Skip ==> e.path in c.skipped)
    {
      if i < |d1| {
        var e := d1[i];
        assert (d1 + d2)[i] == e;
        if env.choose(e.path, e.size, e.isDir) == AddDvc {
          var j :| 0 <= j < |b.chosen| && b.chosen[j] == e.path;
          assert c.chosen[j] == e.path;
        }
        if env.choose(e.path, e.size, e.isDir) == Skip {
          var j :| 0 <= j < |b.skipped| && b.skipped[j] == e.path;
          assert c.skipped[j] == e.path;
        }
      } else {
        assert (d1 + d2)[i] == d2[i - |d1|];
      }
    }
  }

  /** The effects `Prompted` adds when the user is asked. */
  function PromptEffects(path: string, n: Node, choice: DvcChoice, count: int): seq<Effect>
  {
    var line := IgnoreLine(path);
    (if count == 0 then [Say(Warn, Banner)] else []) +
    [Ask(path, Utils.EntrySize(n), n.Dir?)] +
    (if choice == Ignore then [AppendLine(".gitignore", line), AppendLine(".dvcignore", line)] else [])
  }

  lemma PromptedLog(env: Env, path: string, n: Node, c: Classification, st: Walk)
    requires c.Chosen?
    ensures Prompted(env, path, n, c, st).world.log == st.world.log + PromptEffects(path, n, c.choice, st.count)
    ensures Prompted(env, path, n, c, st).count == (if st.count == 0 then 1 else st.count)
    ensures Prompted(env, path, n, c, st).chosen == st.chosen
    ensures Prompted(env, path, n, c, st).skipped == st.skipped
  {
  }

  lemma PromptEffectsCounts(path: string, n: Node, choice: DvcChoice, count: int)
    ensures var d := PromptEffects(path, n, choice, count);
      NoExec(d) && NumAsks(d) == 1 && NumBanners(d) == (if count == 0 then 1 else 0) &&
      (forall i :: 0 <= i < |d| && d[i].Ask? ==> d[i] == Ask(path, Utils.EntrySize(n), n.Dir?)) &&
      d[if count == 0 then 1 else 0] == Ask(path, Utils.EntrySize(n), n.Dir?)
  {
    var line := IgnoreLine(path);
    var banner := if count == 0 then [Say(Warn, Banner)] else [];
    var ask := [Ask(path, Utils.EntrySize(n), n.Dir?)];
    var appends := if choice == Ignore then [AppendLine(".gitignore", line), AppendLine(".dvcignore", line)] else [];
    CountsAppend(banner + ask, appends);
    CountsAppend(banner, ask);
    QuietEffects(appends);
    assert NumAsks(ask) == 1 && NumBanners(ask) == 0;
  }

  /** One call of `__get_to_add_to_dvc` with the appends that follow it. */
  lemma StepExtends(env: Env, roots: seq<string>, path: string, n: Node, st: Walk)
    ensures Extends(env, roots, st, Record(Prompted(env, path, n, Classify(env, path, n), st), Verdict(Classify(env, path, n), path)))
  {
    var c := Classify(env, path, n);
    var st2 := Record(Prompted(env, path, n, c, st), Verdict(c, path));
    if !c.Chosen? {
      assert Delta(st, st2) == [];
    } else {
      StepChosenExtends(env, roots, path, n, c, st);
    }
  }

  lemma StepChosenExtends(env: Env, roots: seq<string>, path: string, n: Node, c: Classification, st: Walk)
    requires c == Classify(env, path, n) && c.Chosen?
    ensures Extends(env, roots, st, Record(Prompted(env, path, n, c, st), Verdict(c, path)))
  {
    var st1 := Prompted(env, path, n, c, st);
    var st2 := Record(st1, Verdict(c, path));
    PromptedLog(env, path, n, c, st);
    var d := PromptEffects(path, n, c.choice, st.count);
    PromptEffectsCounts(path, n, c.choice, st.count);
    assert st2.world == st1.world;
    assert Delta(st, st2) == d;
    var k := |st.world.log| + (if st.count == 0 then 1 else 0);
    assert st2.world.log[k] == Ask(path, Utils.EntrySize(n), n.Dir?);
    if c.choice == AddDvc {
      assert st2.chosen == st.chosen + [path];
      assert Answered(env, st2.world.log, path, AddDvc);
    }
    if c.choice == Skip {
      assert st2.skipped == st.skipped + [path];
      assert Answered(env, st2.world.log, path, Skip);
    }
    assert d[k - |st.world.log|] == Ask(path, Utils.EntrySize(n), n.Dir?);
  }

  lemma {:induction false} FilesPassExtends(env: Env, roots: seq<string>, root: string, fs: seq<Node>, st: Walk)
    ensures Extends(env, roots, st, FilesPass(env, root, fs, st))
    decreases |fs|
  {
    if fs == [] {
      ExtendsReflexive(env, roots, st);
    } else {
      var st1 := FileStep(env, root, fs[0], st);
      StepExtends(env, roots, Slash(root, fs[0].name), fs[0], st);
      FilesPassExtends(env, roots, root, fs[1..], st1);
      ExtendsTransitive(env, roots, st, st1, FilesPass(env, root, fs, st));
    }
  }

  lemma VisitExtends(env: Env, roots: seq<string>, it: Item, st: Walk)
    ensures Extends(env, roots, st, Visit(env, it, st).0)
  {
    var c := Classify(env, it.path, it.node);
    var r := Verdict(c, it.path);
    var st1 := Record(Prompted(env, it.path, it.node, c, st), r);
    StepExtends(env, roots, it.path, it.node, st);
    if ScansFiles(st1, it.path, r) {
      FilesPassExtends(env, roots, it.path, Files(ChildrenOf(it.node)), st1);
      ExtendsTransitive(env, roots, st, st1, Visit(env, it, st).0);
    }
  }

  /** The walk keeps every guarantee of `Extends`. */
  lemma {:induction false} WalkListExtends(env: Env, roots: seq<string>, items: seq<Item>, st: Walk)
    ensures Extends(env, roots, st, WalkList(env, items, st))
    decreases Weight(items)
  {
    if items == [] {
      ExtendsReflexive(env, roots, st);
    } else {
      var (st1, kids) := Visit(env, items[0], st);
      VisitExtends(env, roots, items[0], st);
      WeightAppend(kids, items[1..]);
      WalkListExtends(env, roots, kids + items[1..], st1);
      ExtendsTransitive(env, roots, st, st1, WalkList(env, items, st));
    }
  }

  lemma WalkRootExtends(env: Env, roots: seq<string>, p: string, st: Walk)
    requires p in roots
    ensures Extends(env, roots, st, WalkRoot(env, p, st))
  {
    var st1 := if IsLargeFile(env, p) then st.(chosen := st.chosen + [p]) else st;
    assert Extends(env, roots, st, st1) by {
      assert Delta(st, st1) == [];
    }
    var n := Lookup(env.tree, p);
    if n.Some? && n.value.Dir? {
      WalkListExtends(env, roots, [Item(p, n.value)], st1);
      ExtendsTransitive(env, roots, st, st1, WalkRoot(env, p, st));
    }
  }

  lemma {:induction false} WalkRootsExtends(env: Env, roots: seq<string>, rest: seq<string>, st: Walk)
    requires forall i :: 0 <= i < |rest| ==> rest[i] in roots
    ensures Extends(env, roots, st, WalkRoots(env, rest, st))
    decreases |rest|
  {
    if rest == [] {
      ExtendsReflexive(env, roots, st);
    } else {
      var st1 := WalkRoot(env, rest[0], st);
      WalkRootExtends(env, roots, rest[0], st);
      WalkRootsExtends(env, roots, rest[1..], st1);
      ExtendsTransitive(env, roots, st, st1, WalkRoots(env, rest, st));
    }
  }

  /** The whole `add`: `dvc add` runs once, with exactly the chosen paths in
      the order they were found, when and only when something was chosen,
      and is the only external command; the result lists the chosen and the
      skipped paths; every prompt was proper; every chosen path was chosen by
      the user or is a large file argument; every skipped path was answered
      Skip; every answer Add to DVC or Skip put its path in the matching
      list; and on a fresh service the banner was shown exactly once if
      anything was asked. */
  lemma AddGuarantees(env: Env, args: seq<string>, count: int, w: World)
    ensures Finished(env, Roots(args), Walk([], [], [], count, w), AddOutcome(env, args, count, w))
  {
    var roots := Roots(args);
    var st0 := Walk([], [], [], count, w);
    WalkRootsExtends(env, roots, roots, st0);
    FinishGuarantees(env, roots, st0, AddWalk(env, args, count, w));
  }

  /** What `add` promises about its outcome, given the state it started from. */
  predicate Finished(env: Env, roots: seq<string>, st0: Walk, out: (Result<DvcAdd>, Walk))
  {
    var (res, st) := out;
    st0.world.log <= st.world.log &&
    var d := st.world.log[|st0.world.log|..];
    (res.Ok? ==> res.value == DvcAdd(st.chosen, st.skipped)) &&
    (st.chosen == [] ==> NoExec(d) && res.Ok?) &&
    (st.chosen != [] ==> d != [] && d[|d| - 1] == Exec(DvcAddCmd(st.chosen)) && NoExec(d[..|d| - 1]) &&
                         (res.Ok? <==> !env.fails(Exec(DvcAddCmd(st.chosen))))) &&
    AsksProper(env, d) &&
    (st0.count == 0 ==> NumBanners(d) == (if NumAsks(d) > 0 then 1 else 0)) &&
    (forall i :: 0 <= i < |st.chosen| ==> Justified(env, roots, st.world.log, st.chosen[i])) &&
    (forall i :: 0 <= i < |st.skipped| ==> Answered(env, st.world.log, st.skipped[i], Skip)) &&
    HonoursAnswers(env, d, st.chosen, st.skipped)
  }

  lemma FinishGuarantees(env: Env, roots: seq<string>, st0: Walk, st: Walk)
    requires Extends(env, roots, st0, st) && st0.chosen == [] && st0.skipped == []
    ensures Finished(env, roots, st0, FinishAdd(env, st))
  {
    if st.chosen != [] {
      var e := Exec(DvcAddCmd(st.chosen));
      var tail := [Say(Warn, "Adding to dvc..."), e];
      var st' := FinishAdd(env, st).1;
      assert st'.world.log == st.world.log + tail;
      var d := Delta(st0, st);
      assert st'.world.log[|st0.world.log|..] == d + tail;
      CountsAppend(d, tail);
      QuietEffects(tail);
      forall i | 0 <= i < |st'.chosen| ensures Justified(env, roots, st'.world.log, st'.chosen[i]) {
        if Answered(env, st.world.log, st.chosen[i], AddDvc) {
          AnsweredPersists(env, st.world.log, st'.world.log, st.chosen[i], AddDvc);
        }
      }
      forall i | 0 <= i < |st'.skipped| ensures Answered(env, st'.world.log, st'.skipped[i], Skip) {
        AnsweredPersists(env, st.world.log, st'.world.log, st.skipped[i], Skip);
      }
      assert (d + tail)[..|d + tail| - 1] == d + [tail[0]];
      assert forall i :: 0 <= i < |d + tail| ==> (d + tail)[i] == if i < |d| then d[i] else tail[i - |d|];
    }
  }

  /** The walk descends only into subdirectories of the directory. */
  lemma DescendsIntoChildren(env: Env, it: Item)
    ensures forall i :: 0 <= i < |Descend(env, it)| ==>
      it.node.Dir? && Descend(env, it)[i].Dir? && Descend(env, it)[i] in it.node.children
  {
    var subs := SubDirs(ChildrenOf(it.node));
    var left := Unexcluded(subs);
    SkipPassShrinks(env, it.path, left);
    UnexcludedKeeps(subs);
    var ds := Descend(env, it);
    forall i | 0 <= i < |ds|
      ensures it.node.Dir? && ds[i].Dir? && ds[i] in it.node.children
    {
      assert ds[i] in left;
      var j :| 0 <= j < |left| && left[j] == ds[i];
      assert left[j] in subs;
      var k :| 0 <= k < |subs| && subs[k] == ds[i];
    }
  }

  /** A walk that only has directories below the threshold before it asks
      nothing, records nothing as chosen or skipped and changes nothing
      outside: subdirectories and files are never larger than the directory
      they are in. */
  lemma {:induction false} SmallDirsWalkQuietly(env: Env, items: seq<Item>, st: Walk)
    requires forall i :: 0 <= i < |items| ==> items[i].node.Dir? && Utils.EntrySize(items[i].node) < env.threshold
    ensures var st' := WalkList(env, items, st);
      st'.world == st.world && st'.count == st.count && st'.chosen == st.chosen && st'.skipped == st.skipped
    decreases Weight(items)
  {
    if items != [] {
      var it := items[0];
      var (st1, kids) := Visit(env, it, st);
      var c := Classify(env, it.path, it.node);
      var st2 := Record(Prompted(env, it.path, it.node, c, st), Verdict(c, it.path));
      assert st2.world == st.world && st2.count == st.count && st2.chosen == st.chosen && st2.skipped == st.skipped;
      var fs := Files(ChildrenOf(it.node));
      forall f | f in fs ensures f.File? && Utils.EntrySize(f) < env.threshold {
        Utils.ChildNoLarger(it.node, f);
      }
      SmallFilesPassQuietly(env, it.path, fs, st2);
      var ds := Descend(env, it);
      DescendsIntoChildren(env, it);
      forall i | 0 <= i < |kids| ensures kids[i].node.Dir? && Utils.EntrySize(kids[i].node) < env.threshold {
        assert kids[i].node == ds[i];
        Utils.SubdirEntryNoLarger(it.node, ds[i]);
      }
      WeightAppend(kids, items[1..]);
      SmallDirsWalkQuietly(env, kids + items[1..], st1);
    }
  }

  lemma {:induction false} SmallFilesPassQuietly(env: Env, root: string, fs: seq<Node>, st: Walk)
    requires forall f :: f in fs ==> f.File? && Utils.EntrySize(f) < env.threshold
    ensures var st' := FilesPass(env, root, fs, st);
      st'.world == st.world && st'.count == st.count && st'.chosen == st.chosen && st'.skipped == st.skipped
    decreases |fs|
  {
    if fs != [] {
      SmallFilesPassQuietly(env, root, fs[1..], FileStep(env, root, fs[0], st));
    }
  }

  /** A directory below the threshold is walked without any effect. */
  lemma SmallDirNeverAsks(env: Env, path: string, n: Node, st: Walk)
    requires n.Dir? && Utils.SizeOfPath(n) < env.threshold
    ensures WalkList(env, [Item(path, n)], st).world == st.world
  {
    SmallDirsWalkQuietly(env, [Item(path, n)], st);
  }

  /** No subdirectory that should be walked is dropped by
      `__skip_already_added`: an entry is kept when the check says so, and
      also when it is skipped over unchecked. */
  lemma {:induction false} SkipPassKeepsWalked(env: Env, root: string, ds: seq<Node>)
    ensures forall i :: 0 <= i < |ds| && !ShouldSkipListAdd(env, Slash(root, ds[i].name)) ==>
      ds[i] in SkipPass(env, root, ds)
  {
    if ds != [] {
      if ShouldSkipListAdd(env, Slash(root, ds[0].name)) {
        if |ds| > 1 {
          SkipPassKeepsWalked(env, root, ds[2..]);
          forall i | 2 <= i < |ds| ensures ds[i] == ds[2..][i - 2] { }
        }
      } else {
        SkipPassKeepsWalked(env, root, ds[1..]);
        forall i | 1 <= i < |ds| ensures ds[i] == ds[1..][i - 1] { }
      }
    }
  }

  /** When no entry should be skipped the list is left as it was. */
  lemma {:induction false} SkipPassNothingToSkip(env: Env, root: string, ds: seq<Node>)
    requires forall i :: 0 <= i < |ds| ==> !ShouldSkipListAdd(env, Slash(root, ds[i].name))
    ensures SkipPass(env, root, ds) == ds
  {
    if ds != [] {
      SkipPassNothingToSkip(env, root, ds[1..]);
    }
  }

  /** The entry right after a removed one moves into the removed one's
      slot and is kept without being checked, even when it should have been
      skipped as well. */
  lemma SkipPassKeepsFollower(env: Env, root: string, ds: seq<Node>)
    requires 2 <= |ds| && ShouldSkipListAdd(env, Slash(root, ds[0].name))
    ensures SkipPass(env, root, ds)[0] == ds[1]
  {
  }
}
