# fds in Dafny: the git/DVC services and the large-file triage

`fds` is a command-line tool that drives git and DVC together in one working
directory. This project models its service layer:

- `DVCService` runs `dvc init`, `status`, `commit`, `push` and `pull`.
  When `push` or `pull` is refused with `401 Unauthorized`, it asks for
  credentials, stores them with `dvc remote modify` and retries once.
  Its main job is the interactive triage of `add`. That walk goes over the
  working directory top-down. It prunes `.git`, `.dvc` and git-ignored
  directories. Directories and files below the size threshold are settled
  silently. For everything larger the user picks Add to DVC, Add to Git,
  Ignore, Skip or Step Into, and one `dvc add` of every chosen path ends the
  operation.
- `GitService` runs `init`, `status`, `add` and `commit`.
- `FdsService` runs `fds init` and `fds status`, which call the two services
  in turn and report each result.
- `str2bool` and `get_size_of_path` are the helpers of `fds/utils.py`.

Everything outside the process is modelled as a value:

- `Host.World` is the set of paths that exist plus the log of every effect
  so far. The effects are commands run, repositories created, lines
  appended to ignore files, messages printed and questions asked.
- `Host.Env` holds oracles for whatever the program learns from outside:
  - the directory tree with its sizes
  - `git check-ignore` and `check_dvc_ignore`
  - the user's answers
  - which command fails, and what each command prints

Each operation is a method that takes the world and returns the new one.
It is proved equal to a specification function. The promises of the
source are proved as lemmas about those functions.

Modules:

| file | module | what it holds |
|---|---|---|
| `wrappers.dfy` | `Wrappers` | `Option`, `Result` |
| `text.dfy` | `Text` | `lower`, `upper`, `in`, `join`, `split`, `strip` on strings |
| `file_tree.dfy` | `FileTree` | the directory tree, `os.walk`'s `dirs`/`files`, `os.path.join`, path lookup |
| `host.dfy` | `Host` | commands, effects, the world and the oracles |
| `utils.dfy` | `Utils` | `str2bool`, `get_size_of_path` (as written and corrected) |
| `dvc_triage.dfy` | `DvcTriage` | the decisions of `__get_to_add_to_dvc` and `__add` as functions |
| `triage_properties.dfy` | `TriageProperties` | what the walk of `add` guarantees |
| `remotes.dfy` | `DvcRemotes` | the dictionary `__get_remotes_list` builds |
| `dvc_commands.dfy` | `DvcCommands` | the command lines, the credential retry and `pull`'s remote resolution |
| `dvc_service.dfy` | `DvcService` | class `DVCService`: the imperative operations |
| `git_service.dfy` | `GitService` | `GitService`'s operations |
| `fds_service.dfy` | `FdsService` | class `Fds`: `init` and `status` |

## Model

| member | source | states |
|---|---|---|
| Text.Contains | fds/services/dvc_service.py:279 | `sub in s` is true exactly when `sub` occurs in `s` at some index |
| Text.Split | fds/services/dvc_service.py:306 | `split` yields at least one piece and no piece contains the separator |
| Text.SplitCount | fds/services/dvc_service.py:306 | there is one more piece than there are separators in the string |
| Text.JoinSplit | fds/services/fds_service.py:45 | joining the pieces of a split with the separator gives back the string |
| Text.SplitJoin | fds/services/fds_service.py:45 | splitting the join of separator-free pieces gives back exactly those pieces |
| Text.Strip | fds/services/dvc_service.py:356 | `strip` is a slice of its input with only white space (Python's `isspace` set) outside it, with no white space at either end, and is empty exactly when the input is all white space |
| Text.LowerOfUpper | fds/utils.py:8-10 | lower-casing an upper-cased string gives the same result as lower-casing the original |
| FileTree.SubDirs | fds/services/dvc_service.py:195 | an entry is in `dirs` exactly when it is a directory listed in the directory; `dirs` weighs no more than the listing |
| FileTree.Files | fds/services/dvc_service.py:195 | an entry is in `files` exactly when it is a file listed in the directory |
| FileTree.JoinPath | fds/services/dvc_service.py:195 | `os.path.join(root, name)` is an absolute `name` itself; otherwise it starts with `root`, then a `/` unless `root` is empty or ends with one, then ends with `name` |
| FileTree.Find | fds/services/dvc_service.py:190-192 | a found entry is listed and has the name asked for; nothing is found exactly when no listed entry has that name |
| Utils.Str2Bool | fds/utils.py:5-13 | a bool is returned as is; a string is true exactly when its lower case is one of yes/true/t/y/1, false exactly when it is one of no/false/f/n/0, and an error exactly when it is neither |
| Utils.Str2BoolIgnoresCase | fds/utils.py:8-10 | an upper-cased string reads as the same boolean or the same error |
| Utils.SizeOfPath | fds/utils.py:16-17 | as written: a file has size 0, because `rglob` yields nothing for a file; an empty directory has size 0 |
| Utils.SizeOfPathIsSumBeneath | fds/utils.py:17 | the size of a path is the sum of the sizes of every entry strictly beneath it |
| Utils.SizeBeneathIsSum | fds/utils.py:17 | the size of a listing is the sum over the listing's entries and everything below them |
| Utils.ChildNoLarger | fds/utils.py:17 | an entry of a directory, together with its contents, is no larger than the directory |
| Utils.EntryNoLargerThanListing | fds/utils.py:17 | any listed entry, with everything beneath it, is bounded by the size of the listing |
| Utils.EntrySize | fds/services/dvc_service.py:135 | corrected size: a file's own size, or for a directory the sum beneath it |
| Utils.EntrySizeDiffersOnlyOnFiles | fds/utils.py:17 | the as-written and corrected sizes differ exactly on non-empty files |
| Utils.SubdirEntryNoLarger | fds/services/dvc_service.py:135-137 | a subdirectory is never larger than the directory containing it |
| DvcTriage.ShouldSkipListAdd | fds/services/dvc_service.py:63-74 | `.` is always skipped; any other path is skipped exactly when git ignores it |
| DvcTriage.Classify | fds/services/dvc_service.py:134-175 | each path gets exactly one outcome; each outcome is characterised in both directions by skip-listing, size against the threshold, directory-ness and `.dvcignore`; the user is asked exactly when none of those applies |
| DvcTriage.Verdict | fds/services/dvc_service.py:139-175 | `AddToDvc` holds the path to add only for Add to DVC, to ignore only for a small directory or a DVC-ignored path, to skip only for Skip; at most one field is set |
| DvcTriage.IgnoreLine | fds/services/dvc_service.py:167-171 | the line written to `.gitignore`/`.dvcignore` is the path without one leading `./`, and the path itself otherwise |
| DvcTriage.UnexcludedKeeps | fds/services/dvc_service.py:184-197 | after pruning, `dirs` holds exactly the listed subdirectories not named `.git` or `.dvc` |
| DvcTriage.SkipPassShrinks | fds/services/dvc_service.py:76-82 | `__skip_already_added` only removes entries: what is left was listed and weighs no more |
| DvcTriage.ChildItems | fds/services/dvc_service.py:195 | the walk names each subdirectory `os.path.join(root, name)`, in listing order |
| DvcTriage.Roots | fds/services/dvc_service.py:186-189 | `.` among the arguments walks only the repository root; otherwise each argument is walked under `./`, in order |
| DvcTriage.WalkRoot | fds/services/dvc_service.py:190-194 | an argument that is a large file is appended to the chosen paths |
| DvcTriage.DvcAddCmd | fds/services/dvc_service.py:234 | the add command is `dvc add` followed by exactly the chosen paths, in order |
| TriageProperties.PromptedLog | fds/services/dvc_service.py:146-151 | a prompted path adds the banner (only if none was shown), the question and any ignore lines; the banner flag is set; the lists are untouched |
| TriageProperties.PromptEffectsCounts | fds/services/dvc_service.py:146-171 | a prompt asks exactly one question, about the path and its size, runs no command, and shows the banner only on the service's first prompt, before the question |
| TriageProperties.StepExtends | fds/services/dvc_service.py:201-207 | one classification with its appends keeps every guarantee of the walk (see `AddGuarantees`) |
| TriageProperties.FilesPassExtends | fds/services/dvc_service.py:222-229 | the pass over a directory's files keeps every guarantee of the walk |
| TriageProperties.VisitExtends | fds/services/dvc_service.py:195-229 | one directory of the walk keeps every guarantee of the walk |
| TriageProperties.WalkListExtends | fds/services/dvc_service.py:195-229 | the whole `os.walk` of one root keeps every guarantee of the walk |
| TriageProperties.WalkRootsExtends | fds/services/dvc_service.py:190-229 | walking every argument keeps every guarantee of the walk |
| TriageProperties.AddGuarantees | fds/services/dvc_service.py:177-235 | `dvc add` runs once, with exactly the chosen paths, when and only when something was chosen, and is the only command run; the result lists the chosen and skipped paths; every question is about a path that is neither `.` nor git-ignored; every chosen path was answered Add to DVC or is a large file argument; every skipped path was answered Skip; conversely, every question answered Add to DVC put its path among the chosen, and every one answered Skip put it among the skipped; the banner shows once if anything was asked |
| TriageProperties.FinishGuarantees | fds/services/dvc_service.py:230-235 | the end of `add` runs `dvc add` with the chosen paths exactly when there are some, and fails exactly when that command fails |
| TriageProperties.DescendsIntoChildren | fds/services/dvc_service.py:195-199 | the walk descends only into subdirectories of the current directory |
| TriageProperties.SmallDirsWalkQuietly | fds/services/dvc_service.py:136-139 | walking directories below the threshold asks nothing, runs nothing and chooses nothing |
| TriageProperties.SmallFilesPassQuietly | fds/services/dvc_service.py:137-140 | files below the threshold are passed over without any effect |
| TriageProperties.SmallDirNeverAsks | fds/services/dvc_service.py:136-139 | a directory below the threshold leaves the world exactly as it was |
| TriageProperties.SkipPassKeepsWalked | fds/services/dvc_service.py:79-82 | no subdirectory that should not be skipped is removed by `__skip_already_added` |
| TriageProperties.SkipPassNothingToSkip | fds/services/dvc_service.py:79-82 | when nothing should be skipped, `dirs` is left as it was |
| TriageProperties.SkipPassKeepsFollower | fds/services/dvc_service.py:79-82 | removing an entry while iterating leaves the entry after it in `dirs` without checking it |
| DvcService.DVCService.Init | fds/services/dvc_service.py:44-53 | `init` computes `DvcInitOutcome` |
| DvcService.DVCService.Status | fds/services/dvc_service.py:55-60 | `dvc status` is run once; it fails exactly when the command fails, and otherwise returns the finished process |
| DvcService.DVCService.RemoveExcluded | fds/services/dvc_service.py:197 | the loop leaves exactly `Unexcluded(dirs)` |
| DvcService.DVCService.SkipAlreadyAdded | fds/services/dvc_service.py:76-82 | the loop, which removes entries while iterating, leaves exactly `SkipPass` |
| DvcService.DVCService.GetToAddToDvc | fds/services/dvc_service.py:123-175 | returns the `Verdict` of `Classify`, empties `dirs` exactly for the pruning answers, and adds exactly the prompt effects |
| DvcService.DVCService.ClassifyFiles | fds/services/dvc_service.py:222-229 | the file loop computes `FilesPass` |
| DvcService.DVCService.VisitDir | fds/services/dvc_service.py:195-229 | one `os.walk` step computes `Visit`, including the subdirectories the walk goes on with |
| DvcService.DVCService.Add | fds/services/dvc_service.py:177-243 | the stack walk computes `AddOutcome`, whose guarantees are `AddGuarantees` |
| DvcService.DVCService.Commit | fds/services/dvc_service.py:245-254 | runs `CommitCmd(auto_confirm)` once and fails exactly when it fails |
| DvcService.DVCService.PushCommand | fds/services/dvc_service.py:256-267 | the push command is `PushCmd(remote)` |
| DvcService.DVCService.HandleDagshubRemote | fds/services/dvc_service.py:269-274 | shows the two DAGsHub hints, asks for the user name and the token in that order, and returns the answers |
| DvcService.DVCService.AskCredentials | fds/services/dvc_service.py:280-286 | asks with DAGsHub's wording exactly when the remote is on dagshub.com, and returns the answers |
| DvcService.DVCService.StoreCredentials | fds/services/dvc_service.py:287-293 | runs the three `remote modify` commands until one fails, and reports whether all succeeded |
| DvcService.DVCService.HandleDvcAuth | fds/services/dvc_service.py:276-298 | computes `AuthEffects`/`AuthResult` (see `AuthAttempts`) |
| DvcService.DVCService.Push | fds/services/dvc_service.py:300-301 | `push` is the credential retry around `PushCmd(remote)` |
| DvcService.DVCService.GetRemotesList | fds/services/dvc_service.py:303-312 | runs `dvc remote list` once and returns the parsed dictionary, or fails when the command fails |
| DvcService.DVCService.Pull | fds/services/dvc_service.py:329-370 | `pull` computes `PullOutcome` (see the `Pull*` lemmas) |
| DvcCommands.DvcInitOutcome | fds/services/dvc_service.py:44-53 | `init` succeeds exactly when `./.dvc` existed or `dvc init --subdir` did not fail, and then returns a non-empty message and `./.dvc` exists; the message is "DVC already initialized" when `./.dvc` existed and "DVC initialized successfully" otherwise; the command runs only when `./.dvc` is missing |
| DvcCommands.CommitCmd | fds/services/dvc_service.py:251-253 | the commit is `dvc commit -q`, with `-f` exactly when auto-confirm is on |
| DvcCommands.PushCmd | fds/services/dvc_service.py:258-262 | the push is `dvc push`, followed by `-r remote` exactly when the remote is non-empty |
| DvcCommands.PushCmdNamesRemote | fds/services/dvc_service.py:258-262 | the push command can be read back to the remote it was built for |
| DvcCommands.ModifyCmds | fds/services/dvc_service.py:287-293 | three `dvc remote modify <remote> --local` commands: `auth basic`, `user <name>`, and `user <password>` (as written) |
| DvcCommands.Credentials | fds/services/dvc_service.py:280-286 | the prompts shown are DAGsHub's exactly when the remote is on dagshub.com |
| DvcCommands.RunUntilFailure | fds/services/dvc_service.py:289-293 | commands that raise on failure run in order: all of them when none fails, otherwise up to and including the first failure |
| DvcCommands.RunStopsAt | fds/services/dvc_service.py:289-293 | the run stops exactly at the first command that fails |
| DvcCommands.AuthAttempts | fds/services/dvc_service.py:276-298 | the handler runs first; it runs once unless refused as unauthorized, and twice exactly when refused and all three credential commands succeeded |
| DvcCommands.RefusedAttempts | fds/services/dvc_service.py:279-298 | after a refusal the handler runs again exactly when the credentials were all stored |
| DvcCommands.HandlerNotAmong | fds/services/dvc_service.py:281-293 | between the two runs of the handler, only prompts and credential commands are logged |
| DvcCommands.FirstWithUrl | fds/services/dvc_service.py:345-348 | finds nothing exactly when no remote has the URL; otherwise the first remote in order with that URL |
| DvcCommands.PullGivenRemote | fds/services/dvc_service.py:336-370 | a remote given by the caller is pulled from directly, with nothing listed, added or asked before |
| DvcCommands.PullDagshubRemote | fds/services/dvc_service.py:340-352 | for a DAGsHub URL, the first listed remote with the DAGsHub storage URL is used; only when there is none is a `dagshub` remote added, and the pull fails exactly when that addition fails |
| DvcCommands.PullCancelled | fds/services/dvc_service.py:355-364 | picking something that is not a listed remote ends the pull with 0 before any `dvc pull` |
| DvcCommands.PullPicked | fds/services/dvc_service.py:355-370 | a listed remote that is picked is pulled from with the credential retry |
| DvcCommands.PullIgnoresDefaultRemote | fds/services/dvc_service.py:355-366 | what `dvc remote default` prints never changes the pull, because the condition at line 357 is always true |
| DvcCommands.AuthSameAnswers | fds/services/dvc_service.py:276-298 | the retry depends only on the handler's outcomes, the user's answers and which commands fail |
| DvcRemotes.Keys | fds/services/dvc_service.py:316 | `list(remotes.keys())` has one name per entry, in order |
| DvcRemotes.Get | fds/services/dvc_service.py:363 | looking up a name finds nothing exactly when the name is not a key |
| DvcRemotes.Put | fds/services/dvc_service.py:311 | assigning keeps the key order and appends a new name at the end |
| DvcRemotes.PutGet | fds/services/dvc_service.py:311 | after `d[name] = url`, `name` maps to `url` and every other name keeps its value |
| DvcRemotes.ParsedDistinct | fds/services/dvc_service.py:304-312 | the parsed dictionary has no duplicate names |
| DvcRemotes.ParsedNames | fds/services/dvc_service.py:308-311 | a name is a key exactly when some output line has two tab-separated fields starting with it |
| DvcRemotes.ParsedLast | fds/services/dvc_service.py:308-311 | a name maps to the second field of the last line that defines it |
| GitService.GitInitOutcome | fds/services/git_service.py:19-28 | `init` succeeds exactly when `./.git` existed or `init_repository` did not raise, and then returns a non-empty message and `./.git` exists; the message is "git already initialized" when `./.git` existed and "git initialized successfully" otherwise; the repository is created only when `./.git` is missing |
| GitService.Init | fds/services/git_service.py:19-28 | `init` computes `GitInitOutcome` |
| GitService.Status | fds/services/git_service.py:30-35 | `git status` is run once; it fails exactly when the command fails, and otherwise returns the finished process |
| GitService.AddCmds | fds/services/git_service.py:47-54 | the path is added first; its `.dvc` file second exactly when that exists; `.gitignore` last exactly when that exists |
| GitService.Add | fds/services/git_service.py:37-54 | a git-ignored path changes nothing; otherwise `AddCmds` run until one fails, and `add` succeeds exactly when all succeed |
| GitService.Stage | fds/services/git_service.py:47-54 | one `git add` in the sequence: it logs the command, and a failure ends the sequence right there |
| GitService.AddStagesInOrder | fds/services/git_service.py:47-54 | every `git add` that ran before the last one had succeeded, and the first one adds the path itself |
| GitService.GitCommitCmd | fds/services/git_service.py:57 | the commit is `git commit -am <message>` |
| GitService.Commit | fds/services/git_service.py:56-57 | runs the commit once and fails exactly when it fails |
| FdsService.InitReport | fds/services/fds_service.py:25-33 | a step's report is a success exactly when its message is non-empty, and an error exactly when it is empty |
| FdsService.Fds.Init | fds/services/fds_service.py:20-33 | `fds init` computes `FdsInit`: git first, then DVC, each reported; a step that raises ends the command |
| FdsService.Fds.Status | fds/services/fds_service.py:35-58 | as written, `fds status` runs and reports git, then DVC; whatever either step raises is reported and does not stop the other |
| FdsService.StatusAlwaysReportsFailure | fds/services/fds_service.py:40-58 | as written, both tools are always reported as failed, because `len` of the finished process raises |
| FdsService.CleanRepoReportedAsFailure | fds/services/fds_service.py:40-48 | a clean git repository is reported as failed as written, and as clean by the intended status |
| FdsService.Len | fds/services/fds_service.py:42 | `len` has a value exactly for a list of paths, and it is the number of paths |
| FdsService.IntendedStatusEffects | fds/services/fds_service.py:35-58 | the intended `status` runs `git status`, then `dvc status`, and reports each from the paths it lists |
| FdsService.InitNeverReportsFailure | fds/services/fds_service.py:20-33 | `fds init` never prints its failure messages; it only appends to the log |
| FdsService.InitSucceeds | fds/services/fds_service.py:20-33 | `fds init` succeeds exactly when each repository existed or its creation did not raise, and then both exist; after a failed git init nothing else happens |
| FdsService.InitIdempotent | fds/services/fds_service.py:20-33 | a second `fds init` after a successful one creates nothing, runs nothing and only reports two successes |
| FdsService.StatusReportLevels | fds/services/fds_service.py:40-58 | a status report is a success exactly when an empty list of paths came back, a warning exactly when a non-empty one did, and an error exactly when the command or `len` raised |
| FdsService.StatusWarningListsFiles | fds/services/fds_service.py:45-46 | the warning, split at line breaks, is the heading followed by exactly the reported paths |

## Left out

- I/O is not modelled: the subprocesses, printing to the terminal, colours,
  logging and streamed output. Commands and messages are entries in the
  effect log, and what a command prints or whether it raises comes from
  an oracle.
- `execute_command`, `check_git_ignore`, `check_dvc_ignore`,
  `does_file_exist`, `append_line_to_file`, `get_input_from_user`,
  `convert_bytes_to_string`, `convert_bytes_to_readable` and
  `construct_dvc_url_from_git_url_dagshub` are not part of this model.
  Each is an oracle or an effect with the meaning its use in the services
  implies. `execute_command` raising on a non-zero exit is modelled by the
  `fails` oracle, except for the push and pull handler of
  `__handle_dvc_auth` (see the DvcService.DVCService.HandleDvcAuth line).
- The PyInquirer prompts are not modelled: their layout, key bindings and
  help text are left out. Only the answer is kept, as an oracle over the
  question asked.
- `pygit2.init_repository` is an effect with a failure oracle.
- Filesystem details are not modelled: `stat`, symbolic links (the walk
  never follows them), and the order `os.walk` lists entries in. The tree
  is a given value with one size per entry, and entry names within a
  directory are taken as distinct. Because of that, removing from `dirs` by
  position is the same as `list.remove` by value.
- `os.walk` changes the `dirs` list in place. The model returns the new
  list as a value instead, and the walk loop is an explicit stack, which
  visits directories in the same top-down order.
- `Text.Lower` and `Text.Upper` change ASCII letters only. The words the
  source looks for after `lower()` ("dagshub.com", "y", "yes", "true" and
  the like) are ASCII, and no non-ASCII character lower-cases into one of
  their letters in a way that would change a match, so the comparisons come
  out as in the source. Non-ASCII text is not lower-cased faithfully.
- The command-line layer (`cli.py`, `run.py`), `setup.py`, `ff/` and the
  printer class are outside the services and not modelled.
- `execute_command` is not part of this model. The services' `status`
  returns its result as a finished process, which its `-> CompletedProcess`
  annotation at line 257 of `fds/services/dvc_service.py` and the
  `.stderr`/`.returncode` reads at lines 279 and 296 support. The paths a
  status command reports, used only by the intended `fds status`, come
  from an oracle.
- FdsService.Fds.Status: a failing status is reported and swallowed, as
  the bare `except` in the code does. The command does not end with an
  error.
- DvcService.DVCService.HandleDvcAuth: the `handler` callable is modelled as
  the command it runs, and each run's finished process comes from the
  `attempt` oracle. The `fails` oracle is not consulted for these runs: the
  model reads the handler as a run that returns its process even when the
  exit code is non-zero. So a first run that fails without "401
  Unauthorized" in its error output ends in `Ok`, and the second run fails
  exactly when `attempt(cmd, 1).returncode` is non-zero. Whether the handler
  raises by itself on a failing first run is not modelled.
- DvcTriage.ShouldSkipListAdd and DvcTriage.Classify: the `gitIgnored` and
  `dvcIgnored` oracles are fixed for the whole `add`. The lines that an
  Ignore answer appends to `.gitignore` and `.dvcignore` are in the effect
  log but do not feed back into later ignore checks. A path checked again
  after it was ignored, as with overlapping arguments such as
  `["data/sub", "data"]`, is asked about again in the model, where the
  source would skip it. The common case is a directory answered Ignore: it
  is not pruned, so its files are classified next. In the source
  `check_git_ignore` reports them as ignored, because their directory is
  now in `.gitignore`, and they are skipped silently. In the model they are
  asked about, and a file answered Add to DVC under an ignored directory
  goes to `dvc add`.
- FileTree.Lookup, FileTree.Components and DvcTriage.WalkRoot: a `..`
  component in an argument is not resolved. It is looked up as a child
  named `..`, which no directory listing holds, so an argument such as
  `data/../models` finds nothing and is neither walked nor chosen. The
  source's `os.walk` would walk `./models`.
- DvcTriage.IsLargeFile: when the whole tree is a single file, `Lookup` of
  `.` finds it, so `.` can count as a large file argument. The source's
  working directory is always a directory, so the model takes no
  precondition for this case.
- DvcService.DVCService.GetToAddToDvc: the file or directory kind passed
  for the prompt text is carried as a boolean in the question. The wording
  is not modelled.

## Findings

| source | as written | input that shows it | evidently intended | confidence | as-written member | corrected member |
|---|---|---|---|---|---|---|
| fds/utils.py:17 | `get_size_of_path` sums `st_size` over `Path(path).rglob('*')`. For a regular file `rglob` yields nothing, so every file has size 0. The check at line 192 then never chooses a file argument, and line 135 never prompts about a file. | one file argument of 200 MB under a 100 MB threshold: size 0, not chosen | a file's size is its own `st_size`; a directory's is the sum beneath it | not executed | Utils.SizeOfPath (with Utils.EntrySizeDiffersOnlyOnFiles) | Utils.EntrySize, used by `DvcTriage.Classify` and `DvcTriage.IsLargeFile` |
| fds/services/fds_service.py:42 | `status` calls `len()` on what each service's `status()` returns, which is the `CompletedProcess` of `execute_command`. `len` of it raises `TypeError`, and the bare `except` at lines 47 and 57 prints "Git status failed to execute" and "DVC status failed to execute" every time. | a clean git repository where `git status` succeeds: "Git status failed to execute" is printed instead of "Git repo clean" | each service's `status()` yields the list of changed paths, and `fds status` reports clean, lists the paths, or reports a real failure | not executed; `execute_command` is not part of this model | FdsService.Fds.Status (with FdsService.StatusAlwaysReportsFailure and FdsService.CleanRepoReportedAsFailure) | FdsService.IntendedStatusEffects (with FdsService.StatusReportLevels and FdsService.StatusWarningListsFiles) |
