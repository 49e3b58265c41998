# Verification of kra

kra is a command line program that keeps workspaces on disk. A workspace is a directory with
metadata, files and git worktrees of bare repositories kept in a shared pool; it moves between
`workspaces/` and `archive/`, and it may be shown in a runtime program, cmux, through a mapping file.
This project models the parts of kra whose correctness spans several functions or whole runs, and
proves properties of them in Dafny 4.11:

- `CmuxMap`, `CmuxOpen`, `CmuxOrder`: the mapping file, and the worker pool that opens several workspaces
  at once. Every interleaving of the workers' guarded sections ends as if the targets had been opened one
  by one, if and only if no workspace has an entry that is less than its first.
- `World`, `AddRepo`, `Lifecycle`, `Runs`, `RoundTrip`, `Lifetime`: an abstract disk (directories, metadata,
  bare repositories with branches and worktrees) whose every effectful call may fail without effect, and
  which counts apart the failing calls that were to undo earlier ones (`World.Disk.Undo`), the
  commands over it as methods, all-or-nothing add-repo, safety over whole runs of commands, when each
  command succeeds and when it fails late, and the close/reopen round trip of a workspace from its
  creation on.
- `AddRepoLock`: the pid lock file as a step system with crashes.
- `GitStatus`, `WorkspaceRisk`, `WorkState`, `WorkStateRuns`: the reader of `git status` output, risk,
  and the work state that is derived from a baseline and latched in a cache.
- `RepoGC`, `RepoGCSelect`, `Retention`: reference counts over many roots, selection and deletion, and that a
  repository which a workspace has, from add-repo on, is not deleted.
- `Registry`: context names and roots as a bijection.
- `Subsequences`, `FilterMatch`, `Selector`: the fuzzy filter and the interactive selector.
- `RepoSpec`: repository identity and store paths.
- `Bytes`, `ShellQuote`: UTF-8, and quoting of any bytes read back by a shell.
- `JiraImport`: conservation of items in an import.
- `Text`, `Sorting`, `Counting`, `Folds`: strings, stable sorting, counting and loops that stop early.

Code that updates things in place is a method or a class with a method for each operation, proved equal
to a function of its inputs or of the old state; the properties are lemmas about those functions. Git, the
file system, cmux, clocks and the terminal are parameters: a reply, a failing call, a time, a typed key.

Every lemma carries `{:induction false}`: inductions are written out as recursive calls.

Where the code does not meet a property that one might expect, the exact condition is proved:

- Normalizing a mapping file twice is not always the same as once. It is exactly when the entries that
  get a new ordinal join those that keep theirs in order (`NormalizeIdempotentIff`), which holds for
  files whose ordinals are at least one.
- The order in which targets are opened can matter. For a loaded file it does not, in every run of every
  pool, exactly when no workspace has an entry that is less than its first by ordinal and runtime id
  (`OrderIndependentIff`); ordinals below one on disk can break that (`OrderMattersWithoutOrdinals`).
- The add-repo lock excludes a second holder in every run exactly when creating the file and writing the
  pid are one step, and inspecting a stale file and removing it are one step (`ExclusiveIffAtomic`). The
  program makes separate calls for each.
- Create, close, reopen and purge can report a failure after their effect took place. The contracts of the
  four methods say exactly when: the directory has appeared, moved or gone, and the commit after that was
  refused; for create also the baseline, and for reopen also the move back to the archive, which leaves
  the metadata unmarked. `CreateFailsLate`, `CloseFailsLate`, `ReopenFailsLate` and `PurgeFailsLate` give
  an input for each. Without commits close and purge never do.
- The word for `cd` is read as the path exactly when the shell's HOME is the home directory the program
  saw, or the path is not under it (`CDPathReadsIff`).
- The two single-quote functions agree, and a shell reads the word of the shell action as the path, exactly
  when the path is valid UTF-8 (`ShellSingleQuote`): that loop goes over runes, and writes U+FFFD for a byte
  that starts none (`LoopChangesBadBytes`).
- A printed repository URL reads back as the same repository exactly when the name does not itself end
  in ".git" (`ReadsBackIff`); for https, among components that have no URL syntax in them.
- The filter compares bytes. It shows the haystacks whose lowercase characters match, for every haystack,
  exactly when the lowercase query is ASCII (`BytesAreCharactersIffAscii`).
- The comparison of file hashes is equality of the maps exactly when no recorded hash is empty
  (`FilesAgreeIsEqualityIff`); the program records none.
- An untracked file whose name consists of blanks is not counted by the reader of git's output
  (`BlankNameIsNotSeen`); `CountsAreEntryCounts` counts the others, which `GitStatus.Visible` tells apart.

## Model

| member | source | states |
|---|---|---|
| CmuxMap.NormalizeEstablishes | internal/cmuxmap/store.go:97-138 | after normalization every ordinal is at least 1, the next ordinal exceeds them all and did not go back, and the workspace keeps its multiset of runtime ids |
| CmuxMap.NormalizeMeans | internal/cmuxmap/store.go:97-138 | the normalized entries are the old ones sorted by ordinal and runtime id, an ordinal below 1 replaced by the position and nothing else changed; the next ordinal is the least that is at least 1, exceeds them all and did not go back |
| CmuxMap.NormalizeIdempotentIff | internal/cmuxmap/store.go:97-138 | normalizing twice equals normalizing once if and only if the renumbered entries join the kept ones in order |
| CmuxMap.NumberedFilesAreIdempotent | internal/cmuxmap/store.go:97-138 | normalization is idempotent on entries whose ordinals are at least 1 |
| CmuxMap.NormalizeNotIdempotentExample | internal/cmuxmap/store.go:113-130 | ordinals 0, 0, 1 are reordered by a second pass |
| CmuxMap.TidyIffFixed | internal/cmuxmap/store.go:97-138 | the fixed points of normalization are the sorted, well-numbered workspaces |
| CmuxMap.AllocateEstablishes | internal/cmuxmap/title_policy.go:23-42 | an allocation gives an ordinal above all that the workspace had and has, moves the counter past it, and only normalizes other workspaces; it fails exactly for a blank id |
| CmuxMap.AllocationsExceedStart | internal/cmuxmap/title_policy.go:23-42 | over any run of allocations, every ordinal handed out exceeds the ordinals present at the start |
| CmuxMap.AllocationsIncrease | internal/cmuxmap/title_policy.go:23-42 | over any run of allocations, the ordinals of one workspace strictly increase |
| CmuxMap.MappingFile.Normalize | internal/cmuxmap/store.go:97-138 | the loops over workspaces and entries compute the normalization, or refuse an unsupported version and change nothing |
| CmuxMap.MappingFile.AllocateOrdinal | internal/cmuxmap/title_policy.go:23-42 | the method returns and stores what the allocation function says, error paths included |
| CmuxOpen.AdvanceIsLocal | internal/app/cmux/usecase.go:200-299 | each guarded section or client call of one open reads and writes only its own workspace, although allocation normalizes the whole file |
| CmuxOpen.EveryInterleavingIsSequential | internal/app/cmux/usecase.go:133-198 | every interleaving of every pool that drains leaves the mapping that opening the targets one by one leaves, with the same outcomes in target order |
| CmuxOpen.RunKeepsInv | internal/app/cmux/usecase.go:133-198 | in every state of every run each job is taken or reported at most once and is on the path it would take alone |
| CmuxOpen.PoolNeverStuck | internal/app/cmux/usecase.go:150-180 | a pool with a worker has an enabled step until it is drained |
| CmuxOpen.PoolTerminates | internal/app/cmux/usecase.go:150-180 | every step uses up part of a budget that stays nonnegative, so every run ends |
| CmuxOpen.OpenAllOwnership | internal/app/cmux/usecase.go:200-299 | each success has exactly one entry, the one it reports, and if created ids are fresh no runtime id belongs to two workspaces when none did before |
| CmuxOpen.EveryTargetReportedOnce | internal/app/cmux/usecase.go:182-197 | results and failures together hold every target once, each list in target order |
| CmuxOpen.LoadedIsSettled | internal/cmuxmap/store.go:46-63 | a file whose ordinals on disk are at least 1 is loaded as a fixed point of normalization |
| CmuxOrder.OrderIndependentIff | internal/app/cmux/usecase.go:133-299 | for a loaded file, every drained run of every pool equals opening one by one if and only if no workspace has an entry less than its first |
| CmuxOrder.DrainedRunsAgree | internal/app/cmux/usecase.go:133-198 | under that condition any two drained runs, with any numbers of workers, report the same and leave the same file |
| CmuxOrder.AdvanceSettles | internal/app/cmux/usecase.go:200-299 | each section does on the sorted file what it does on the file |
| CmuxOrder.OrderMattersWithoutOrdinals | internal/cmuxmap/store.go:97-138 | an ordinal below 1 on disk can make the outcome depend on the order of the targets |
| CmuxOpen.OpenOne | internal/app/cmux/usecase.go:200-299 | the uninterrupted call does what the step machine gives, which is what the replies say: it is a reuse exactly when there is a first entry that identify and select reach, and then the item carries that entry and only its last use changes; a broken reply gives the code of its call and leaves the file; a new entry titled `id | title` is committed exactly when there is no entry or it is gone and no later call fails |
| CmuxOpen.EveryTargetAnswered | internal/app/cmux/usecase.go:133-299 | in every interleaving every target is answered, reused, refused or created, as its own replies say on its own part of the initial file |
| CmuxOpen.OpenSequential | internal/app/cmux/usecase.go:116-131 | the sequential path stops at the first failure and leaves a prefix of the full sequence |
| RepoSpec.SshNormalizes | internal/core/repospec/normalize.go:16-91 | the ssh form, with or without ".git", normalizes to the spec of its components |
| RepoSpec.HttpsNormalizes | internal/core/repospec/normalize.go:16-91 | for components without URL syntax, the https form, with or without ".git", normalizes to that same spec |
| RepoSpec.FileNormalizes | internal/core/repospec/normalize.go:41-53 | for components without URL syntax, a file URL below any directory, with or without ".git", normalizes to that same spec |
| RepoSpec.NormalizedIsWhole | internal/core/repospec/normalize.go:16-91 | whatever is accepted has a nonempty host, owner and name, no slash in the last two, and the key made of the three |
| RepoSpec.ReadsBackIff | internal/core/repospec/normalize.go:74-91 | a form without suffix reads back as the same repository if and only if the name does not end in ".git"; the https form among components without URL syntax |
| RepoSpec.StorePathIdentity | internal/cli/repo_gc.go:466-494 | without a remote URL, the uid and key read back from a spec's store path are its host/owner/repo and owner/repo |
| RepoSpec.RemoteIdentity | internal/cli/repo_gc.go:466-494 | for every ssh, https and file form, with or without ".git", the uid is host/owner/repo and the key owner/repo, wherever the repository is stored |
| RepoSpec.StorePathInjective | internal/core/repostore/store_path.go:9-11 | distinct specs get distinct store paths |
| RepoSpec.DistinctAliasesDistinctBares | internal/cli/ws_add_repo.go:1053-1059 | candidates with distinct aliases are distinct bare repositories |
| World.DeleteUndoesAddBranch | internal/cli/ws_add_repo.go:1892-1894 | deleting a branch just created gives back the whole state, and git does not refuse it |
| World.RemoveUndoesAddWorktree | internal/cli/ws_add_repo.go:1888-1891 | removing a worktree just added gives back the whole state |
| AddRepo.Preflight | internal/cli/ws_add_repo.go:1506-1579 | the checks pass if and only if every item is usable and the aliases are new and distinct, and then fill in base ref and branch existence |
| AddRepo.PreflightSuffices | internal/cli/ws_add_repo.go:1506-1579 | after a passing preflight git refuses no step of the plan: only a failing call can stop it |
| AddRepo.PoolPlansHaveDistinctBares | internal/cli/ws_add_repo.go:980-1059 | a plan made of pool candidates with distinct aliases has distinct bare repositories |
| AddRepo.Apply | internal/cli/ws_add_repo.go:1853-1883 | every worktree is on its branch; a new branch is at its remote counterpart if there is one and else at the base ref; every other branch and worktree is as it was; or, if no call of the rollback fails, the state is the initial one, also when git refuses a step; nothing from before is lost in any case |
| AddRepo.Rollback | internal/cli/ws_add_repo.go:1885-1899 | undoing in reverse order restores the initial state if none of its calls fails, and git refuses none of them; whatever fails, nothing the run did not create is removed |
| AddRepo.UpsertRepos | internal/cli/ws_meta_json.go:127-161 | the merged restore list has one entry for each alias, the last one of the old and the new list, in alias order, and no other; a blank alias is refused |
| AddRepo.AddRepos | internal/cli/ws_add_repo.go:502-537 | a success leaves every worktree on its branch, the branch at the commit it had, else at its remote counterpart, else at the base ref, no other branch, worktree or directory changed, and the metadata with an entry for each item; the command is all or nothing: if it does not succeed, for a failing call or because git refuses a step, and no call of its rollback fails, the disk is as it was; whatever fails nothing is lost; for candidates of the pool and no stale worktree registration, at most one failing call leaves the disk as it was, and with none the command succeeds exactly when the preflight conditions hold |
| AddRepo.OldEntriesStay | internal/cli/ws_add_repo.go:1506-1579 | for trimmed aliases a plan that passed the preflight replaces no entry of the metadata |
| Lifecycle.CreateAtRoot | internal/cli/ws_workspace_create_common.go:12-68 | a collision with an active or archived id is refused; success leaves the template's files and active, guarded metadata with the id, title, URL and time given; a half-made directory is removed again, and the state is the old one unless that call fails; without failing calls it succeeds exactly when there is no collision and the template is good |
| Lifecycle.Create | internal/cli/ws_create.go:216-228 | the command makes the directory, then its baseline, then a commit; it reports a failure after the effect exactly when the directory has appeared and one of the last two was refused |
| Lifecycle.LockOrUnlock | internal/cli/ws_lock.go:99-144 | afterwards the guard is on exactly if that was asked for; only it and its time change, in the active directory if there is one and else in the archived one; it succeeds exactly when that one has metadata and the write does not fail |
| Lifecycle.PrepareClose | internal/cli/ws_close.go:586-646 | close records one entry for each alias, from the worktree with the metadata as fallback, before anything is touched, exactly when every alias can be recorded |
| Lifecycle.StripIff | internal/cli/ws_close.go:982-1024 | all worktrees can be removed exactly when each can be on its own |
| Lifecycle.RemoveWorktrees | internal/cli/ws_close.go:982-1024 | worktrees are removed one after the other; nothing but repo directories and git data changes; without failing calls it succeeds exactly when git refuses none |
| Lifecycle.Close | internal/cli/ws_close.go:456-531 | close either archives the workspace with its worktrees removed and metadata marked, or leaves it active with its files, its metadata restored unless the compensating write fails; without failing calls it takes effect exactly when everything can be recorded and removed; it fails late exactly when the directory was moved and the commit after that was refused |
| Lifecycle.RecreateWorktrees | internal/cli/ws_reopen.go:364-442 | the restore list is replayed in order, refusing a repeated alias, a blank field or an unknown remote, and touches only repo directories and git data; every worktree is on its branch, at the commit the branch had, else at its remote counterpart, else at the base ref; without failing calls it succeeds exactly when nothing in the list is refused |
| Lifecycle.EntryRecreated | internal/cli/ws_reopen.go:374-441 | one entry, after any earlier ones: its branch has the commit from before the first one, else that of the remote branch, else that of the base ref |
| Lifecycle.Reopen | internal/cli/ws_reopen.go:250-306 | reopen makes the workspace active with its worktrees, every recreated branch at the commit it had, else that of the remote branch, else that of the base ref, or leaves it archived with metadata and files unchanged; without failing calls it takes effect exactly when the metadata loads and every entry can be recreated; it fails late exactly when the directory came back and the move back to the archive failed or the commit was refused |
| Lifecycle.Purge | internal/cli/ws_purge.go:415-464 | purge deletes only an archived workspace whose guard is off, and changes nothing else; without failing calls it deletes exactly those; it fails late exactly when the directory is gone and the commit was refused |
| Runs.NeverInBoth | internal/cli/ws_workspace_create_common.go:12-68 | in every run of commands from an empty root, whatever calls fail, no id is in both directories at a command boundary |
| Runs.StatusNamesDirectory | internal/cli/ws_close.go:470-516 | in every run in which no compensating call fails, whatever other calls fail, the metadata status always names the directory that holds it |
| Runs.PurgeSafety | internal/cli/ws_purge.go:415-464 | a purge that removes a workspace was preceded, since its latest create, by a close without later reopen and an unlock without later lock |
| Runs.AddReposIsStep | internal/cli/ws_add_repo.go:502-537 | whatever add-repo answers, it keeps guard and status of every workspace |
| Runs.Perform | internal/cli/ws_close.go:456-531 | every command, whatever calls fail, makes a step of a run, and reports a compensation as done unless one of its compensating calls failed |
| Runs.PerformAll | internal/cli/ws_workspace_create_common.go:12-68 | the commands one after the other from an empty root make a run, no id ends up in both directories, and unless a compensating call failed every status names its directory |
| RoundTrip.CloseCanProceed | internal/cli/ws_close.go:586-646 | for a workspace whose worktrees are present and bound, neither recording nor git refuses the close |
| RoundTrip.ReopenCanProceed | internal/cli/ws_reopen.go:364-442 | after such a close git refuses nothing of the reopen |
| RoundTrip.CloseThenReopen | internal/cli/ws_reopen.go:250-306 | without failing calls, close and then reopen of a closable workspace both succeed, and everything comes back |
| RoundTrip.CloseReopenRoundTrip | internal/cli/ws_reopen.go:250-306 | close then reopen gives back every alias with its repository and branch, all local branches and worktrees, the other files, the guard and status "active", and the restore entries |
| RoundTrip.AgreeingEntryKept | internal/cli/ws_close.go:586-646 | a restore entry that agreed with its worktree keeps uid, remote, branch and base ref; only the key is rewritten |
| RoundTrip.PresentEntryRecorded | internal/cli/ws_close.go:586-646 | for a present worktree close records its origin and its branch, `HEAD` if it is on none, with the uid of the metadata and its base ref or else the repository's |
| RoundTrip.AbsentEntryKept | internal/cli/ws_close.go:586-646 | for an alias without worktree close keeps the entry of the metadata; only the key is rewritten |
| Lifetime.FreshIsClosable | internal/cli/ws_workspace_create_common.go:12-68 | a workspace without repositories, such as one just created, is closable |
| Lifetime.AddedIsClosable | internal/cli/ws_add_repo.go:502-537 | adding repositories that the pool stores at their origin's path keeps a workspace closable |
| Lifetime.CreateAddCloseReopen | internal/cli/ws_reopen.go:250-306 | without failing calls, create, add-repo, close and reopen all succeed for repositories of a pool, and the reopened workspace is what add-repo left |
| Lifetime.CreateUnlockClosePurge | internal/cli/ws_purge.go:415-464 | without failing calls, create, unlock, close and purge all succeed, and the disk is as before the create |
| Lifetime.CreateClosePurge | internal/cli/ws_purge.go:415-464 | without failing calls, create and close succeed and the purge after them is refused: the workspace stays archived |
| Lifetime.CreateFailsLate | internal/cli/ws_create.go:216-228 | an input for which create reports a failure and the workspace exists |
| Lifetime.CloseFailsLate | internal/cli/ws_close.go:517-527 | an input for which close reports a failure and the workspace is archived |
| Lifetime.ReopenFailsLate | internal/cli/ws_reopen.go:293-303 | an input for which reopen reports a failure and the workspace is active |
| Lifetime.PurgeFailsLate | internal/cli/ws_purge.go:451-461 | an input for which purge reports a failure and the workspace is gone |
| AddRepoLock.RunKeepsInv | internal/cli/ws_add_repo.go:836-902 | with atomic steps, in every run with crashes a live holder's lock file is there and names it |
| AddRepoLock.ReleaseIsOwn | internal/cli/ws_add_repo.go:851-859 | a release removes only the releaser's own lock file |
| AddRepoLock.AcquireEndsInEveryRun | internal/cli/ws_add_repo.go:843-877 | in every run, atomic or not, a live process that has made nine steps of its own holds the lock or gave up: acquisition ends within two attempts |
| AddRepoLock.LoneProcessHoldsIff | internal/cli/ws_add_repo.go:836-902 | a process alone with its lock gets it within five steps, however these are split, exactly if there is no lock file or one without pid or of a dead process; else it gives up and leaves the file |
| AddRepoLock.NothingIsLeftBehind | internal/cli/ws_add_repo.go:843-859 | with atomic steps, in every run a lock file of a process of the run belongs to one that holds the lock or died holding it |
| AddRepoLock.ExclusiveIffAtomic | internal/cli/ws_add_repo.go:836-902 | at most one live holder for each workspace in every run if and only if both pairs of calls are atomic |
| AddRepoLock.LockNamesDiffer | internal/cli/ws_add_repo.go:841-841 | different workspaces have different lock files |
| GitStatus.ParseSnapshot | internal/cli/git_status_snapshot.go:44-81 | the line loop computes the reading of the whole output, and fails exactly if some line is a change without its two letters or a branch.ab without two numbers |
| GitStatus.FailsIffBadLine | internal/cli/git_status_snapshot.go:83-164 | reading fails exactly on an output with such a line, wherever it is |
| GitStatus.ReadOfPrinted | internal/cli/git_status_snapshot.go:44-164 | every well-formed porcelain v2 output is read without an error, as the meaning of its lines by type |
| GitStatus.CountsAreEntryCounts | internal/cli/git_status_snapshot.go:44-164 | staged, unstaged and untracked are the numbers of entries by XY and type, and dirty holds exactly when a `1`, `2`, `u` or visible `?` entry exists |
| GitStatus.ReadOfTrimmed | internal/gitutil/gitutil.go:35-35 | trimming the whole output before it is read changes nothing |
| GitStatus.BlankNameIsNotSeen | internal/cli/git_status_snapshot.go:136-141 | an untracked file named by a blank is read as a clean repository |
| GitStatus.OrderDoesNotMatter | internal/cli/git_status_snapshot.go:44-81 | no count depends on the order of the lines |
| WorkspaceRisk.Aggregate | internal/core/workspacerisk/workspacerisk.go:56-85 | the risk is the most severe state of the repositories, clean for none |
| WorkspaceRisk.AggregateForState | internal/core/workspacerisk/workspacerisk.go:87-116 | the same with dirty above unknown |
| WorkspaceRisk.InspectRisk | internal/cli/git_status_snapshot.go:205-219 | a workspace is clean exactly when every repository is present, readable, not dirty, attached with head and upstream, and not ahead; otherwise its risk is the worst of them |
| WorkspaceRisk.PrintedIsCleanIff | internal/core/workspacerisk/workspacerisk.go:34-54 | in terms of what git printed: clean exactly when an upstream line is there and no line shows a change, a detached or missing head, or commits ahead |
| WorkspaceRisk.PrintedStateIff | internal/core/workspacerisk/workspacerisk.go:34-54 | each of the five states in terms of the lines git printed |
| WorkState.HasRepoSignalsChanged | internal/cli/workspace_workstate.go:336-388 | unchanged exactly when the alias sets match and every worktree is present, clean and at its baseline head |
| WorkState.HasFilesChanged | internal/cli/workspace_workstate.go:390-405 | unchanged exactly when the maps have equal sizes and agree on every baseline path, a missing path reading as empty |
| WorkState.FilesAgreeIffEqual | internal/cli/workspace_workstate.go:390-405 | with nonempty recorded hashes that comparison is equality of the maps |
| WorkState.FilesAgreeIsEqualityIff | internal/cli/workspace_workstate.go:390-405 | it is equality for every current state if and only if no recorded hash is empty |
| WorkState.DeriveState | internal/cli/workspace_workstate.go:301-334 | todo exactly when the baseline is matched, or is missing and the workspace is clean; an error exactly when the baseline cannot be read, or the files cannot be and the repositories match |
| WorkState.CaptureBaseline | internal/cli/workspace_workstate.go:216-255 | a refresh records exactly the present repositories with a head, and the hash of every file |
| WorkState.UntouchedSinceRefresh | internal/cli/workspace_workstate.go:301-324 | against a refreshed baseline, todo means that repositories and file contents are those of the refresh |
| WorkState.RefreshThenLook | internal/cli/workspace_workstate.go:216-255 | a look right after a refresh is todo exactly when every repository was present, readable, clean and had a head |
| WorkStateRuns.ListActive | internal/cli/ws_list.go:171-283 | a listing fails without saving when a workspace cannot be read or the cache cannot be saved, and else returns and saves what the row by row definition gives |
| WorkStateRuns.LatchedIffDerived | internal/cli/workspace_workstate.go:201-299 | over every run of listings, refreshes and removals, the cache latches a workspace exactly when a completed listing since its last completed refresh or removal derived in-progress |
| WorkStateRuns.ListedIffDerived | internal/cli/ws_list.go:227-281 | a workspace is listed in-progress exactly when this listing, or one since its last reset, derives it |
| WorkStateRuns.FirstTimeIsKept | internal/cli/workspace_workstate.go:264-299 | over every run, a latched entry keeps the time of its first derivation until the workspace is refreshed or removed |
| WorkStateRuns.LatchedAtFirst | internal/cli/workspace_workstate.go:264-299 | a workspace that a listing latches carries the time of the first row that derived it |
| WorkStateRuns.BaselineIsLatest | internal/cli/workspace_workstate.go:216-262 | over every run, a workspace's baseline is the one of the latest refresh or removal that wrote it, also when clearing the cache failed after that |
| RepoGC.ScanRoot | internal/cli/repo_gc.go:600-630 | one root's counts are its numbers of restore entries by trimmed uid; one unreadable metadata file fails the scan |
| RepoGC.RefsMeans | internal/cli/repo_gc.go:600-630 | a root has references to a repository exactly when some readable metadata in it has a restore entry that trims to the uid |
| RepoGC.AddRoot | internal/cli/repo_gc.go:548-586 | each distinct root is added once, and the current root is counted apart even when it was registered |
| RepoGC.CollectRefCounts | internal/cli/repo_gc.go:534-598 | the counts are sums over the distinct registered roots and the current one, and exist exactly when all of these can be read |
| RepoGC.CountsAreExact | internal/cli/repo_gc.go:397-438 | a candidate's other-root count is the sum of the references over the distinct registered roots other than the current one, and the clamp at zero never applies |
| RepoGC.EligibleIffUnreferenced | internal/cli/repo_gc.go:36-41 | eligible exactly when inspectable, without linked worktree, and referred to by no registered or current root |
| RepoGC.BuildCandidates | internal/cli/repo_gc.go:381-464 | one candidate for each bare repository of the pool, sorted |
| RepoGCSelect.FindMeans | internal/cli/repo_gc.go:688-735 | a word finds a repository exactly when it is a uid, or else a key that belongs to one repository only |
| RepoGCSelect.SelectionIsExact | internal/cli/repo_gc.go:706-733 | the selection exists exactly when every nonblank word stands for a repository, and then holds exactly those, once each |
| RepoGCSelect.Pool.Run | internal/cli/repo_gc.go:225-303 | nothing is deleted unless the user agrees and every selected repository is eligible; then exactly the selected ones whose removal succeeds |
| RepoGCSelect.DeletedIsUnreferenced | internal/cli/repo_gc.go:240-280 | from the file system to the deletion: a repository that may be deleted has no linked worktree, and if its origin is a form of host, owner and name, or it has none and is stored at their place, no restore entry of a registered or current root trims to host/owner/repo |
| RepoGCSelect.Pool.Collect | internal/cli/repo_gc.go:152-303 | the whole command: what it removes is a repository of the pool without linked worktree for whose host/owner/repo, by its origin or else by its place, no registered or current root has a restore entry; if a root cannot be read nothing is removed |
| Retention.HadIsInUse | internal/cli/repo_gc.go:534-630 | a repository that a workspace of a registered or current root has an entry for, active or archived, is in use |
| Retention.AddThenCollect | internal/cli/repo_gc.go:152-303 | a collection after a successful add-repo, whatever its arguments, removes none of the repositories that were added |
| Retention.ClosedStillHas | internal/cli/ws_close.go:586-646 | what a closable workspace has an entry for it still has an entry for in the archive, under the same uid |
| Registry.ReachableIsValid | internal/stateregistry/registry.go:72-379 | every registry reachable from empty by touch, set-name, rename and remove is strictly sorted by root with unique nonempty names |
| Registry.ApplyKeepsValid | internal/stateregistry/registry.go:184-379 | every update keeps that |
| Registry.LookupsAreInverse | internal/stateregistry/registry.go:247-291 | name-to-root and root-to-name lookups are inverse |
| Registry.RenameAnswersTheRoot | internal/stateregistry/registry.go:293-347 | rename answers the root that carried the old name, though it reads it after sorting again; the new name then belongs to it and the old one to none |
| Registry.RenamesIff | internal/stateregistry/registry.go:293-347 | a rename is accepted exactly if the names are nonblank and differ, some root carries the old one and none the new one; else nothing changes |
| Registry.NamedIsRecorded | internal/stateregistry/registry.go:184-245 | a name is accepted exactly if it is nonblank and no other root carries it; then both lookups connect it with the root, which is used at that time or later and keeps its first-seen time |
| Registry.RemovedIsForgotten | internal/stateregistry/registry.go:349-379 | a removal is accepted exactly if some root carries the name; then neither the root nor the name is in the registry |
| Registry.LastUsedNeverDecreases | internal/stateregistry/registry.go:72-123 | no update decreases the last-used time of a surviving entry |
| Registry.LastUsedNeverDecreasesInRuns | internal/stateregistry/registry.go:72-379 | over every run from empty, the last-used time of a root that stays never decreases |
| Registry.OthersUnchanged | internal/stateregistry/registry.go:184-379 | an update changes, adds or removes no entry of a root other than the one it answers |
| Registry.TouchedIsRecorded | internal/stateregistry/registry.go:72-123 | a touched root is present and used at that time or later, and keeps its name and its first-seen time |
| Registry.RegistryFile.Touch | internal/stateregistry/registry.go:72-123 | the method does what the update function says, and nothing when the write fails |
| Registry.RegistryFile.SetContextName | internal/stateregistry/registry.go:184-245 | likewise, with both refusals |
| Registry.RegistryFile.RenameContextName | internal/stateregistry/registry.go:293-347 | likewise, with its four refusals |
| Registry.RegistryFile.RemoveContextName | internal/stateregistry/registry.go:349-379 | likewise, with both refusals |
| Subsequences.GreedyIff | internal/cli/filter_match.go:22-28 | taking each character at its first chance finds exactly the ordered subsequences |
| FilterMatch.FuzzyMatch | internal/cli/filter_match.go:7-29 | true exactly when the lowercase needle without blanks is a subsequence, byte by byte, of the lowercase haystack |
| FilterMatch.TypingNarrows | internal/cli/filter_match.go:7-29 | text typed anywhere into the filter never makes a further haystack match |
| FilterMatch.AsciiMatchesAsCharacters | internal/cli/filter_match.go:22-28 | for ASCII queries bytes match exactly when characters do |
| FilterMatch.CharactersMatchAsBytes | internal/cli/filter_match.go:22-28 | a match of characters is always a match of bytes |
| FilterMatch.BytesAreCharactersIffAscii | internal/cli/filter_match.go:22-28 | the filter shows exactly the haystacks whose lowercase characters match, for every haystack, if and only if the lowercase query is ASCII |
| FilterMatch.BytesMatchMore | internal/cli/filter_match.go:22-28 | for every query that is not ASCII, a haystack that the filter shows although its lowercase characters do not match |
| FilterMatch.BytesOfTwoCharactersMatchAThird | internal/cli/filter_match.go:22-28 | one such pair: U+00E9 is found in U+00E0 U+00A9 |
| Selector.VisibleMeans | internal/cli/ws_selector.go:912-920 | the visible rows are exactly the matching candidates, in order |
| Selector.TypingHides | internal/cli/ws_selector.go:328-349 | typing into the filter never adds a visible row |
| Selector.StepKeepsInv | internal/cli/ws_selector.go:115-221 | every message before quitting keeps the invariant of cursor, selection and flags |
| Selector.StepResponds | internal/cli/ws_selector.go:115-221 | what every message does in terms of the visible rows: in single mode Enter and Space choose exactly the row under the cursor, in multi mode Space flips exactly that row and Enter confirms a choice that is not empty, Up and Down move by one row, and the rest leaves the choice alone |
| Selector.SingleChoiceIsTheRow | internal/cli/ws_selector.go:280-296 | over every run in single mode, the choice of a finished run is the row that was under the cursor when Enter or Space was pressed |
| Selector.ChosenIffFlippedOdd | internal/cli/ws_selector.go:255-279 | over every run in multi mode, a candidate is chosen exactly if Space was pressed on it an odd number of times |
| Selector.EveryRunIsValid | internal/cli/ws_selector.go:115-221 | after every sequence of messages the cursor is on a visible row if there is one; done means not canceled and at least one selected id, exactly one in single mode |
| Selector.ConfirmingIsFinal | internal/cli/ws_selector.go:124-135 | once confirming, no message cancels or changes the selection, and the confirmation message ends the program |
| Selector.Viewport | internal/cli/ws_selector.go:699-725 | the viewport has exactly the smaller of visible rows and body rows, and contains the cursor |
| Selector.Screen.BodyRange | internal/cli/ws_selector.go:516-517 | one screen shows as many visible rows as fit below its chrome, and the row under the cursor among them |
| Selector.Truncate | internal/cli/ws_selector.go:950-976 | the text is never wider than asked; it is whole if it fits, else the longest beginning that leaves room for the ellipsis |
| Selector.Screen.Update | internal/cli/ws_selector.go:115-221 | the method on the program's object does the step, with the effect on the choice, cursor and filter that `StepResponds` states, and never indexes outside the visible rows |
| Selector.ListSelected | internal/cli/ws_selector.go:365-373 | the answer is the ids of the chosen candidates, each once, in the order of the candidates |
| ShellQuote.ShellSingleQuote | internal/app/shellaction/usecase.go:22-36 | the loop over runes gives the word of the other single-quote function, and a shell reads it as the text, exactly when the text is valid UTF-8 |
| ShellQuote.LoopChangesBadBytes | internal/app/shellaction/usecase.go:27-33 | for the byte 0xFF the loop's word is read as U+FFFD, the other function's as the byte |
| Bytes.SanitizeKeepsIff | internal/app/shellaction/usecase.go:27-33 | writing back the runes of a text keeps its bytes if and only if they are valid UTF-8 |
| ShellQuote.QuoteSingleReads | internal/app/cmux/usecase.go:301-306 | a single-quoted word is read as the text, for every sequence of bytes |
| ShellQuote.DoubleBodyReads | internal/app/cmux/usecase.go:308-311 | text escaped for double quotes is read as the text, for every sequence of bytes |
| ShellQuote.CDPathReadsIff | internal/app/cmux/usecase.go:313-326 | the word for `cd` is read as the path exactly when HOME is the home directory seen, or the path is not under it |
| ShellQuote.UnknownHomeReads | internal/app/cmux/usecase.go:313-326 | without a known home directory the word is read as the path |
| JiraImport.Plan.Build | internal/cli/ws_import_jira.go:475-540 | one item for each input, in order: to create exactly if its id is acceptable and not in use, failed exactly if it is not acceptable; the inputs to create are those, in order; every number of the summary is the number of items with that action, and they add up to the candidates |
| JiraImport.Plan.MarkFailed | internal/cli/ws_import_jira.go:881-902 | the first item to create with the key fails, or an item is appended when there is none |
| JiraImport.Plan.Apply | internal/cli/ws_import_jira.go:270-281 | items are conserved even with repeated ids, the summary stays balanced, and the items left to create are, id by id, the created workspaces |
| JiraImport.ItemIsThere | internal/cli/ws_import_jira.go:881-902 | while an input waits for creation an item carries its key, so the append fallback is never reached |
| JiraImport.ActionsPartition | internal/cli/ws_import_jira.go:475-540 | to create, skipped and failed together are all items |

## Left out

- Flag parsing, usage text, JSON envelopes, styling and rendering: many branches, no deep property.
- The behaviour of git, gh, cmux, Jira and the terminal library beyond the replies and abstract operations
  that the model takes as parameters.
- Text that is not valid UTF-8, except in `ShellQuote`, where it makes a difference: elsewhere strings are sequences of characters.
- Partial effects of one failing call, such as a directory that is only half removed: a failing call changes nothing.
- Failing read-only queries of git and of the file system: in `Lifecycle` and `AddRepo` they answer.
- State restoration after a failed reopen: worktrees that were recreated before the failure may stay in the
  archived directory; only directory, metadata and files are claimed there.
- AddRepoLock.ExclusiveIffAtomic: pids are not reused, and the two attempts are steps of a state machine rather than a loop over a file.
- Lifecycle.Reopen: like the code, it does not look at the metadata status before it moves the directory; that a late failure shows in the metadata is stated for archived metadata not already marked active, since marking it again would not show.
- Baseline and cmux clean-up calls whose failures close, reopen and purge ignore.
- RepoSpec.HttpsNormalizes: only for components that url.Parse leaves alone (`RepoSpec.Plain`), and likewise `FileNormalizes`; user names, ports, escapes, queries and fragments in URLs are not taken apart.
- RepoSpec.ReadsBackIff: the https half likewise; the ssh half holds for all clean components.
- GitStatus.ReadOfPrinted: the short labels of changed files are not modelled, and XY letters are ASCII; the
  error for a missing path cannot occur because a field is never empty.
- WorkState.HasRepoSignalsChanged: the number of commits since the baseline is not modelled, as every answer reports a change.
- FilterMatch.FuzzyMatch: the case table is a parameter, with the condition that it neither makes nor removes blanks.
- FilterMatch.BytesAreCharactersIffAscii: of the case table it is assumed that lower-casing twice is lower-casing once, that U+0080 to U+00BF and U+0780 to U+07BF have no case, and that every first byte has more than one lowercase character.
- Selector.Screen.Update: the text field answers with any text and position; its own editing keys are not modelled.
- RepoGC.BuildCandidates: reading `git worktree list` is a parameter that says whether linked worktrees exist.
- RepoGCSelect.Pool.Run: the interactive choice is left out; repositories are chosen by words.
- JiraImport.Plan.Apply: creations answer from a list; the classification of error texts is left out.
- ReconcileMappingWithRuntime, probing and switch target resolution: they prune and look up entries without a protocol.
- Listing and counting repositories of a workspace, and removing restore entries by alias: they would add easy members.
- Registry.RegistryFile.Touch: roots are given as cleaned absolute paths and times as positive seconds.
- Unstable sorting: the model's sort is stable; where the program's is not, the keys are distinct or only a permutation is claimed.
- The contents of worktrees: whether they have uncommitted changes does not enter close and reopen, which remove and recreate them.
- Directory names with surrounding blanks, and symbolic links.
- YAML and JSON encoding, and writing through a temporary file: load and save are the identity.
- The retired state store, shell completion, configuration merging, doctor, templates, and the fetch interval.
