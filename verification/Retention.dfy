/** Between add-repo, close and the garbage collection of the pool: a repository that a workspace has is kept
    (internal/cli/ws_add_repo.go, internal/cli/ws_close.go, internal/cli/repo_gc.go). */
module Retention {
  import opened Text
  import opened RepoSpec
  import opened World
  import opened AddRepo
  import opened Lifecycle
  import opened RoundTrip
  import RepoGC
  import RepoGCSelect

  /** What the scan reads of one workspace directory: the uids of its restore entries. */
  function Scanned(d: Dir): RepoGC.Bindings {
    if LoadMeta(d).None? then None
    else
      var repos := LoadMeta(d).value.repos;
      Some(seq(|repos|, i requires 0 <= i < |repos| => repos[i].uid))
  }

  /** The root as the scan sees it: every directory of workspaces/ and of archive/. */
  ghost predicate Scans(w: State, root: RepoGC.Root) {
    && (forall id :: id in w.active ==> exists i :: 0 <= i < |root| && root[i] == Scanned(w.active[id]))
    && (forall id :: id in w.archive ==> exists i :: 0 <= i < |root| && root[i] == Scanned(w.archive[id]))
  }

  /** The metadata of the directory has an entry for the repository. */
  ghost predicate HasEntry(d: Dir, uid: string) {
    LoadMeta(d).Some? && exists e :: e in LoadMeta(d).value.repos && Trim(e.uid) == uid
  }

  /** The workspace, wherever it is, has an entry for the repository. */
  ghost predicate Has(w: State, id: string, uid: string) {
    (id in w.active && HasEntry(w.active[id], uid)) || (id in w.archive && HasEntry(w.archive[id], uid))
  }

  lemma {:induction false} KeptIsNamed(d: Dir, uid: string)
    requires HasEntry(d, uid)
    ensures Scanned(d).Some? && RepoGC.Names(Scanned(d).value, uid)
  {
    var repos := LoadMeta(d).value.repos;
    var e :| e in repos && Trim(e.uid) == uid;
    var i :| 0 <= i < |repos| && repos[i] == e;
    assert Scanned(d).value[i] == e.uid;
  }

  lemma {:induction false} HadIsMentioned(w: State, id: string, uid: string, root: RepoGC.Root)
    requires Has(w, id, uid) && Scans(w, root)
    ensures RepoGC.Mentions(root, uid)
  {
    var d := if id in w.active && HasEntry(w.active[id], uid) then w.active[id] else w.archive[id];
    KeptIsNamed(d, uid);
    var i :| 0 <= i < |root| && root[i] == Scanned(d);
  }

  /** The pool's directory listing has each path once. */
  ghost predicate ListedOnce(found: seq<RepoGC.Bare>, b: RepoGC.Bare) {
    b in found && forall c :: c in found && c.path == b.path ==> c == b
  }

  /** A repository that a workspace of a registered or current root has is in use. */
  lemma {:induction false} HadIsInUse(
    w: State, id: string, roots: RepoGC.Roots, registered: seq<string>, current: string, path: string,
    pool: Path, found: seq<RepoGC.Bare>, b: RepoGC.Bare, host: string, owner: string, repo: string)
    requires Has(w, id, host + "/" + owner + "/" + repo)
    requires path in RepoGC.RootPaths(registered) + RepoGC.CurrentPath(current) && path in roots
    requires Scans(w, roots[path]) && ListedOnce(found, b) && RepoGCSelect.IsRepo(b, pool, host, owner, repo)
    ensures !RepoGCSelect.NotInUse(b.path, roots, registered, current, pool, found)
  {
    HadIsMentioned(w, id, host + "/" + owner + "/" + repo, roots[path]);
  }

  lemma {:induction false} MergedHoldsPlanned(
    before: seq<RestoreEntry>, plan: seq<PlanItem>, merged: seq<RestoreEntry>, k: nat)
    requires Merges(before + EntriesFor(plan), merged) && k < |plan|
    requires forall j :: k < j < |plan| ==> Trim(plan[j].alias) != Trim(plan[k].alias)
    ensures EntryFor(plan[k]) in merged
  {
    var all, i := before + EntriesFor(plan), |before| + k;
    assert all[i] == EntryFor(plan[k]);
    forall j | i < j < |all| ensures Trim(all[j].alias) != Trim(all[i].alias) {
      assert all[j] == EntryFor(plan[j - |before|]);
    }
  }

  /** What add-repo added, the workspace has. */
  lemma {:induction false} AddedIsHad(w: State, id: string, plan: seq<PlanItem>, v: State, k: nat)
    requires Records(w, id, plan, v) && k < |plan|
    requires forall j :: k < j < |plan| ==> Trim(plan[j].alias) != Trim(plan[k].alias)
    ensures Has(v, id, Trim(plan[k].uid))
  {
    MergedHoldsPlanned(LoadMeta(w.active[id]).value.repos, plan, LoadMeta(v.active[id]).value.repos, k);
  }

  lemma {:induction false} EntryIsBound(locate: Locator, w: State, id: string, e: RestoreEntry)
    returns (bare: Path, branch: string)
    requires Closable(locate, w, id) && e in LoadMeta(w.active[id]).value.repos
    ensures Bound(locate, w, id, e, bare, branch)
  {
    AllBound(locate, w, id, e);
    bare, branch :| Bound(locate, w, id, e, bare, branch);
  }

  lemma {:induction false} AllBound(locate: Locator, w: State, id: string, e: RestoreEntry)
    requires Closable(locate, w, id) && e in LoadMeta(w.active[id]).value.repos
    ensures IsBound(locate, w, id, e)
  {
  }

  lemma {:induction false} RecordedUid(locate: Locator, w: State, e: RestoreEntry, bare: Path, branch: string)
    requires bare in w.bares && Recorded(locate, w, e, bare, branch).Some?
    ensures Trim(Recorded(locate, w, e, bare, branch).value.uid) == Trim(e.uid)
  {
    TrimIsTrimmed(e.uid);
    TrimOfTrimmed(Trim(e.uid));
  }

  lemma {:induction false} RecordedKeepsUid(locate: Locator, w: State, id: string, plan: ClosePlan, e: RestoreEntry)
    returns (r: RestoreEntry)
    requires Closable(locate, w, id) && ReadyToClose(locate, w, id, plan) && e in LoadMeta(w.active[id]).value.repos
    ensures r in plan.updated.repos && Trim(r.uid) == Trim(e.uid)
  {
    var bare, branch := EntryIsBound(locate, w, id, e);
    EntryIsRecorded(locate, w, id, plan, e, bare, branch);
    RecordedUid(locate, w, e, bare, branch);
    r := Recorded(locate, w, e, bare, branch).value;
  }

  /** What a workspace has when it is closed, it still has in the archive. */
  lemma {:induction false} ClosedStillHas(locate: Locator, w: State, id: string, v: State, e: RestoreEntry)
    requires Closable(locate, w, id) && Closed(locate, w, id, v) && e in LoadMeta(w.active[id]).value.repos
    ensures Has(v, id, Trim(e.uid))
  {
    var plan := ClosedWith(locate, w, id, v);
    var r := RecordedKeepsUid(locate, w, id, plan, e);
    assert LoadMeta(v.archive[id]) == Some(plan.updated);
  }

  lemma {:induction false} ClosedWith(locate: Locator, w: State, id: string, v: State) returns (plan: ClosePlan)
    requires Closed(locate, w, id, v)
    ensures ReadyToClose(locate, w, id, plan)
    ensures id in v.archive && v.archive[id].meta == Some(plan.updated) && Trim(plan.updated.id) != ""
  {
    plan :| ReadyToClose(locate, w, id, plan) && Archived(w, id, plan, v);
    MovedBackAfterClose(w, id, plan, v);
  }

  // ----- The commands one after the other -----

  /** Adding repositories and then collecting with every removal confirmed: whatever the arguments of the
      collection are, none of the repositories that were added is removed. */
  method AddThenCollect(
    disk: Disk, id: string, plan: seq<PlanItem>, now: int, scan: State -> RepoGC.Root, others: RepoGC.Roots,
    registered: seq<string>, path: string, store: RepoGCSelect.Pool, pool: Path, found: seq<RepoGC.Bare>,
    args: seq<string>, fails: Path -> bool, ghost specs: seq<Spec>)
    returns (added: bool, collected: bool)
    requires Trim(path) == path != "" && forall w :: Scans(w, scan(w))
    requires forall i, j :: 0 <= i < j < |plan| ==> Trim(plan[i].alias) != Trim(plan[j].alias)
    modifies disk, store
    ensures added ==> forall k, b, host, owner, repo ::
              0 <= k < |plan| && Trim(plan[k].uid) == host + "/" + owner + "/" + repo
              && ListedOnce(found, b) && RepoGCSelect.IsRepo(b, pool, host, owner, repo) && b.path in old(store.bares)
              ==> b.path in store.bares
  {
    var clean: bool;
    ghost var w := disk.state;
    added, clean := AddRepos(disk, id, plan, now, pool, specs);
    ghost var v := disk.state;
    var roots := others[path := scan(disk.state)];
    collected := store.Collect(roots, registered, path, pool, found, args, true, fails);
    if added {
      forall k, b, host, owner, repo |
        0 <= k < |plan| && Trim(plan[k].uid) == host + "/" + owner + "/" + repo
        && ListedOnce(found, b) && RepoGCSelect.IsRepo(b, pool, host, owner, repo) && b.path in old(store.bares)
        ensures b.path in store.bares
      {
        AddedIsHad(w, id, plan, v, k);
        HadIsInUse(v, id, roots, registered, path, path, pool, found, b, host, owner, repo);
      }
    }
  }
}
