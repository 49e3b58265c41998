/** A workspace from its creation on: what create and add-repo leave can be closed and reopened, with the
    repositories of a pool. */
module Lifetime {
  import opened Text
  import opened RepoSpec
  import opened World
  import opened AddRepo
  import opened Lifecycle
  import opened RoundTrip

  /** A workspace without repositories. */
  predicate Repoless(w: State, id: string) {
    id in w.active && w.active[id].repos == map[] && LoadMeta(w.active[id]).Some?
      && LoadMeta(w.active[id]).value.repos == []
  }

  /** A workspace without repositories has nothing to record or to remove. */
  lemma {:induction false} FreshIsClosable(locate: Locator, w: State, id: string)
    requires Repoless(w, id) && id !in w.archive
    ensures Closable(locate, w, id)
  {
  }

  // ----- Links through the apply loop -----

  lemma {:induction false} LinkKept(
    w: State, id: string, a: Applied, v: State, alias: string, bare: Path, branch: string)
    requires Linked(w, id, alias, bare, branch) && WithItem(w, id, a) == Some(v)
    ensures Linked(v, id, alias, bare, branch)
  {
    var u := WithBranch(w, a).value;
    assert Linked(u, id, alias, bare, branch);
    if a.createdWorktree && a.item.bare == bare {
      assert CheckedOut(u.bares[bare], branch);
    }
  }

  lemma {:induction false} NewLink(w: State, id: string, p: PlanItem, v: State)
    requires WithItem(w, id, Full(p)) == Some(v)
    ensures Linked(v, id, p.alias, p.bare, p.branch)
  {
    var u := WithBranch(w, Full(p)).value;
    assert !CheckedOut(u.bares[p.bare], p.branch);
  }

  /** What every item keeps, the loop keeps from its k-th item on. */
  lemma {:induction false} BuiltKeepsProperty(
    w: State, id: string, applied: seq<Applied>, k: nat, n: nat, holds: State -> bool)
    requires k <= n <= |applied| && Built(w, id, applied, n).Some? && Built(w, id, applied, k).Some?
    requires holds(Built(w, id, applied, k).value)
    requires forall v, i :: 0 <= i < |applied| && holds(v) && WithItem(v, id, applied[i]).Some? ==>
        holds(WithItem(v, id, applied[i]).value)
    ensures holds(Built(w, id, applied, n).value)
  {
    if k < n {
      BuiltPrefix(w, id, applied, n - 1, n);
      BuiltKeepsProperty(w, id, applied, k, n - 1, holds);
      BuiltNext(w, id, applied, n - 1, Built(w, id, applied, n - 1).value, applied[n - 1]);
    }
  }

  lemma {:induction false} BuiltKeepsLink(
    w: State, id: string, applied: seq<Applied>, k: nat, alias: string, bare: Path, branch: string)
    requires k <= |applied| && Built(w, id, applied, |applied|).Some? && Built(w, id, applied, k).Some?
    requires Linked(Built(w, id, applied, k).value, id, alias, bare, branch)
    ensures Linked(Built(w, id, applied, |applied|).value, id, alias, bare, branch)
  {
    var holds := (v: State) => Linked(v, id, alias, bare, branch);
    forall v, i | 0 <= i < |applied| && holds(v) && WithItem(v, id, applied[i]).Some?
        ensures holds(WithItem(v, id, applied[i]).value) {
      LinkKept(v, id, applied[i], WithItem(v, id, applied[i]).value, alias, bare, branch);
    }
    BuiltKeepsProperty(w, id, applied, k, |applied|, holds);
  }

  /** Every item of an applied plan is linked in the end. */
  lemma {:induction false} BuiltLinksItem(w: State, id: string, plan: seq<PlanItem>, k: nat)
    requires k < |plan| && Built(w, id, FullPlan(plan), |plan|).Some?
    ensures Linked(Built(w, id, FullPlan(plan), |plan|).value, id, plan[k].alias, plan[k].bare, plan[k].branch)
  {
    var applied, p := FullPlan(plan), plan[k];
    var before, after := BuiltAt(w, id, applied, k);
    assert applied[k] == Full(p);
    NewLink(before, id, p, after);
    BuiltKeepsLink(w, id, applied, k + 1, p.alias, p.bare, p.branch);
  }

  ghost predicate NoDir(w: State, id: string, a: string) {
    id in w.active && a !in w.active[id].repos
  }

  lemma {:induction false} NoOtherDir(w: State, id: string, x: Applied, v: State, a: string)
    requires NoDir(w, id, a) && WithItem(w, id, x) == Some(v) && a != x.item.alias
    ensures NoDir(v, id, a)
  {
  }

  lemma {:induction false} BuiltKeepsNoDir(w: State, id: string, applied: seq<Applied>, u: State, a: string)
    requires Built(w, id, applied, |applied|) == Some(u) && NoDir(w, id, a)
    requires forall k :: 0 <= k < |applied| ==> applied[k].item.alias != a
    ensures NoDir(u, id, a)
  {
    var holds := (v: State) => NoDir(v, id, a);
    forall v, i | 0 <= i < |applied| && holds(v) && WithItem(v, id, applied[i]).Some?
        ensures holds(WithItem(v, id, applied[i]).value) {
      NoOtherDir(v, id, applied[i], WithItem(v, id, applied[i]).value, a);
    }
    BuiltKeepsProperty(w, id, applied, 0, |applied|, holds);
  }

  // ----- Bindings to a pool -----

  /** The bare repository is stored where the pool keeps the repository of its origin URL. */
  ghost predicate StoredAtOrigin(pool: Path, b: Bare, bare: Path) {
    && Trim(b.origin) != "" && Normalize(Trim(b.origin)).Success?
    && StorePath(pool, Normalize(Trim(b.origin)).value) == bare
  }

  predicate UsableBaseRef(baseRef: string) {
    ORIGIN <= Trim(baseRef) && Trim(Trim(baseRef)[|ORIGIN|..]) != ""
  }

  /** A linked worktree whose repository is stored at its origin is bound by an entry that names it. */
  lemma {:induction false} StoredIsBound(pool: Path, w: State, id: string, e: RestoreEntry, bare: Path, branch: string)
    requires Linked(w, id, e.alias, bare, branch) && StoredAtOrigin(pool, w.bares[bare], bare)
    requires Trim(e.alias) == e.alias != "" && Trim(branch) == branch != "" && Trim(e.uid) != ""
        && UsableBaseRef(e.baseRef)
    ensures Bound(PoolLocator(pool), w, id, e, bare, branch)
  {
    var locate, remote := PoolLocator(pool), Trim(w.bares[bare].origin);
    var r := Recorded(locate, w, e, bare, branch).value;
    TrimIsTrimmed(e.uid);
    TrimOfTrimmed(Trim(e.uid));
    TrimIsTrimmed(e.baseRef);
    TrimOfTrimmed(Trim(e.baseRef));
    TrimIsTrimmed(w.bares[bare].origin);
    TrimOfTrimmed(remote);
    assert EntryOk(r) && locate(r.remote).Some? && locate(r.remote).value.bare == bare;
  }

  /** The candidates are in the pool at the place of their origin, and the plan names branches and refs. */
  ghost predicate Bindable(pool: Path, w: State, plan: seq<PlanItem>) {
    forall i :: 0 <= i < |plan| ==>
      && plan[i].bare in w.bares && StoredAtOrigin(pool, w.bares[plan[i].bare], plan[i].bare)
      && Trim(plan[i].alias) == plan[i].alias && Trim(plan[i].branch) == plan[i].branch != "" && Trim(plan[i].uid) != ""
      && (ORIGIN <= BaseRef(plan[i]) ==> Trim(BaseRef(plan[i])[|ORIGIN|..]) != "")
  }

  /** A binding survives whatever keeps its link and its origin. */
  lemma {:induction false} BindingKept(
    locate: Locator, w: State, v: State, id: string, e: RestoreEntry, bare: Path, branch: string)
    requires Bound(locate, w, id, e, bare, branch) && Linked(v, id, e.alias, bare, branch)
    requires v.bares[bare].origin == w.bares[bare].origin
    ensures Bound(locate, v, id, e, bare, branch)
  {
    assert Recorded(locate, v, e, bare, branch) == Recorded(locate, w, e, bare, branch);
  }

  lemma {:induction false} LinkAfterPut(
    u: State, id: string, m: Meta, v: State, alias: string, bare: Path, branch: string)
    requires Linked(u, id, alias, bare, branch) && PutMeta(u, id, m) == Some(v)
    ensures Linked(v, id, alias, bare, branch)
  {
  }

  /** An entry that was bound before the command is bound after it. */
  lemma {:induction false} OldEntryBound(
    locate: Locator, w: State, id: string, plan: seq<PlanItem>, m: Meta, v: State, e: RestoreEntry)
    requires Built(w, id, FullPlan(plan), |plan|).Some?
        && PutMeta(Built(w, id, FullPlan(plan), |plan|).value, id, m) == Some(v)
    requires IsBound(locate, w, id, e)
    ensures IsBound(locate, v, id, e)
  {
    var u := Built(w, id, FullPlan(plan), |plan|).value;
    var bare, branch :| Bound(locate, w, id, e, bare, branch);
    BuiltKeepsLink(w, id, FullPlan(plan), 0, e.alias, bare, branch);
    LinkAfterPut(u, id, m, v, e.alias, bare, branch);
    BuiltKeeps(w, id, FullPlan(plan), |plan|);
    assert KeepsBare(w.bares[bare], u.bares[bare]);
    BindingKept(locate, w, v, id, e, bare, branch);
  }

  /** The entry of a planned repository is bound after the command. */
  lemma {:induction false} NewEntryBound(
    pool: Path, w: State, id: string, plan: seq<PlanItem>, m: Meta, v: State, k: nat)
    requires PlanOk(w, id, plan) && Bindable(pool, w, plan) && k < |plan|
    requires Built(w, id, FullPlan(FillAll(w, plan)), |plan|).Some?
    requires PutMeta(Built(w, id, FullPlan(FillAll(w, plan)), |plan|).value, id, m) == Some(v)
    ensures IsBound(PoolLocator(pool), v, id, RestoreOf(FillAll(w, plan)[k]))
  {
    var filled := FillAll(w, plan);
    var u, p := Built(w, id, FullPlan(filled), |plan|).value, filled[k];
    assert Usable(w, id, plan[k]);
    BuiltLinksItem(w, id, filled, k);
    LinkAfterPut(u, id, m, v, p.alias, p.bare, p.branch);
    BuiltKeeps(w, id, FullPlan(filled), |plan|);
    assert KeepsBare(w.bares[p.bare], u.bares[p.bare]);
    BaseRefIsTrimmed(plan[k]);
    StoredIsBound(pool, v, id, RestoreOf(p), p.bare, p.branch);
  }

  lemma {:induction false} BaseRefIsTrimmed(p: PlanItem)
    ensures Trim(BaseRef(p)) == BaseRef(p)
  {
    var raw := if Trim(p.baseRefInput) != "" then p.baseRefInput else p.defaultBaseRef;
    TrimIsTrimmed(raw);
    TrimOfTrimmed(Trim(raw));
  }

  lemma {:induction false} MergedEntryBound(
    pool: Path, w: State, id: string, plan: seq<PlanItem>, m: Meta, v: State, e: RestoreEntry)
    requires Closable(PoolLocator(pool), w, id) && PlanOk(w, id, plan) && Bindable(pool, w, plan)
    requires Built(w, id, FullPlan(FillAll(w, plan)), |plan|).Some?
    requires PutMeta(Built(w, id, FullPlan(FillAll(w, plan)), |plan|).value, id, m) == Some(v)
    requires e in LoadMeta(w.active[id]).value.repos + RestoreAll(FillAll(w, plan))
    ensures IsBound(PoolLocator(pool), v, id, e)
  {
    var before, filled := LoadMeta(w.active[id]).value.repos, FillAll(w, plan);
    if e in before {
      OldEntryBound(PoolLocator(pool), w, id, filled, m, v, e);
    } else {
      var k :| 0 <= k < |plan| && RestoreAll(filled)[k] == e;
      NewEntryBound(pool, w, id, plan, m, v, k);
    }
  }

  lemma {:induction false} ListedIfNamed(all: seq<RestoreEntry>, merged: seq<RestoreEntry>, j: nat)
    requires Lists(merged, ByAlias(all, |all|)) && j < |all|
    ensures exists i :: 0 <= i < |merged| && Trim(merged[i].alias) == Trim(all[j].alias)
  {
    var a := Trim(all[j].alias);
    ByAliasMembers(all, |all|, a);
    var i :| 0 <= i < |merged| && merged[i] == ByAlias(all, |all|)[a];
  }

  lemma {:induction false} DirIsPlanned(w: State, id: string, plan: seq<PlanItem>, u: State, a: string) returns (k: nat)
    requires NoDir(w, id, a) && Built(w, id, FullPlan(plan), |plan|) == Some(u) && !NoDir(u, id, a)
    ensures k < |plan| && plan[k].alias == a
  {
    var applied := FullPlan(plan);
    if forall i :: 0 <= i < |applied| ==> applied[i].item.alias != a {
      BuiltKeepsNoDir(w, id, applied, u, a);
    }
    k :| 0 <= k < |applied| && applied[k].item.alias == a;
  }

  lemma {:induction false} DirIsRecorded(locate: Locator, w: State, id: string, a: string) returns (j: nat)
    requires Closable(locate, w, id) && a in w.active[id].repos
    ensures var before := LoadMeta(w.active[id]).value.repos; j < |before| && Trim(before[j].alias) == a
  {
    var before := LoadMeta(w.active[id]).value.repos;
    j :| 0 <= j < |before| && before[j].alias == a;
    assert IsBound(locate, w, id, before[j]);
  }

  /** Every repo directory is named by the metadata before or by the plan. */
  lemma {:induction false} DirIsNamed(
    locate: Locator, w: State, id: string, plan: seq<PlanItem>, u: State, a: string) returns (j: nat)
    requires Closable(locate, w, id) && Built(w, id, FullPlan(plan), |plan|) == Some(u) && id in u.active
        && a in u.active[id].repos
    requires forall k :: 0 <= k < |plan| ==> Trim(plan[k].alias) == plan[k].alias
    ensures var all := LoadMeta(w.active[id]).value.repos + RestoreAll(plan); j < |all| && Trim(all[j].alias) == a
  {
    var before := LoadMeta(w.active[id]).value.repos;
    if a in w.active[id].repos {
      j := DirIsRecorded(locate, w, id, a);
    } else {
      var k := DirIsPlanned(w, id, plan, u, a);
      j := |before| + k;
      PlannedEntryAt(before, plan, k);
    }
  }

  lemma {:induction false} PlannedEntryAt(before: seq<RestoreEntry>, plan: seq<PlanItem>, k: nat)
    requires k < |plan|
    ensures (before + RestoreAll(plan))[|before| + k] == RestoreOf(plan[k])
  {
  }

  /** The merged list names every repo directory. */
  lemma {:induction false} MergedListsDir(
    pool: Path, w: State, id: string, plan: seq<PlanItem>, u: State, merged: seq<RestoreEntry>, a: string)
    requires Closable(PoolLocator(pool), w, id) && Bindable(pool, w, plan)
    requires Built(w, id, FullPlan(FillAll(w, plan)), |plan|) == Some(u) && id in u.active && a in u.active[id].repos
    requires var all := LoadMeta(w.active[id]).value.repos + RestoreAll(FillAll(w, plan));
        Lists(merged, ByAlias(all, |all|))
    ensures exists i :: 0 <= i < |merged| && Trim(merged[i].alias) == a
  {
    var j := DirIsNamed(PoolLocator(pool), w, id, FillAll(w, plan), u, a);
    ListedIfNamed(LoadMeta(w.active[id]).value.repos + RestoreAll(FillAll(w, plan)), merged, j);
  }

  /** Adding repositories of the pool keeps a workspace closable. */
  lemma {:induction false} AddedIsClosable(pool: Path, w: State, id: string, plan: seq<PlanItem>, v: State)
    requires Closable(PoolLocator(pool), w, id) && PlanOk(w, id, plan) && Bindable(pool, w, plan)
    requires Added(w, id, FillAll(w, plan), v)
    ensures Closable(PoolLocator(pool), v, id)
  {
    var u, m := AddedWrote(w, id, FillAll(w, plan), v);
    forall i | 0 <= i < |m.repos| ensures IsBound(PoolLocator(pool), v, id, m.repos[i])
        && Trim(m.repos[i].alias) == m.repos[i].alias {
      ListedEntryBound(pool, w, id, plan, m, v, i);
    }
    forall a | a in v.active[id].repos ensures exists i :: 0 <= i < |m.repos| && m.repos[i].alias == a {
      MergedListsDir(pool, w, id, plan, u, m.repos, a);
    }
  }

  lemma {:induction false} ListedEntryBound(
    pool: Path, w: State, id: string, plan: seq<PlanItem>, m: Meta, v: State, i: nat)
    requires Closable(PoolLocator(pool), w, id) && PlanOk(w, id, plan) && Bindable(pool, w, plan) && i < |m.repos|
    requires Built(w, id, FullPlan(FillAll(w, plan)), |plan|).Some?
    requires PutMeta(Built(w, id, FullPlan(FillAll(w, plan)), |plan|).value, id, m) == Some(v)
    requires var all := LoadMeta(w.active[id]).value.repos + RestoreAll(FillAll(w, plan));
        Lists(m.repos, ByAlias(all, |all|))
    ensures IsBound(PoolLocator(pool), v, id, m.repos[i]) && Trim(m.repos[i].alias) == m.repos[i].alias
  {
    var all := LoadMeta(w.active[id]).value.repos + RestoreAll(FillAll(w, plan));
    ByAliasMembers(all, |all|, Trim(m.repos[i].alias));
    MergedEntryBound(pool, w, id, plan, m, v, m.repos[i]);
  }

  // ----- The commands one after the other -----

  /** The state that create leaves. */
  function Created(w: State, id: string, title: string, url: string, now: int, files: map<string, string>): State {
    WithDir(w, id, Dir(Some(NewMeta(id, title, url, now)), files, map[]))
  }

  /** On a disk whose calls do not fail, create, add-repo, close and reopen all succeed for repositories of
      the pool, and the reopened workspace is what add-repo left. */
  method CreateAddCloseReopen(
    disk: Disk, pool: Path, up: string -> Upstream, id: string, title: string, url: string, files: map<string, string>,
    plan: seq<PlanItem>, ghost specs: seq<Spec>, now: int)
    returns (created: Outcome, added: bool, closed: Outcome, reopened: Outcome, ghost full: State)
    requires disk.Reliable() && CanCreate(disk.state, id, Some(files)) && Trim(id) != ""
    requires var w := Created(disk.state, id, title, url, now, files);
             Ordinary(w, id, pool, specs, plan) && PlanOk(w, id, plan) && Bindable(pool, w, plan)
    modifies disk
    ensures created.Ok? && added && closed.Ok? && reopened.Ok?
    ensures var w := Created(old(disk.state), id, title, url, now, files); Added(w, id, FillAll(w, plan), full)
    ensures CameBack(PoolLocator(pool), full, id, disk.state)
  {
    created := Create(disk, id, title, url, now, Some(files), true, true);
    ghost var w := disk.state;
    FreshIsClosable(PoolLocator(pool), w, id);
    var clean: bool;
    added, clean := AddRepos(disk, id, plan, now, pool, specs);
    full := disk.state;
    AddedIsClosable(pool, w, id, plan, full);
    closed, reopened := CloseThenReopen(disk, PoolLocator(pool), up, id, now, now);
  }

  /** Closing a workspace without repositories only moves it and marks it. */
  lemma {:induction false} RepolessClosed(locate: Locator, w: State, id: string, v: State)
    requires Repoless(w, id) && id !in w.archive && Closed(locate, w, id, v)
    ensures v.active == w.active - {id} && v.bares == w.bares && v.archive.Keys == w.archive.Keys + {id}
    ensures forall k :: k in w.archive ==> v.archive[k] == w.archive[k]
    ensures LoadMeta(v.archive[id]).Some?
    ensures GuardEnabled(LoadMeta(v.archive[id]).value) == GuardEnabled(LoadMeta(w.active[id]).value)
  {
    var plan := RepolessPlan(locate, w, id, v);
    MarkedAndMoved(w, id, plan.updated, v);
  }

  lemma {:induction false} RepolessPlan(locate: Locator, w: State, id: string, v: State) returns (plan: ClosePlan)
    requires Repoless(w, id) && Closed(locate, w, id, v)
    ensures PutMeta(w, id, plan.updated).Some? && MoveToArchive(PutMeta(w, id, plan.updated).value, id) == Some(v)
    ensures var m := LoadMeta(w.active[id]).value; plan.updated.id == m.id && plan.updated.guard == m.guard
  {
    plan :| ReadyToClose(locate, w, id, plan) && Archived(w, id, plan, v);
    NothingToStrip(w, id, plan.aliases);
  }

  lemma {:induction false} MarkedAndMoved(w: State, id: string, m: Meta, v: State)
    requires id in w.active && id !in w.archive && MoveToArchive(PutMeta(w, id, m).value, id) == Some(v)
    ensures v.active == w.active - {id} && v.bares == w.bares
    ensures v.archive == w.archive[id := w.active[id].(meta := Some(m))]
  {
  }

  lemma {:induction false} NothingToStrip(w: State, id: string, aliases: seq<string>)
    requires Repoless(w, id) && ListsAliases(aliases, BoundAliases(w, id))
    ensures Strip(w, id, aliases) == Some(w)
  {
    assert BoundAliases(w, id) == {};
    NothingListed(aliases, BoundAliases(w, id));
  }

  /** On a disk whose calls do not fail, a workspace that is created, unlocked, closed and purged leaves no trace. */
  method CreateUnlockClosePurge(
    disk: Disk, locate: Locator, id: string, title: string, url: string, files: map<string, string>, now: int)
    returns (created: Outcome, unlocked: Outcome, closed: Outcome, purged: Outcome)
    requires disk.Reliable() && CanCreate(disk.state, id, Some(files)) && Trim(id) != ""
    modifies disk
    ensures created.Ok? && unlocked.Ok? && closed.Ok? && purged.Ok?
    ensures disk.state == old(disk.state)
  {
    created := Create(disk, id, title, url, now, Some(files), true, true);
    unlocked := LockOrUnlock(disk, id, false, now);
    ghost var w := disk.state;
    assert w.active - {id} == old(disk.state).active;
    FreshIsClosable(locate, w, id);
    ClosableCanClose(locate, w, id);
    closed := Close(disk, locate, id, With(true, true), now);
    RepolessClosed(locate, w, id, disk.state);
    purged := Purge(disk, id, With(true, true));
    assert disk.state.archive == old(disk.state).archive;
  }

  /** ... and one that is not unlocked stays in the archive: the purge is refused. */
  method CreateClosePurge(
    disk: Disk, locate: Locator, id: string, title: string, url: string, files: map<string, string>, now: int)
    returns (created: Outcome, closed: Outcome, purged: Outcome)
    requires disk.Reliable() && CanCreate(disk.state, id, Some(files)) && Trim(id) != ""
    modifies disk
    ensures created.Ok? && closed.Ok? && purged == Failed(false, true)
    ensures id in disk.state.archive && id !in disk.state.active && LoadMeta(disk.state.archive[id]).Some?
    ensures disk.state.archive - {id} == old(disk.state).archive && disk.state.active == old(disk.state).active
  {
    created := Create(disk, id, title, url, now, Some(files), true, true);
    ghost var w := disk.state;
    assert w.active - {id} == old(disk.state).active;
    FreshIsClosable(locate, w, id);
    ClosableCanClose(locate, w, id);
    closed := Close(disk, locate, id, With(true, true), now);
    RepolessClosed(locate, w, id, disk.state);
    purged := Purge(disk, id, With(true, true));
    assert disk.state.archive - {id} == old(disk.state).archive;
  }

  // ----- Inputs for which each command reports a failure after its effects took place -----

  /** Create, when the baseline or the commit after it is refused. */
  method CreateFailsLate(baselineOk: bool) returns (o: Outcome, v: State)
    ensures o == Failed(true, true) && "w" in v.active
  {
    var disk := new Disk(State(map[], map[], map[]), n => false);
    o := Create(disk, "w", "", "", 1, Some(map[]), baselineOk, false);
    v := disk.state;
  }

  /** Close, when the commit after the move is refused. */
  method CloseFailsLate(locate: Locator) returns (o: Outcome, v: State)
    ensures o == Failed(true, true) && "w" !in v.active && "w" in v.archive
  {
    assert Trim("w") == "w";
    var disk := new Disk(State(map["w" := Dir(Some(NewMeta("w", "", "", 1)), map[], map[])], map[], map[]), n => false);
    ghost var w := disk.state;
    FreshIsClosable(locate, w, "w");
    ClosableCanClose(locate, w, "w");
    o := Close(disk, locate, "w", With(true, false), 2);
    v := disk.state;
    assert Closed(locate, w, "w", v);
  }

  /** An archived workspace without repositories, its guard off. */
  function Shut(): State {
    State(map[], map["w" := Dir(Some(NewMeta("w", "", "", 1).(status := ARCHIVED, guard := Some(false))), map[],
        map[])], map[])
  }

  /** Reopen, when the commit after the effects is refused. */
  method ReopenFailsLate(locate: Locator, up: string -> Upstream) returns (o: Outcome, v: State)
    ensures o == Failed(true, true) && "w" in v.active
  {
    assert Trim("w") == "w";
    var disk := new Disk(Shut(), n => false);
    assert CanReopen(disk.state, up, locate, "w");
    o := Reopen(disk, up, locate, "w", With(true, false), 2);
    v := disk.state;
  }

  /** Purge, when the commit after the deletion is refused. */
  method PurgeFailsLate() returns (o: Outcome, v: State)
    ensures o == Failed(true, true) && "w" !in v.archive
  {
    assert Trim("w") == "w";
    var disk := new Disk(Shut(), n => false);
    o := Purge(disk, "w", With(true, false));
    v := disk.state;
  }
}
