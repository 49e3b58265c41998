/** The workspace commands create, lock, unlock, close, reopen and purge over the abstract disk
    (internal/cli/ws_workspace_create_common.go, ws_lock.go, ws_close.go, ws_reopen.go, ws_purge.go). */
module Lifecycle {
  import opened Text
  import opened Sorting
  import opened Folds
  import opened RepoSpec
  import opened World
  import opened AddRepo

  /** How a command ended: done, or failed; a failed one may still have moved or removed the workspace
      (`effective`), and reports whether the compensating calls it made went through, which every command
      below promises to be so exactly when none of these calls failed. */
  datatype Outcome = Ok | Failed(effective: bool, compensated: bool)

  predicate Took(o: Outcome) {
    o.Ok? || o.effective
  }

  predicate Compensated(o: Outcome) {
    o.Ok? || o.compensated
  }

  /** Steps of the state that commands are made of. */
  function WithDir(w: State, id: string, d: Dir): State {
    w.(active := w.active[id := d])
  }

  function MoveToArchive(w: State, id: string): Option<State> {
    if id in w.active && id !in w.archive then
      Some(w.(active := w.active - {id}, archive := w.archive[id := w.active[id]]))
    else None
  }

  function MoveToActive(w: State, id: string): Option<State> {
    if id in w.archive && id !in w.active then
      Some(w.(archive := w.archive - {id}, active := w.active[id := w.archive[id]]))
    else None
  }

  function RemoveActive(w: State, id: string): State {
    w.(active := w.active - {id})
  }

  function RemoveArchive(w: State, id: string): State {
    w.(archive := w.archive - {id})
  }

  /** Whether a command commits in the root's own repository, and what the commits before and after its
      effects answer. A commit does not touch what is modelled here. */
  datatype Commits = Without | With(before: bool, after: bool)

  predicate BeforeOk(c: Commits) {
    c.Without? || c.before
  }

  predicate AfterOk(c: Commits) {
    c.Without? || c.after
  }

  /** The command reports a failure although its effects took place. */
  predicate FailsLate(o: Outcome) {
    o.Failed? && o.effective
  }

  // ----- Create -----

  ghost predicate SameBut(m: map<string, Dir>, n: map<string, Dir>, id: string) {
    forall k :: k != id ==> (k in m <==> k in n) && (k in m ==> m[k] == n[k])
  }

  /** Metadata as create writes it: active, no repositories, purge guard on. */
  predicate FreshMeta(m: Meta, id: string) {
    m == NewMeta(id, m.title, m.sourceUrl, m.createdAt)
  }

  ghost predicate CreateStep(w: State, id: string, o: Outcome, v: State) {
    && v.archive == w.archive && v.bares == w.bares && SameBut(w.active, v.active, id)
    && (Took(o) ==>
          && id !in w.active && id !in w.archive && id in v.active
          && v.active[id].meta.Some? && FreshMeta(v.active[id].meta.value, id))
    && (!Took(o) ==>
          || v == w
          || (!o.compensated && id !in w.active && id !in w.archive && id in v.active && v.active[id].meta.None?))
  }

  /** The directory of a new workspace: the template's files, no repositories, and metadata that names the
      workspace, is active and protected. */
  predicate NewDir(d: Dir, id: string, title: string, url: string, now: int, files: map<string, string>) {
    && d.files == files && d.repos == map[] && d.meta.Some?
    && var m := d.meta.value;
       && m.id == id && m.title == title && m.sourceUrl == url && m.status == ACTIVE && m.repos == []
       && m.createdAt == m.updatedAt == now && GuardEnabled(m)
  }

  predicate CanCreate(w: State, id: string, template: Option<map<string, string>>) {
    id !in w.active && id !in w.archive && template.Some?
  }

  /** A directory with metadata has appeared. */
  predicate Appeared(w: State, id: string, v: State) {
    id !in w.active && id in v.active && v.active[id].meta.Some?
  }

  /** Create from a template: collisions with active or archived ids are refused, and a half-made
      directory is removed again. */
  method CreateAtRoot(
    disk: Disk, id: string, title: string, url: string, now: int, template: Option<map<string, string>>)
    returns (o: Outcome)
    modifies disk
    ensures CreateStep(old(disk.state), id, o, disk.state)
    ensures o.Ok? ==> CanCreate(old(disk.state), id, template)
    ensures o.Ok? ==> disk.state == WithDir(old(disk.state), id,
        Dir(Some(NewMeta(id, title, url, now)), template.value, map[]))
    ensures o.Ok? ==> NewDir(disk.state.active[id], id, title, url, now, template.value)
    ensures o.Failed? ==> !o.effective && (o.compensated ==> disk.state == old(disk.state))
    ensures o.Ok? <==> Appeared(old(disk.state), id, disk.state)
    ensures old(disk.Reliable()) ==> (o.Ok? <==> CanCreate(old(disk.state), id, template)) && Compensated(o)
    ensures disk.Onward() && (Compensated(o) <==> disk.lost == old(disk.lost))
  {
    if id in disk.state.active || id in disk.state.archive || template.None? {
      return Failed(false, true);
    }
    o := MakeDir(disk, id, NewMeta(id, title, url, now), template.value);
  }

  /** The create command: the directory, then its baseline, then a commit. It fails late exactly when the
      directory was made and one of the last two did not go through. */
  method Create(
    disk: Disk, id: string, title: string, url: string, now: int, template: Option<map<string, string>>,
    baselineOk: bool, commitOk: bool)
    returns (o: Outcome)
    modifies disk
    ensures CreateStep(old(disk.state), id, o, disk.state)
    ensures Took(o) ==> CanCreate(old(disk.state), id, template)
    ensures Took(o) ==> disk.state == WithDir(old(disk.state), id,
        Dir(Some(NewMeta(id, title, url, now)), template.value, map[]))
    ensures Took(o) ==> NewDir(disk.state.active[id], id, title, url, now, template.value)
    ensures o.Failed? && o.compensated && !o.effective ==> disk.state == old(disk.state)
    ensures o.Ok? <==> Appeared(old(disk.state), id, disk.state) && baselineOk && commitOk
    ensures FailsLate(o) <==> Appeared(old(disk.state), id, disk.state) && !(baselineOk && commitOk)
    ensures old(disk.Reliable()) ==> (Took(o) <==> CanCreate(old(disk.state), id, template)) && Compensated(o)
    ensures disk.Onward() && (Compensated(o) <==> disk.lost == old(disk.lost))
  {
    o := CreateAtRoot(disk, id, title, url, now, template);
    if o.Ok? && !baselineOk {
      return Failed(true, true);
    }
    if o.Ok? && !commitOk {
      return Failed(true, true);
    }
  }

  /** Directory, template, metadata; a half-made directory is removed again. */
  method MakeDir(disk: Disk, id: string, meta: Meta, files: map<string, string>) returns (o: Outcome)
    requires id !in disk.state.active
    modifies disk
    ensures o.Ok? ==> disk.state == WithDir(old(disk.state), id, Dir(Some(meta), files, map[]))
    ensures o.Failed? ==> !o.effective && (o.compensated ==> disk.state == old(disk.state))
    ensures o.Failed? ==>
              || disk.state == old(disk.state)
              || exists d: Dir :: d.meta.None? && disk.state == WithDir(old(disk.state), id, d)
    ensures old(disk.Reliable()) ==> o.Ok?
    ensures disk.Onward() && (Compensated(o) <==> disk.lost == old(disk.lost))
  {
    ghost var w := disk.state;
    var ok := disk.Try(Some(WithDir(disk.state, id, Dir(None, map[], map[]))));
    if !ok {
      return Failed(false, true);
    }
    ok := FillDir(disk, id, meta, files);
    assert disk.state == WithDir(w, id, disk.state.active[id]);
    if !ok {
      var cleaned := disk.Undo(Some(RemoveActive(disk.state, id)));
      assert cleaned ==> disk.state.active == w.active;
      return Failed(false, cleaned);
    }
    return Ok;
  }

  /** The template's files, then the metadata. */
  method FillDir(disk: Disk, id: string, meta: Meta, files: map<string, string>) returns (ok: bool)
    requires id in disk.state.active && disk.state.active[id].meta.None?
    modifies disk
    ensures id in disk.state.active && disk.state == WithDir(old(disk.state), id, disk.state.active[id])
    ensures if ok then disk.state.active[id] == Dir(Some(meta), files, map[]) else disk.state.active[id].meta.None?
    ensures old(disk.Reliable()) ==> ok
    ensures disk.Onward() && disk.lost == old(disk.lost)
  {
    ok := disk.Try(Some(WithDir(disk.state, id, Dir(None, files, map[]))));
    if ok {
      ok := disk.Try(PutMeta(disk.state, id, meta));
    }
  }

  // ----- Lock and unlock -----

  function Guarded(w: State, id: string, enabled: bool, now: int): Option<State> {
    if id in w.active then
      if LoadMeta(w.active[id]).None? then None
      else Some(w.(active := w.active[id := w.active[id].(meta :=
          Some(SetGuard(LoadMeta(w.active[id]).value, enabled, now)))]))
    else if id in w.archive then
      if LoadMeta(w.archive[id]).None? then None
      else Some(w.(archive := w.archive[id := w.archive[id].(meta :=
          Some(SetGuard(LoadMeta(w.archive[id]).value, enabled, now)))]))
    else None
  }

  ghost predicate GuardStep(w: State, id: string, enabled: bool, o: Outcome, v: State) {
    if Took(o) then exists now :: Guarded(w, id, enabled, now) == Some(v) else v == w
  }

  /** There is metadata to change: in the active directory, or in the archived one if there is no active one. */
  predicate CanGuard(w: State, id: string) {
    if id in w.active then LoadMeta(w.active[id]).Some? else id in w.archive && LoadMeta(w.archive[id]).Some?
  }

  /** The guard is as asked for, and only the time of its change differs besides. */
  predicate GuardIs(d: Dir, enabled: bool, now: int, e: Dir) {
    && LoadMeta(d).Some? && LoadMeta(e).Some? && e.files == d.files && e.repos == d.repos
    && var m, n := LoadMeta(d).value, LoadMeta(e).value;
       && GuardEnabled(n) == enabled
       && n == m.(guard := n.guard, guardAt := if now > 0 then now else m.guardAt)
  }

  /** One directory has its guard set: the active one of that id, or else the archived one. */
  ghost predicate GuardIsSet(w: State, id: string, enabled: bool, now: int, v: State) {
    && v.bares == w.bares && v.active.Keys == w.active.Keys && v.archive.Keys == w.archive.Keys
    && SameBut(w.active, v.active, id) && SameBut(w.archive, v.archive, id)
    && (if id in w.active then
          GuardIs(w.active[id], enabled, now, v.active[id]) && v.archive == w.archive
        else id in w.archive && GuardIs(w.archive[id], enabled, now, v.archive[id]))
  }

  /** Lock (enabled) or unlock: the active directory is looked up first, then the archived one. Afterwards
      the guard is on exactly if that was asked for. */
  method LockOrUnlock(disk: Disk, id: string, enabled: bool, now: int) returns (o: Outcome)
    modifies disk
    ensures GuardStep(old(disk.state), id, enabled, o, disk.state)
    ensures if Took(o) then GuardIsSet(old(disk.state), id, enabled, now, disk.state) else disk.state == old(disk.state)
    ensures o.Ok? <==> CanGuard(old(disk.state), id) && !disk.fails(old(disk.calls))
    ensures o.Ok? <==> Guarded(old(disk.state), id, enabled, now).Some? && !disk.fails(old(disk.calls))
    ensures Took(o) ==> Some(disk.state) == Guarded(old(disk.state), id, enabled, now)
    ensures Compensated(o)
    ensures disk.Onward() && disk.lost == old(disk.lost)
  {
    var ok := disk.Try(Guarded(disk.state, id, enabled, now));
    o := if ok then Ok else Failed(false, true);
  }

  // ----- Close -----

  /** Where the repository of a remote URL is stored, and its key. */
  datatype Site = Site(bare: Path, key: string)

  type Locator = string -> Option<Site>

  /** The locator of a repository pool. */
  function PoolLocator(pool: Path): Locator {
    (remote: string) =>
      match Normalize(remote)
      case Failure(_) => None
      case Success(spec) => Some(Site(StorePath(pool, spec), spec.key))
  }

  /** A restore list read as a map: by trimmed alias, and by the alias as written. */
  function RawByAlias(entries: seq<RestoreEntry>, n: nat): map<string, RestoreEntry>
    requires n <= |entries|
  {
    if n == 0 then map[] else RawByAlias(entries, n - 1)[entries[n - 1].alias := entries[n - 1]]
  }

  const NO_ENTRY := RestoreEntry("", "", "", "", "", "")

  function RestoreFor(entries: seq<RestoreEntry>, alias: string): RestoreEntry {
    var m := ByAlias(entries, |entries|);
    if alias in m then m[alias] else NO_ENTRY
  }

  function WrittenFor(entries: seq<RestoreEntry>, alias: string): RestoreEntry {
    var m := RawByAlias(entries, |entries|);
    if alias in m then m[alias] else NO_ENTRY
  }

  /** The bare repository that a repo directory belongs to, if it is a worktree of an existing one. */
  function BareOf(w: State, id: string, alias: string): Option<Path> {
    if id in w.active && alias in w.active[id].repos && w.active[id].repos[alias].Some?
        && w.active[id].repos[alias].value in w.bares
    then w.active[id].repos[alias] else None
  }

  function BranchOf(w: State, id: string, alias: string): Option<string> {
    var b := BareOf(w, id, alias);
    if b.Some? && InRoot(id, alias) in w.bares[b.value].worktrees then w.bares[b.value].worktrees[InRoot(id, alias)]
        else None
  }

  function Or(a: string, b: string): string {
    if a != "" then a else b
  }

  /** What close records for one repository, read from its worktree with the metadata as fallback. */
  function ClosingEntry(
    locate: Locator, w: State, id: string, entries: seq<RestoreEntry>, alias: string): Option<RestoreEntry> {
    var r, prev := RestoreFor(entries, alias), WrittenFor(entries, alias);
    var bare := BareOf(w, id, alias);
    var remote := Or(if bare.Some? then Trim(w.bares[bare.value].origin) else "", Trim(prev.remote));
    var site := locate(remote);
    var current := BranchOf(w, id, alias);
    var branch := if current.Some? && Trim(current.value) != "" then Trim(current.value)
                  else if bare.Some? then "HEAD" else Trim(r.branch);
    var baseRef := Or(Or(Trim(r.baseRef), Trim(prev.baseRef)), if bare.Some? then w.bares[bare.value].originHead
        else "");
    if remote == "" || site.None? || baseRef == "" then None
    else Some(RestoreEntry(Trim(r.uid), site.value.key, remote, alias, branch, baseRef))
  }

  /** The restore list of a closed workspace: one entry for each alias, none if one cannot be made. */
  function ClosingEntries(
    locate: Locator, w: State, id: string, entries: seq<RestoreEntry>,
    aliases: seq<string>): Option<seq<RestoreEntry>> {
    Collect((alias: string) => ClosingEntry(locate, w, id, entries, alias), aliases, |aliases|)
  }

  /** Removing one repo directory: through git while its bare repository exists. */
  function StripOne(w: State, id: string, alias: string): Option<State> {
    if id !in w.active || alias !in w.active[id].repos then Some(w)
    else
      var link := w.active[id].repos[alias];
      if link.None? then None
      else if link.value in w.bares then RemoveWorktree(w, link.value, id, alias)
      else Some(DeleteRepoDir(w, id, alias))
  }

  function Strip(w: State, id: string, aliases: seq<string>): Option<State> {
    Fold((v: State, alias: string) => StripOne(v, id, alias), w, aliases, |aliases|)
  }

  /** Only repo directories of one workspace and git data differ. */
  ghost predicate OnlyRepos(w: State, v: State, id: string) {
    && v.archive == w.archive && v.active.Keys == w.active.Keys && SameBut(w.active, v.active, id)
    && (id in w.active ==> v.active[id].meta == w.active[id].meta && v.active[id].files == w.active[id].files)
  }

  lemma {:induction false} StripOneOnlyRepos(w: State, id: string, alias: string)
    ensures StripOne(w, id, alias).Some? ==> OnlyRepos(w, StripOne(w, id, alias).value, id)
  {
  }

  lemma {:induction false} OnlyReposTransitive(u: State, v: State, w: State, id: string)
    requires OnlyRepos(u, v, id) && OnlyRepos(v, w, id)
    ensures OnlyRepos(u, w, id)
  {
  }

  lemma {:induction false} FoldOnlyRepos<X>(step: (State, X) -> Option<State>, w: State, id: string, xs: seq<X>, n: nat)
    requires n <= |xs|
    requires forall v, x :: step(v, x).Some? ==> OnlyRepos(v, step(v, x).value, id)
    ensures Fold(step, w, xs, n).Some? ==> OnlyRepos(w, Fold(step, w, xs, n).value, id)
  {
    if n > 0 && Fold(step, w, xs, n).Some? {
      FoldOnlyRepos(step, w, id, xs, n - 1);
      OnlyReposTransitive(w, Fold(step, w, xs, n - 1).value, Fold(step, w, xs, n).value, id);
    }
  }

  lemma {:induction false} StripFrame(w: State, id: string, aliases: seq<string>)
    ensures Strip(w, id, aliases).Some? ==> OnlyRepos(w, Strip(w, id, aliases).value, id)
  {
    var step := (v: State, alias: string) => StripOne(v, id, alias);
    forall v, alias | step(v, alias).Some? ensures OnlyRepos(v, step(v, alias).value, id) {
      StripOneOnlyRepos(v, id, alias);
    }
    FoldOnlyRepos(step, w, id, aliases, |aliases|);
  }

  /** The repo directory can be removed: absent, or a worktree that its bare repository knows or that
      has lost its bare repository. */
  predicate Strippable(w: State, id: string, alias: string) {
    id in w.active && alias in w.active[id].repos ==>
      var link := w.active[id].repos[alias];
      link.Some? && (link.value in w.bares ==> InRoot(id, alias) in w.bares[link.value].worktrees)
  }

  lemma {:induction false} StrippableKept(w: State, id: string, a: string, b: string)
    requires a != b && StripOne(w, id, a).Some?
    ensures Strippable(StripOne(w, id, a).value, id, b) <==> Strippable(w, id, b)
  {
  }

  lemma {:induction false} StripIff(w: State, id: string, aliases: seq<string>, n: nat)
    requires n <= |aliases| && forall i, j :: 0 <= i < j < |aliases| ==> aliases[i] != aliases[j]
    ensures var r := Fold((v: State, alias: string) => StripOne(v, id, alias), w, aliases, n);
            && (r.Some? <==> forall i :: 0 <= i < n ==> Strippable(w, id, aliases[i]))
            && (r.Some? ==> forall i :: n <= i < |aliases| ==>
                (Strippable(r.value, id, aliases[i]) <==> Strippable(w, id, aliases[i])))
  {
    if n > 0 {
      StripIff(w, id, aliases, n - 1);
      var r := Fold((v: State, alias: string) => StripOne(v, id, alias), w, aliases, n - 1);
      if r.Some? && StripOne(r.value, id, aliases[n - 1]).Some? {
        forall i | n <= i < |aliases|
          ensures Strippable(StripOne(r.value, id, aliases[n - 1]).value, id, aliases[i]) <==>
              Strippable(w, id, aliases[i])
        {
          StrippableKept(r.value, id, aliases[n - 1], aliases[i]);
        }
      }
    }
  }

  method RemoveWorktrees(disk: Disk, id: string, aliases: seq<string>) returns (ok: bool)
    modifies disk
    ensures ok ==> Some(disk.state) == Strip(old(disk.state), id, aliases)
    ensures OnlyRepos(old(disk.state), disk.state, id)
    ensures aliases == [] ==> ok
    ensures old(disk.Reliable()) ==> (ok <==> Strip(old(disk.state), id, aliases).Some?)
    ensures disk.Onward() && disk.lost == old(disk.lost)
  {
    ghost var step := (v: State, alias: string) => StripOne(v, id, alias);
    for i := 0 to |aliases|
      invariant Some(disk.state) == Fold(step, old(disk.state), aliases, i)
      invariant OnlyRepos(old(disk.state), disk.state, id)
      invariant disk.Onward() && disk.lost == old(disk.lost)
    {
      ghost var v := disk.state;
      StripOneOnlyRepos(v, id, aliases[i]);
      FoldNext(step, old(disk.state), aliases, i, v);
      if id in disk.state.active && aliases[i] in disk.state.active[id].repos {
        var removed := disk.Try(StripOne(disk.state, id, aliases[i]));
        if !removed {
          if Fold(step, old(disk.state), aliases, |aliases|).Some? {
            FoldPrefix(step, old(disk.state), aliases, i + 1, |aliases|);
          }
          return false;
        }
      }
    }
    return true;
  }

  /** What close decides before it touches anything. */
  datatype ClosePlan = ClosePlan(aliases: seq<string>, original: Meta, updated: Meta)

  ghost predicate ReadyToClose(locate: Locator, w: State, id: string, plan: ClosePlan) {
    && id in w.active && id !in w.archive && LoadMeta(w.active[id]) == Some(plan.original)
    && ListsAliases(plan.aliases, BoundAliases(w, id))
    && ClosingEntries(locate, w, id, plan.original.repos, plan.aliases) == Some(plan.updated.repos)
    && plan.updated == plan.original.(repos := plan.updated.repos, status := ARCHIVED,
        updatedAt := plan.updated.updatedAt)
  }

  /** The state a completed close leaves. */
  ghost predicate Closed(locate: Locator, w: State, id: string, v: State) {
    exists plan :: ReadyToClose(locate, w, id, plan) && Archived(w, id, plan, v)
  }

  /** Worktrees removed, metadata written, directory moved. */
  ghost predicate Archived(w: State, id: string, plan: ClosePlan, v: State) {
    && Strip(w, id, plan.aliases).Some?
    && var u := PutMeta(Strip(w, id, plan.aliases).value, id, plan.updated);
       u.Some? && MoveToArchive(u.value, id) == Some(v)
  }

  /** The workspace is still active; without compensation its metadata may already say otherwise. */
  ghost predicate StillActive(w: State, id: string, o: Outcome, v: State)
    requires o.Failed?
  {
    && v.archive == w.archive && v.active.Keys == w.active.Keys && SameBut(w.active, v.active, id)
    && (id in w.active ==>
          && v.active[id].files == w.active[id].files
          && (|| v.active[id].meta == w.active[id].meta
              || (!o.compensated && LoadMeta(w.active[id]).Some? && v.active[id].meta.Some?
                  && SameProtection(LoadMeta(w.active[id]).value, v.active[id].meta.value))))
  }

  ghost predicate CloseStep(locate: Locator, w: State, id: string, o: Outcome, v: State) {
    if Took(o) then Closed(locate, w, id, v) else StillActive(w, id, o, v)
  }

  /** The parts of the metadata that only lock and unlock may change. */
  ghost predicate SameProtection(m: Meta, n: Meta) {
    n.id == m.id && n.guard == m.guard && n.guardAt == m.guardAt && n.title == m.title
      && n.sourceUrl == m.sourceUrl && n.createdAt == m.createdAt
  }

  /** Close can record every repository of the workspace. */
  ghost predicate CanRecord(locate: Locator, w: State, id: string) {
    && id in w.active && id !in w.archive && LoadMeta(w.active[id]).Some?
    && forall a :: a in BoundAliases(w, id) ==> ClosingEntry(locate, w, id, LoadMeta(w.active[id]).value.repos, a).Some?
  }

  /** ... and remove its worktrees. */
  ghost predicate CanClose(locate: Locator, w: State, id: string) {
    CanRecord(locate, w, id) && forall a :: a in BoundAliases(w, id) ==> Strippable(w, id, a)
  }

  lemma {:induction false} RecordsIff(
    locate: Locator, w: State, id: string, entries: seq<RestoreEntry>, aliases: seq<string>)
    requires ListsAliases(aliases, BoundAliases(w, id))
    ensures ClosingEntries(locate, w, id, entries, aliases).Some? <==>
            forall a :: a in BoundAliases(w, id) ==> ClosingEntry(locate, w, id, entries, a).Some?
  {
    var f := (alias: string) => ClosingEntry(locate, w, id, entries, alias);
    if Collect(f, aliases, |aliases|).Some? {
      forall a | a in BoundAliases(w, id) ensures ClosingEntry(locate, w, id, entries, a).Some? {
        assert a in aliases;
        var i :| 0 <= i < |aliases| && aliases[i] == a;
        CollectAt(f, aliases, |aliases|, i);
        assert f(a).Some?;
      }
    } else {
      CollectFails(f, aliases, |aliases|);
      var i :| 0 <= i < |aliases| && f(aliases[i]).None?;
      assert aliases[i] in aliases;
    }
  }

  lemma {:induction false} StripsIff(w: State, id: string, aliases: seq<string>)
    requires ListsAliases(aliases, BoundAliases(w, id))
    ensures Strip(w, id, aliases).Some? <==> forall a :: a in BoundAliases(w, id) ==> Strippable(w, id, a)
  {
    StripIff(w, id, aliases, |aliases|);
    assert forall i :: 0 <= i < |aliases| ==> aliases[i] in aliases;
    if Strip(w, id, aliases).Some? {
      forall a | a in BoundAliases(w, id) ensures Strippable(w, id, a) {
        var i :| 0 <= i < |aliases| && aliases[i] == a;
      }
    }
  }

  method PrepareClose(locate: Locator, w: State, id: string, now: int) returns (r: Option<ClosePlan>)
    ensures r.Some? ==> ReadyToClose(locate, w, id, r.value)
    ensures r.Some? <==> CanRecord(locate, w, id)
  {
    if id !in w.active || id in w.archive {
      return None;
    }
    var loaded := LoadMeta(w.active[id]);
    if loaded.None? {
      return None;
    }
    var aliases := SortAliases(BoundAliases(w, id));
    RecordsIff(locate, w, id, loaded.value.repos, aliases);
    var entries := CollectAll((alias: string) => ClosingEntry(locate, w, id, loaded.value.repos, alias), aliases);
    if entries.None? {
      return None;
    }
    var updated := loaded.value.(repos := entries.value, status := ARCHIVED, updatedAt := now);
    return Some(ClosePlan(aliases, loaded.value, updated));
  }

  /** The metadata, then the archive directory itself, then the move. */
  method MarkAndMove(disk: Disk, id: string, meta: Meta) returns (ok: bool)
    requires id in disk.state.active && id !in disk.state.archive
    modifies disk
    ensures ok ==> MoveToArchive(PutMeta(old(disk.state), id, meta).value, id) == Some(disk.state)
    ensures !ok ==> disk.state == old(disk.state) || Some(disk.state) == PutMeta(old(disk.state), id, meta)
    ensures old(disk.Reliable()) ==> ok
    ensures disk.Onward() && disk.lost == old(disk.lost)
  {
    ok := disk.Try(PutMeta(disk.state, id, meta));
    if ok {
      ok := disk.Try(Some(disk.state));
    }
    if ok {
      ok := disk.Try(MoveToArchive(disk.state, id));
    }
  }

  /** The effects of close. A failure before the move writes the original metadata back. */
  method ArchiveDir(disk: Disk, id: string, plan: ClosePlan) returns (o: Outcome)
    requires id in disk.state.active && id !in disk.state.archive
        && LoadMeta(disk.state.active[id]) == Some(plan.original)
    requires SameProtection(plan.original, plan.updated)
    modifies disk
    ensures o.Ok? ==> Archived(old(disk.state), id, plan, disk.state)
    ensures o.Failed? ==> !o.effective && StillActive(old(disk.state), id, o, disk.state)
    ensures old(disk.Reliable()) ==> (o.Ok? <==> Strip(old(disk.state), id, plan.aliases).Some?) && Compensated(o)
    ensures disk.Onward() && (Compensated(o) <==> disk.lost == old(disk.lost))
  {
    ghost var w := disk.state;
    var ok := RemoveWorktrees(disk, id, plan.aliases);
    if ok {
      ok := MarkAndMove(disk, id, plan.updated);
    }
    if !ok {
      var restored := disk.Undo(PutMeta(disk.state, id, plan.original));
      return Failed(false, restored);
    }
    return Ok;
  }

  /** The directory has left workspaces/. */
  predicate Left(w: State, id: string, v: State) {
    id in w.active && id !in v.active
  }

  /** Close: record the repositories, remove their worktrees, mark archived, move. It fails late exactly
      when the directory was moved and the commit after that did not go through. */
  method Close(disk: Disk, locate: Locator, id: string, commits: Commits, now: int) returns (o: Outcome)
    modifies disk
    ensures CloseStep(locate, old(disk.state), id, o, disk.state)
    ensures Took(o) <==> Left(old(disk.state), id, disk.state)
    ensures FailsLate(o) <==> Left(old(disk.state), id, disk.state) && !AfterOk(commits)
    ensures Took(o) ==> CanClose(locate, old(disk.state), id) && BeforeOk(commits)
    ensures old(disk.Reliable()) ==> (Took(o) <==> CanClose(locate, old(disk.state), id) && BeforeOk(commits))
    ensures disk.Onward() && (Compensated(o) <==> disk.lost == old(disk.lost))
  {
    var plan := PrepareClose(locate, disk.state, id, now);
    if plan.None? || !BeforeOk(commits) {
      return Failed(false, true);
    }
    StripsIff(disk.state, id, plan.value.aliases);
    o := ArchiveDir(disk, id, plan.value);
    if o.Ok? && !AfterOk(commits) {
      return Failed(true, true);
    }
  }

  // ----- Reopen -----

  /** What the remote offers: its branches and the name of its default branch. */
  datatype Upstream = Upstream(branches: map<string, string>, head: string)

  /** EnsureBareRepoFetched: clone the repository if it is absent, else refresh its remote branches. */
  function Fetched(w: State, up: string -> Upstream, bare: Path, remote: string): State {
    if bare in w.bares then
      var b := w.bares[bare];
      var u := up(b.origin);
      w.(bares := w.bares[bare := b.(remotes := u.branches, originHead := if u.head != "" then ORIGIN + u.head
          else b.originHead)])
    else
      var u := up(remote);
      w.(bares := w.bares[bare := Bare(remote, u.branches, u.branches, if u.head != "" then ORIGIN + u.head
          else "", map[])])
  }

  /** The base ref used when the recorded one is blank; "" if none can be found. */
  function DefaultBaseRef(w: State, bare: Path, recorded: string): string
    requires bare in w.bares
  {
    var base := Trim(recorded);
    Or(w.bares[bare].originHead, if ORIGIN <= base && Trim(base[|ORIGIN|..]) != "" then base else "")
  }

  predicate EntryOk(e: RestoreEntry) {
    Trim(e.alias) != "" && Trim(e.uid) != "" && Trim(e.remote) != "" && Trim(e.branch) != ""
  }

  function EnsureBranch(w: State, bare: Path, branch: string, base: string): Option<State> {
    if bare !in w.bares then None
    else if branch in w.bares[bare].branches then Some(w)
    else if branch in w.bares[bare].remotes then AddBranch(w, bare, branch, branch)
    else AddBranch(w, bare, branch, base[if ORIGIN <= base then |ORIGIN| else 0..])
  }

  /** One entry of the restore list: fetch, make sure of the branch, add the worktree. */
  function RecreateOne(w: State, up: string -> Upstream, locate: Locator, id: string, e: RestoreEntry): Option<State> {
    if !EntryOk(e) || locate(e.remote).None? || id !in w.active || e.alias in w.active[id].repos then None
    else
      var bare := locate(e.remote).value.bare;
      var f := Fetched(w, up, bare, Trim(e.remote));
      var fallback := DefaultBaseRef(f, bare, e.baseRef);
      var base := Or(Trim(e.baseRef), Trim(fallback));
      if fallback == "" || !(ORIGIN <= base) then None
      else
        match EnsureBranch(f, bare, e.branch, base)
        case None => None
        case Some(g) => AddWorktree(g, bare, id, e.alias, e.branch)
  }

  function AliasesOf(entries: seq<RestoreEntry>): (r: seq<string>)
    ensures |r| == |entries| && forall i :: 0 <= i < |r| ==> r[i] == entries[i].alias
  {
    seq(|entries|, i requires 0 <= i < |entries| => entries[i].alias)
  }

  /** The worktrees of a restore list, one entry after the other; a repeated alias is an error. */
  function Recreate(
    w: State, up: string -> Upstream, locate: Locator, id: string, entries: seq<RestoreEntry>): Option<State> {
    if !NoRepeat(AliasesOf(entries), |entries|) then None
    else Fold((v: State, e: RestoreEntry) => RecreateOne(v, up, locate, id, e), w, entries, |entries|)
  }

  lemma {:induction false} GitStepsOnlyRepos(
    w: State, up: string -> Upstream, bare: Path, remote: string, id: string, alias: string, branch: string,
    base: string)
    ensures OnlyRepos(w, Fetched(w, up, bare, remote), id)
    ensures EnsureBranch(w, bare, branch, base).Some? ==> OnlyRepos(w, EnsureBranch(w, bare, branch, base).value, id)
    ensures AddWorktree(w, bare, id, alias, branch).Some? ==>
        OnlyRepos(w, AddWorktree(w, bare, id, alias, branch).value, id)
  {
  }

  method RecreateEntry(
    disk: Disk, up: string -> Upstream, locate: Locator, id: string, e: RestoreEntry) returns (ok: bool)
    modifies disk
    ensures ok ==> Some(disk.state) == RecreateOne(old(disk.state), up, locate, id, e)
    ensures OnlyRepos(old(disk.state), disk.state, id)
    ensures old(disk.Reliable()) ==> (ok <==> RecreateOne(old(disk.state), up, locate, id, e).Some?)
    ensures disk.Onward() && disk.lost == old(disk.lost)
  {
    ghost var w := disk.state;
    if !EntryOk(e) || locate(e.remote).None? || id !in disk.state.active || e.alias in disk.state.active[id].repos {
      return false;
    }
    var bare := locate(e.remote).value.bare;
    GitStepsOnlyRepos(disk.state, up, bare, Trim(e.remote), id, e.alias, e.branch, "");
    ok := disk.Try(Some(Fetched(disk.state, up, bare, Trim(e.remote))));
    if !ok {
      return false;
    }
    var fallback := DefaultBaseRef(disk.state, bare, e.baseRef);
    var base := Or(Trim(e.baseRef), Trim(fallback));
    if fallback == "" || !(ORIGIN <= base) {
      return false;
    }
    GitStepsOnlyRepos(disk.state, up, bare, "", id, e.alias, e.branch, base);
    ok := disk.Try(EnsureBranch(disk.state, bare, e.branch, base));
    if !ok {
      return false;
    }
    GitStepsOnlyRepos(disk.state, up, bare, "", id, e.alias, e.branch, base);
    ok := disk.Try(AddWorktree(disk.state, bare, id, e.alias, e.branch));
  }

  method RecreateWorktrees(
    disk: Disk, up: string -> Upstream, locate: Locator, id: string, entries: seq<RestoreEntry>) returns (ok: bool)
    modifies disk
    ensures ok ==> Some(disk.state) == Recreate(old(disk.state), up, locate, id, entries)
    ensures ok ==> AllRecreated(old(disk.state), up, locate, id, entries, disk.state)
    ensures ok ==> Replayable(locate, entries)
    ensures OnlyRepos(old(disk.state), disk.state, id)
    ensures old(disk.Reliable()) ==> (ok <==> Recreate(old(disk.state), up, locate, id, entries).Some?)
    ensures disk.Onward() && disk.lost == old(disk.lost)
  {
    ghost var w := disk.state;
    ghost var step := (v: State, e: RestoreEntry) => RecreateOne(v, up, locate, id, e);
    var aliases := AliasesOf(entries);
    GrownAtStart(w, up);
    for i := 0 to |entries|
      invariant NoRepeat(aliases, i)
      invariant Some(disk.state) == Fold(step, w, entries, i)
      invariant Grown(w, up, disk.state) && AllRecreated(w, up, locate, id, entries[..i], disk.state)
      invariant OnlyRepos(w, disk.state, id)
      invariant disk.Onward() && disk.lost == old(disk.lost)
    {
      if aliases[i] in aliases[..i] {
        RepeatMeans(aliases, i);
        return false;
      }
      ghost var v := disk.state;
      var done := RecreateEntry(disk, up, locate, id, entries[i]);
      OnlyReposTransitive(w, v, disk.state, id);
      FoldNext(step, w, entries, i, v);
      if !done {
        if Fold(step, w, entries, |entries|).Some? { FoldPrefix(step, w, entries, i + 1, |entries|); }
        return false;
      }
      NextRecreated(w, v, up, locate, id, entries, i, disk.state);
    }
    assert entries[..|entries|] == entries;
    ReplayableEntries(w, up, locate, id, entries);
    return true;
  }

  lemma {:induction false} RepeatMeans(aliases: seq<string>, i: nat)
    requires i < |aliases| && aliases[i] in aliases[..i]
    ensures !NoRepeat(aliases, |aliases|)
  {
    NoRepeatMeans(aliases, |aliases|);
    var j :| 0 <= j < i && aliases[..i][j] == aliases[i];
    assert aliases[j] == aliases[i];
  }

  // ----- At which commit a recreated branch is -----

  /** The base ref of an entry: the recorded one, else the default of the repository. */
  function BaseOf(up: string -> Upstream, b: Bare, e: RestoreEntry): string {
    if Trim(e.baseRef) != "" then Trim(e.baseRef)
    else Trim(if up(b.origin).head != "" then ORIGIN + up(b.origin).head else b.originHead)
  }

  /** The worktree of the entry is back on its branch. A branch that was there has the commit it had, another
      one that of its remote counterpart if the remote offers one, else that of the base ref. */
  ghost predicate Recreated(
    w: State, up: string -> Upstream, locate: Locator, id: string, e: RestoreEntry, v: State) {
    && locate(e.remote).Some? && var bare := locate(e.remote).value.bare;
       && bare in v.bares && e.branch in v.bares[bare].branches
       && InRoot(id, e.alias) in v.bares[bare].worktrees
       && v.bares[bare].worktrees[InRoot(id, e.alias)] == Some(e.branch)
       && var offered, commit := up(v.bares[bare].origin).branches, v.bares[bare].branches[e.branch];
          if bare in w.bares && e.branch in w.bares[bare].branches then commit == w.bares[bare].branches[e.branch]
          else if e.branch in offered then commit == offered[e.branch]
          else
            var base := BaseBranch(BaseOf(up, v.bares[bare], e));
            base in offered && commit == offered[base]
  }

  /** Where the branches of a repository come from while worktrees are recreated. */
  ghost predicate Grown(w: State, up: string -> Upstream, v: State) {
    && (forall bare :: bare in w.bares ==>
          && bare in v.bares && v.bares[bare].origin == w.bares[bare].origin
          && forall x :: x in w.bares[bare].branches ==>
               x in v.bares[bare].branches && v.bares[bare].branches[x] == w.bares[bare].branches[x])
    && (forall bare, x :: bare in v.bares && x in v.bares[bare].branches ==> Explained(w, up, bare, v.bares[bare], x))
  }

  /** The branch was there before, is a copy of what the remote offers, or is in use. */
  ghost predicate Explained(w: State, up: string -> Upstream, bare: Path, b: Bare, x: string)
    requires x in b.branches
  {
    || (bare in w.bares && x in w.bares[bare].branches)
    || (x in up(b.origin).branches && b.branches[x] == up(b.origin).branches[x])
    || CheckedOut(b, x)
  }

  /** Branches, worktrees and origins stay, and so does what the default base ref leads to. */
  ghost predicate Stays(up: string -> Upstream, v: State, x: State) {
    forall bare :: bare in v.bares ==> bare in x.bares && StaysBare(up, v.bares[bare], x.bares[bare])
  }

  ghost predicate StaysBare(up: string -> Upstream, b: Bare, c: Bare) {
    && c.origin == b.origin && (up(b.origin).head == "" ==> c.originHead == b.originHead)
    && (forall y :: y in b.branches ==> y in c.branches && c.branches[y] == b.branches[y])
    && (forall p :: p in b.worktrees ==> p in c.worktrees && c.worktrees[p] == b.worktrees[p])
  }

  ghost predicate Offered(up: string -> Upstream, b: Bare, y: string)
    requires y in b.branches
  {
    y in up(b.origin).branches && b.branches[y] == up(b.origin).branches[y]
  }

  /** A branch made anew is a copy of its remote counterpart, or starts at the base ref if there is none. */
  ghost predicate MadeAnew(up: string -> Upstream, e: RestoreEntry, c: Bare)
    requires e.branch in c.branches
  {
    var offered, base := up(c.origin).branches, BaseBranch(BaseOf(up, c, e));
    || Offered(up, c, e.branch)
    || (e.branch !in offered && base in offered && c.branches[e.branch] == offered[base])
  }

  ghost predicate OnItsBranch(id: string, e: RestoreEntry, c: Bare) {
    && e.branch in c.branches && InRoot(id, e.alias) in c.worktrees
    && c.worktrees[InRoot(id, e.alias)] == Some(e.branch)
  }

  /** What one entry does to a repository of the pool. */
  ghost predicate InKnown(up: string -> Upstream, id: string, e: RestoreEntry, b: Bare, c: Bare) {
    && OnItsBranch(id, e, c) && StaysBare(up, b, c) && !CheckedOut(b, e.branch)
    && (forall y :: y in c.branches && y != e.branch ==> y in b.branches)
    && (e.branch in b.branches || MadeAnew(up, e, c))
  }

  /** ... and to one that is cloned for it. */
  ghost predicate InClone(up: string -> Upstream, id: string, e: RestoreEntry, c: Bare) {
    && OnItsBranch(id, e, c) && MadeAnew(up, e, c)
    && (forall y :: y in c.branches && y != e.branch ==> Offered(up, c, y))
  }

  /** The part of one entry after the fetch. */
  lemma {:induction false} AfterFetch(
    f: State, id: string, bare: Path, alias: string, branch: string, base: string, x: State)
    requires EnsureBranch(f, bare, branch, base).Some?
    requires AddWorktree(EnsureBranch(f, bare, branch, base).value, bare, id, alias, branch) == Some(x)
    ensures bare in f.bares && !CheckedOut(f.bares[bare], branch)
    ensures var b := f.bares[bare];
            && branch !in b.branches ==>
                 (if branch in b.remotes then branch else BaseBranch(base)) in b.remotes
    ensures var b := f.bares[bare];
            var commit := if branch in b.branches then b.branches[branch]
                          else b.remotes[if branch in b.remotes then branch else BaseBranch(base)];
            x.bares == f.bares[bare := b.(branches := b.branches[branch := commit],
                                          worktrees := b.worktrees[InRoot(id, alias) := Some(branch)])]
    ensures InRoot(id, alias) !in f.bares[bare].worktrees
  {
    var g := EnsureBranch(f, bare, branch, base).value;
    assert g.bares[bare].worktrees == f.bares[bare].worktrees;
    if branch in f.bares[bare].branches {
      assert f.bares[bare].branches[branch := f.bares[bare].branches[branch]] == f.bares[bare].branches;
    }
  }

  /** What the entry finds after the fetch, and what it leaves. */
  lemma {:induction false} RecreateOneFetches(
    v: State, up: string -> Upstream, locate: Locator, id: string, e: RestoreEntry, x: State)
    requires RecreateOne(v, up, locate, id, e) == Some(x)
    ensures var bare := locate(e.remote).value.bare;
            var b := Fetched(v, up, bare, Trim(e.remote)).bares[bare];
            && !CheckedOut(b, e.branch) && InRoot(id, e.alias) !in b.worktrees
            && bare in x.bares && x.bares == v.bares[bare := x.bares[bare]]
            && Grows(up, id, e, b, x.bares[bare])
  {
    var bare := locate(e.remote).value.bare;
    var f := Fetched(v, up, bare, Trim(e.remote));
    var base := Or(Trim(e.baseRef), Trim(DefaultBaseRef(f, bare, e.baseRef)));
    FetchedBase(v, up, bare, e);
    AfterFetchGrows(f, up, id, bare, e, base, x);
  }

  lemma {:induction false} AfterFetchGrows(
    f: State, up: string -> Upstream, id: string, bare: Path, e: RestoreEntry, base: string, x: State)
    requires EnsureBranch(f, bare, e.branch, base).Some?
    requires AddWorktree(EnsureBranch(f, bare, e.branch, base).value, bare, id, e.alias, e.branch) == Some(x)
    requires f.bares[bare].remotes == up(f.bares[bare].origin).branches && base == BaseOf(up, f.bares[bare], e)
    ensures !CheckedOut(f.bares[bare], e.branch) && InRoot(id, e.alias) !in f.bares[bare].worktrees
    ensures bare in x.bares && x.bares == f.bares[bare := x.bares[bare]]
    ensures Grows(up, id, e, f.bares[bare], x.bares[bare])
  {
    AfterFetch(f, id, bare, e.alias, e.branch, base, x);
    var b, c := f.bares[bare], x.bares[bare];
    assert e.branch in b.branches ==> c.branches == b.branches;
  }

  lemma {:induction false} FetchedBase(v: State, up: string -> Upstream, bare: Path, e: RestoreEntry)
    ensures var f := Fetched(v, up, bare, Trim(e.remote));
            && f.bares[bare].remotes == up(f.bares[bare].origin).branches
            && Or(Trim(e.baseRef), Trim(DefaultBaseRef(f, bare, e.baseRef))) == BaseOf(up, f.bares[bare], e)
  {
  }

  /** The fetched repository with the branch and the worktree. */
  ghost predicate Grows(up: string -> Upstream, id: string, e: RestoreEntry, b: Bare, c: Bare) {
    && c == b.(branches := c.branches, worktrees := b.worktrees[InRoot(id, e.alias) := Some(e.branch)])
    && e.branch in c.branches && c.branches == b.branches[e.branch := c.branches[e.branch]]
    && (if e.branch in b.branches then c.branches == b.branches else MadeAnew(up, e, c))
  }

  /** One entry changes one repository, or clones it. */
  lemma {:induction false} RecreateOneMeans(
    v: State, up: string -> Upstream, locate: Locator, id: string, e: RestoreEntry, x: State)
    requires RecreateOne(v, up, locate, id, e) == Some(x)
    ensures var bare := locate(e.remote).value.bare;
            && bare in x.bares && x.bares == v.bares[bare := x.bares[bare]]
            && (if bare in v.bares then InKnown(up, id, e, v.bares[bare], x.bares[bare])
                else InClone(up, id, e, x.bares[bare]))
  {
    var bare := locate(e.remote).value.bare;
    RecreateOneFetches(v, up, locate, id, e, x);
    if bare in v.bares {
      GrowsInKnown(v, up, id, e, bare, x.bares[bare]);
    } else {
      GrowsInClone(v, up, id, e, bare, x.bares[bare]);
    }
  }

  lemma {:induction false} GrowsInKnown(
    v: State, up: string -> Upstream, id: string, e: RestoreEntry, bare: Path, c: Bare)
    requires bare in v.bares
    requires var b := Fetched(v, up, bare, Trim(e.remote)).bares[bare];
             !CheckedOut(b, e.branch) && InRoot(id, e.alias) !in b.worktrees && Grows(up, id, e, b, c)
    ensures InKnown(up, id, e, v.bares[bare], c)
  {
    var b := Fetched(v, up, bare, Trim(e.remote)).bares[bare];
    assert b.worktrees == v.bares[bare].worktrees && b.branches == v.bares[bare].branches;
  }

  lemma {:induction false} GrowsInClone(
    v: State, up: string -> Upstream, id: string, e: RestoreEntry, bare: Path, c: Bare)
    requires bare !in v.bares && Grows(up, id, e, Fetched(v, up, bare, Trim(e.remote)).bares[bare], c)
    ensures InClone(up, id, e, c)
  {
  }

  /** An entry is recreated with respect to the state before the first one. */
  lemma {:induction false} EntryRecreated(
    w: State, v: State, up: string -> Upstream, locate: Locator, id: string, e: RestoreEntry, x: State)
    requires Grown(w, up, v) && RecreateOne(v, up, locate, id, e) == Some(x)
    ensures Recreated(w, up, locate, id, e, x)
  {
    var bare := locate(e.remote).value.bare;
    RecreateOneMeans(v, up, locate, id, e, x);
    if bare in v.bares && e.branch in v.bares[bare].branches {
      assert Explained(w, up, bare, v.bares[bare], e.branch);
    }
  }

  lemma {:induction false} EntryStays(
    v: State, up: string -> Upstream, locate: Locator, id: string, e: RestoreEntry, x: State)
    requires RecreateOne(v, up, locate, id, e) == Some(x)
    ensures Stays(up, v, x)
  {
    RecreateOneMeans(v, up, locate, id, e, x);
    forall k | k in v.bares ensures StaysBare(up, v.bares[k], x.bares[k]) {
      assert k == locate(e.remote).value.bare || x.bares[k] == v.bares[k];
    }
  }

  lemma {:induction false} EntryExplained(
    w: State, v: State, up: string -> Upstream, locate: Locator, id: string, e: RestoreEntry, x: State, k: Path,
    y: string)
    requires Grown(w, up, v) && RecreateOne(v, up, locate, id, e) == Some(x) && k in x.bares && y in x.bares[k].branches
    ensures Explained(w, up, k, x.bares[k], y)
  {
    var bare := locate(e.remote).value.bare;
    RecreateOneMeans(v, up, locate, id, e, x);
    if k == bare && y == e.branch {
      assert CheckedOut(x.bares[k], y);
    } else if k in v.bares {
      StillExplained(w, up, k, v.bares[k], x.bares[k], y);
    }
  }

  lemma {:induction false} EntryKeepsGrown(
    w: State, v: State, up: string -> Upstream, locate: Locator, id: string, e: RestoreEntry, x: State)
    requires Grown(w, up, v) && RecreateOne(v, up, locate, id, e) == Some(x)
    ensures Grown(w, up, x) && Stays(up, v, x)
  {
    EntryStays(v, up, locate, id, e, x);
    forall k, y | k in x.bares && y in x.bares[k].branches ensures Explained(w, up, k, x.bares[k], y) {
      EntryExplained(w, v, up, locate, id, e, x, k, y);
    }
    forall k | k in w.bares ensures k in x.bares && StaysBare(up, v.bares[k], x.bares[k]) {}
  }

  lemma {:induction false} StillExplained(w: State, up: string -> Upstream, bare: Path, b: Bare, c: Bare, y: string)
    requires y in b.branches && Explained(w, up, bare, b, y) && (b == c || StaysBare(up, b, c))
    ensures y in c.branches && Explained(w, up, bare, c, y)
  {
    if CheckedOut(b, y) {
      var p :| p in b.worktrees && b.worktrees[p] == Some(y);
      assert c.worktrees[p] == Some(y);
    }
  }

  lemma {:induction false} StaysRecreated(
    w: State, up: string -> Upstream, locate: Locator, id: string, e: RestoreEntry, v: State, x: State)
    requires Recreated(w, up, locate, id, e, v) && Stays(up, v, x)
    ensures Recreated(w, up, locate, id, e, x)
  {
    var bare := locate(e.remote).value.bare;
    assert StaysBare(up, v.bares[bare], x.bares[bare]);
  }

  /** Every entry of a restore list that was replayed is recreated. */
  ghost predicate AllRecreated(
    w: State, up: string -> Upstream, locate: Locator, id: string, entries: seq<RestoreEntry>, v: State) {
    forall i :: 0 <= i < |entries| ==> Recreated(w, up, locate, id, entries[i], v)
  }

  lemma {:induction false} NextRecreated(
    w: State, v: State, up: string -> Upstream, locate: Locator, id: string, entries: seq<RestoreEntry>, n: nat,
    x: State)
    requires n < |entries| && Grown(w, up, v) && AllRecreated(w, up, locate, id, entries[..n], v)
    requires RecreateOne(v, up, locate, id, entries[n]) == Some(x)
    ensures Grown(w, up, x) && AllRecreated(w, up, locate, id, entries[..n + 1], x)
  {
    EntryKeepsGrown(w, v, up, locate, id, entries[n], x);
    EntryRecreated(w, v, up, locate, id, entries[n], x);
    forall i | 0 <= i < n ensures Recreated(w, up, locate, id, entries[i], x) {
      assert Recreated(w, up, locate, id, entries[..n][i], v);
      StaysRecreated(w, up, locate, id, entries[i], v, x);
    }
  }

  lemma {:induction false} RecreatedElsewhere(
    w: State, w': State, up: string -> Upstream, locate: Locator, id: string, entries: seq<RestoreEntry>, v: State,
    v': State)
    requires AllRecreated(w, up, locate, id, entries, v) && w'.bares == w.bares && v'.bares == v.bares
    ensures AllRecreated(w', up, locate, id, entries, v')
  {
    forall i | 0 <= i < |entries| ensures Recreated(w', up, locate, id, entries[i], v') {
      assert Recreated(w, up, locate, id, entries[i], v);
    }
  }

  /** No entry lacks a field, every remote URL can be located, and no alias is repeated. */
  ghost predicate Replayable(locate: Locator, entries: seq<RestoreEntry>) {
    && (forall i, j :: 0 <= i < j < |entries| ==> entries[i].alias != entries[j].alias)
    && forall i :: 0 <= i < |entries| ==>
         && Trim(entries[i].alias) != "" && Trim(entries[i].uid) != "" && Trim(entries[i].branch) != ""
         && Trim(entries[i].remote) != "" && locate(entries[i].remote).Some?
  }

  lemma {:induction false} RecreateOneDemands(
    v: State, up: string -> Upstream, locate: Locator, id: string, e: RestoreEntry)
    requires RecreateOne(v, up, locate, id, e).Some?
    ensures EntryOk(e) && locate(e.remote).Some?
  {
  }

  lemma {:induction false} EntriesDemanded(
    w: State, up: string -> Upstream, locate: Locator, id: string, entries: seq<RestoreEntry>, ok: RestoreEntry -> bool)
    requires Recreate(w, up, locate, id, entries).Some?
    requires forall e :: EntryOk(e) && locate(e.remote).Some? ==> ok(e)
    ensures forall i :: 0 <= i < |entries| ==> ok(entries[i])
  {
    var step := (v: State, e: RestoreEntry) => RecreateOne(v, up, locate, id, e);
    forall v, e | step(v, e).Some? ensures ok(e) { RecreateOneDemands(v, up, locate, id, e); }
    FoldDemands(step, w, entries, ok, |entries|);
  }

  lemma {:induction false} ReplayableEntries(
    w: State, up: string -> Upstream, locate: Locator, id: string, entries: seq<RestoreEntry>)
    requires Recreate(w, up, locate, id, entries).Some?
    ensures Replayable(locate, entries)
  {
    NoRepeatMeans(AliasesOf(entries), |entries|);
    var ok := (e: RestoreEntry) => EntryOk(e) && locate(e.remote).Some?;
    EntriesDemanded(w, up, locate, id, entries, ok);
    assert forall i :: 0 <= i < |entries| ==> ok(entries[i]);
  }

  lemma {:induction false} GrownAtStart(w: State, up: string -> Upstream)
    ensures Grown(w, up, w)
  {
  }

  /** Reopen finds everything it needs. */
  predicate CanReopen(w: State, up: string -> Upstream, locate: Locator, id: string) {
    && MoveToActive(w, id).Some? && LoadMeta(w.archive[id]).Some?
    && Recreate(MoveToActive(w, id).value, up, locate, id, LoadMeta(w.archive[id]).value.repos).Some?
  }

  /** The state a completed reopen leaves. */
  ghost predicate Reopened(w: State, up: string -> Upstream, locate: Locator, id: string, v: State) {
    && MoveToActive(w, id).Some? && LoadMeta(w.archive[id]).Some?
    && var m := LoadMeta(w.archive[id]).value;
       var u := Recreate(MoveToActive(w, id).value, up, locate, id, m.repos);
       u.Some? && exists now :: PutMeta(u.value, id, m.(status := ACTIVE, updatedAt := now)) == Some(v)
  }

  /** The workspace is active again; if the way back to the archive failed, with its archived metadata. */
  ghost predicate MadeActive(w: State, id: string, o: Outcome, v: State) {
    && id in w.archive && id !in w.active && id in v.active
    && v.archive == w.archive - {id} && SameBut(w.active, v.active, id)
    && v.active[id].files == w.archive[id].files
    && (|| (!Compensated(o) && v.active[id].meta == w.archive[id].meta)
        || (LoadMeta(w.archive[id]).Some? && v.active[id].meta.Some?
            && SameProtection(LoadMeta(w.archive[id]).value, v.active[id].meta.value)
            && v.active[id].meta.value.status == ACTIVE))
  }

  ghost predicate StillArchived(w: State, id: string, v: State) {
    && v.active == w.active && v.archive.Keys == w.archive.Keys && SameBut(w.archive, v.archive, id)
    && (id in w.archive ==> v.archive[id].meta == w.archive[id].meta && v.archive[id].files == w.archive[id].files)
  }

  ghost predicate ReopenStep(w: State, id: string, o: Outcome, v: State) {
    if Took(o) then MadeActive(w, id, o, v) else StillArchived(w, id, v)
  }

  lemma {:induction false} MovedBack(w: State, id: string, u: State)
    requires MoveToActive(w, id).Some? && OnlyRepos(MoveToActive(w, id).value, u, id)
    ensures MoveToArchive(u, id).Some? && StillArchived(w, id, MoveToArchive(u, id).value)
    ensures MadeActive(w, id, Failed(true, false), u)
  {
    assert MoveToArchive(u, id).value.active == w.active;
  }

  lemma {:induction false} MarkedActive(w: State, id: string, u: State, now: int, v: State)
    requires MoveToActive(w, id).Some? && OnlyRepos(MoveToActive(w, id).value, u, id) && LoadMeta(w.archive[id]).Some?
    requires PutMeta(u, id, LoadMeta(w.archive[id]).value.(status := ACTIVE, updatedAt := now)) == Some(v)
    ensures MadeActive(w, id, Ok, v)
  {
  }

  /** Read the metadata, recreate the worktrees from it, mark it active. */
  method RecreateAndMark(disk: Disk, up: string -> Upstream, locate: Locator, id: string, now: int) returns (ok: bool)
    requires id in disk.state.active
    modifies disk
    ensures !ok ==> OnlyRepos(old(disk.state), disk.state, id)
    ensures ok ==>
              && LoadMeta(old(disk.state).active[id]).Some?
              && var m := LoadMeta(old(disk.state).active[id]).value;
                 var u := Recreate(old(disk.state), up, locate, id, m.repos);
                 && u.Some? && OnlyRepos(old(disk.state), u.value, id)
                 && PutMeta(u.value, id, m.(status := ACTIVE, updatedAt := now)) == Some(disk.state)
                 && AllRecreated(old(disk.state), up, locate, id, m.repos, disk.state)
    ensures old(disk.Reliable()) ==>
              (ok <==> && LoadMeta(old(disk.state).active[id]).Some?
                       && Recreate(old(disk.state), up, locate, id,
                           LoadMeta(old(disk.state).active[id]).value.repos).Some?)
    ensures disk.Onward() && disk.lost == old(disk.lost)
  {
    var loaded := LoadMeta(disk.state.active[id]);
    if loaded.None? {
      return false;
    }
    ok := RecreateWorktrees(disk, up, locate, id, loaded.value.repos);
    if ok {
      ghost var u := disk.state;
      ok := disk.Try(PutMeta(disk.state, id, loaded.value.(status := ACTIVE, updatedAt := now)));
      RecreatedElsewhere(old(disk.state), old(disk.state), up, locate, id, loaded.value.repos, u, disk.state);
    }
  }

  /** Every entry of the archived metadata is recreated. */
  ghost predicate Replayed(w: State, up: string -> Upstream, locate: Locator, id: string, v: State) {
    && id in w.archive && LoadMeta(w.archive[id]).Some?
    && AllRecreated(w, up, locate, id, LoadMeta(w.archive[id]).value.repos, v)
  }

  lemma {:induction false} ReplayedAfterMove(w: State, up: string -> Upstream, locate: Locator, id: string, v: State)
    requires MoveToActive(w, id).Some? && LoadMeta(w.archive[id]).Some?
    requires AllRecreated(MoveToActive(w, id).value, up, locate, id, LoadMeta(w.archive[id]).value.repos, v)
    ensures Replayed(w, up, locate, id, v)
  {
    RecreatedElsewhere(MoveToActive(w, id).value, w, up, locate, id, LoadMeta(w.archive[id]).value.repos, v, v);
  }

  /** The effects of reopen. A failure after the move moves the directory back to the archive. */
  method RestoreDir(disk: Disk, up: string -> Upstream, locate: Locator, id: string, now: int) returns (o: Outcome)
    requires id in disk.state.archive && id !in disk.state.active
    modifies disk
    ensures ReopenStep(old(disk.state), id, o, disk.state)
    ensures o.Ok? ==> Reopened(old(disk.state), up, locate, id, disk.state)
    ensures o.Ok? ==> Replayed(old(disk.state), up, locate, id, disk.state)
    ensures o.Failed? && o.compensated ==> !o.effective
    ensures FailsLate(o) ==> disk.state.active[id].meta == old(disk.state).archive[id].meta
    ensures old(disk.Reliable()) ==> (o.Ok? <==> CanReopen(old(disk.state), up, locate, id)) && Compensated(o)
    ensures disk.Onward() && (Compensated(o) <==> disk.lost == old(disk.lost))
  {
    ghost var w := disk.state;
    var ok := disk.Try(MoveToActive(disk.state, id));
    if !ok {
      return Failed(false, true);
    }
    ok := RecreateAndMark(disk, up, locate, id, now);
    if !ok {
      MovedBack(w, id, disk.state);
      var back := disk.Undo(MoveToArchive(disk.state, id));
      return Failed(!back, back);
    }
    ReplayedAfterMove(w, up, locate, id, disk.state);
    MarkedActive(w, id, Recreate(MoveToActive(w, id).value, up, locate, id, LoadMeta(w.archive[id]).value.repos).value,
                 now, disk.state);
    return Ok;
  }

  /** The archived metadata is not already marked active. */
  predicate MarkedArchived(w: State, id: string) {
    id in w.archive && w.archive[id].meta.Some? ==> w.archive[id].meta.value.status != ACTIVE
  }

  /** The directory has come back to workspaces/. */
  predicate Returned(w: State, id: string, v: State) {
    id in w.archive && id !in w.active && id in v.active
  }

  /** ... with the metadata that it had in the archive. */
  predicate Unfinished(w: State, id: string, v: State) {
    Returned(w, id, v) && v.active[id].meta == w.archive[id].meta
  }

  /** Reopen: move back, recreate the worktrees from the metadata, mark active. It fails late exactly when the
      directory came back and either the way back to the archive failed, so that the metadata was never
      marked, or the commit after the effects did not go through. */
  method Reopen(
    disk: Disk, up: string -> Upstream, locate: Locator, id: string, commits: Commits, now: int) returns (o: Outcome)
    modifies disk
    ensures ReopenStep(old(disk.state), id, o, disk.state)
    ensures Took(o) && Compensated(o) ==> Reopened(old(disk.state), up, locate, id, disk.state)
    ensures Took(o) && Compensated(o) ==> Replayed(old(disk.state), up, locate, id, disk.state)
    ensures Took(o) <==> Returned(old(disk.state), id, disk.state)
    ensures Took(o) ==> BeforeOk(commits)
    ensures MarkedArchived(old(disk.state), id) ==>
              (FailsLate(o) <==>
                 || Unfinished(old(disk.state), id, disk.state)
                 || (Returned(old(disk.state), id, disk.state) && !AfterOk(commits)))
    ensures old(disk.Reliable()) ==>
              && (Took(o) <==> CanReopen(old(disk.state), up, locate, id) && BeforeOk(commits)) && Compensated(o)
              && (FailsLate(o) <==> Took(o) && !AfterOk(commits))
    ensures disk.Onward() && (Compensated(o) <==> disk.lost == old(disk.lost))
  {
    if id !in disk.state.archive || id in disk.state.active {
      return Failed(false, true);
    }
    if !BeforeOk(commits) {
      return Failed(false, true);
    }
    o := RestoreDir(disk, up, locate, id, now);
    if o.Ok? && !AfterOk(commits) {
      return Failed(true, true);
    }
  }

  // ----- Purge -----

  ghost predicate PurgeStep(w: State, id: string, o: Outcome, v: State) {
    && v.active == w.active && v.bares == w.bares
    && (Took(o) ==>
          && id in w.archive && id !in w.active && LoadMeta(w.archive[id]).Some?
              && !GuardEnabled(LoadMeta(w.archive[id]).value)
          && v.archive == w.archive - {id})
    && (!Took(o) ==> v.archive == w.archive)
  }

  predicate CanPurge(w: State, id: string) {
    id in w.archive && id !in w.active && LoadMeta(w.archive[id]).Some? && !GuardEnabled(LoadMeta(w.archive[id]).value)
  }

  /** The archived directory is gone. */
  predicate Vanished(w: State, id: string, v: State) {
    id in w.archive && id !in v.archive
  }

  /** Purge: only an archived workspace whose guard is off is deleted. It fails late exactly when the
      directory is gone and the commit after that did not go through. */
  method Purge(disk: Disk, id: string, commits: Commits) returns (o: Outcome)
    modifies disk
    ensures PurgeStep(old(disk.state), id, o, disk.state)
    ensures Compensated(o)
    ensures Took(o) <==> Vanished(old(disk.state), id, disk.state)
    ensures FailsLate(o) <==> Vanished(old(disk.state), id, disk.state) && !AfterOk(commits)
    ensures Took(o) ==> BeforeOk(commits)
    ensures old(disk.Reliable()) ==> (Took(o) <==> CanPurge(old(disk.state), id) && BeforeOk(commits))
    ensures disk.Onward() && disk.lost == old(disk.lost)
  {
    if id in disk.state.active || id !in disk.state.archive {
      // Not found, or still active: the active case stops at the guard or at the status check.
      return Failed(false, true);
    }
    var loaded := LoadMeta(disk.state.archive[id]);
    if loaded.None? || GuardEnabled(loaded.value) || !BeforeOk(commits) {
      return Failed(false, true);
    }
    // An archived workspace has no aliases in workspaces/, so this removes nothing.
    var aliases := SortAliases(BoundAliases(disk.state, id));
    NothingListed(aliases, BoundAliases(disk.state, id));
    var _ := RemoveWorktrees(disk, id, aliases);
    assert disk.state == old(disk.state);
    var ok := disk.Try(Some(RemoveActive(disk.state, id)));
    assert disk.state.active == old(disk.state).active;
    if ok {
      ok := disk.Try(Some(RemoveArchive(disk.state, id)));
    }
    if !ok {
      return Failed(false, true);
    }
    if !AfterOk(commits) {
      return Failed(true, true);
    }
    return Ok;
  }
}
