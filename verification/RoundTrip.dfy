/** Closing a workspace and reopening it gives back its repositories, branches, files and protection. */
module RoundTrip {
  import opened Text
  import opened Folds
  import opened RepoSpec
  import opened World
  import opened AddRepo
  import opened Lifecycle

  /** A repo directory that is a worktree on an existing local branch, which no other worktree has checked out. */
  ghost predicate Linked(w: State, id: string, alias: string, bare: Path, branch: string) {
    && id in w.active && alias in w.active[id].repos && w.active[id].repos[alias] == Some(bare)
    && bare in w.bares && branch in w.bares[bare].branches
    && InRoot(id, alias) in w.bares[bare].worktrees && w.bares[bare].worktrees[InRoot(id, alias)] == Some(branch)
    && forall p :: p in w.bares[bare].worktrees && p != InRoot(id, alias) ==> w.bares[bare].worktrees[p] != Some(branch)
  }

  /** A restore entry that reopen accepts for the repository it was recorded from. */
  ghost predicate Restorable(locate: Locator, e: RestoreEntry, bare: Path) {
    && EntryOk(e) && locate(e.remote).Some? && locate(e.remote).value.bare == bare
    && ORIGIN <= Trim(e.baseRef) && Trim(Trim(e.baseRef)[|ORIGIN|..]) != ""
  }

  /** The entry that close records: uid and base ref from the metadata, the rest from the worktree. */
  function Recorded(locate: Locator, w: State, e: RestoreEntry, bare: Path, branch: string): Option<RestoreEntry>
    requires bare in w.bares
  {
    var remote := Trim(w.bares[bare].origin);
    if locate(remote).None? then None
    else Some(RestoreEntry(Trim(e.uid), locate(remote).value.key, remote, e.alias, branch, Trim(e.baseRef)))
  }

  /** A repository bound in the metadata by entry e. */
  ghost predicate Bound(locate: Locator, w: State, id: string, e: RestoreEntry, bare: Path, branch: string) {
    && Linked(w, id, e.alias, bare, branch)
    && Trim(e.alias) == e.alias != "" && Trim(branch) == branch != "" && Trim(w.bares[bare].origin) != ""
    && Recorded(locate, w, e, bare, branch).Some? && Restorable(locate, Recorded(locate, w, e, bare, branch).value,
        bare)
  }

  /** Present, on a named branch, bound in the metadata, and stored where its origin URL says. */
  ghost predicate IsBound(locate: Locator, w: State, id: string, e: RestoreEntry) {
    exists bare, branch :: Bound(locate, w, id, e, bare, branch)
  }

  ghost predicate IsLinked(w: State, id: string, alias: string) {
    exists bare, branch :: Linked(w, id, alias, bare, branch)
  }

  /** Every entry of the metadata is bound to a repo directory of its own, and every directory has one. */
  ghost predicate Closable(locate: Locator, w: State, id: string) {
    && id in w.active && id !in w.archive && LoadMeta(w.active[id]).Some?
    && var entries := LoadMeta(w.active[id]).value.repos;
       && (forall i :: 0 <= i < |entries| ==> IsBound(locate, w, id, entries[i]))
       && (forall i, j :: 0 <= i < j < |entries| ==> entries[i].alias != entries[j].alias)
       && (forall a :: a in w.active[id].repos ==> exists i :: 0 <= i < |entries| && entries[i].alias == a)
  }

  // ----- What close records -----

  lemma {:induction false} LookupDistinct(entries: seq<RestoreEntry>, n: nat, i: nat)
    requires i < n <= |entries|
    requires forall k :: 0 <= k < |entries| ==> Trim(entries[k].alias) == entries[k].alias
    requires forall j, k :: 0 <= j < k < |entries| ==> entries[j].alias != entries[k].alias
    ensures entries[i].alias in ByAlias(entries, n) && ByAlias(entries, n)[entries[i].alias] == entries[i]
    ensures entries[i].alias in RawByAlias(entries, n) && RawByAlias(entries, n)[entries[i].alias] == entries[i]
  {
    if i < n - 1 { LookupDistinct(entries, n - 1, i); }
  }

  lemma {:induction false} ClosingIsRecorded(
    locate: Locator, w: State, id: string, entries: seq<RestoreEntry>, e: RestoreEntry, bare: Path, branch: string)
    requires Bound(locate, w, id, e, bare, branch)
    requires RestoreFor(entries, e.alias) == e == WrittenFor(entries, e.alias)
    ensures ClosingEntry(locate, w, id, entries, e.alias) == Recorded(locate, w, e, bare, branch)
  {
    assert BareOf(w, id, e.alias) == Some(bare);
    assert BranchOf(w, id, e.alias) == Some(branch);
    var r := Recorded(locate, w, e, bare, branch).value;
    assert Trim(e.baseRef) != "" by { TrimIsTrimmed(e.baseRef); TrimOfTrimmed(Trim(e.baseRef)); }
  }

  lemma {:induction false} FindEntry(locate: Locator, w: State, id: string, alias: string) returns (e: RestoreEntry)
    requires Closable(locate, w, id) && alias in w.active[id].repos
    ensures e.alias == alias && IsBound(locate, w, id, e) && e in LoadMeta(w.active[id]).value.repos
    ensures RestoreFor(LoadMeta(w.active[id]).value.repos, alias) == e
        == WrittenFor(LoadMeta(w.active[id]).value.repos, alias)
  {
    var entries := LoadMeta(w.active[id]).value.repos;
    var i :| 0 <= i < |entries| && entries[i].alias == alias;
    forall k | 0 <= k < |entries| ensures Trim(entries[k].alias) == entries[k].alias {
      assert IsBound(locate, w, id, entries[k]);
    }
    LookupDistinct(entries, |entries|, i);
    e := entries[i];
    assert IsBound(locate, w, id, entries[i]);
  }

  /** What close records for a directory restores it. */
  ghost predicate Restores(locate: Locator, w: State, id: string, alias: string, r: RestoreEntry) {
    exists bare, branch :: Linked(w, id, alias, bare, branch) && Restorable(locate, r, bare) && r.alias == alias
        && r.branch == branch
  }

  lemma {:induction false} ClosingRestores(locate: Locator, w: State, id: string, alias: string)
    requires Closable(locate, w, id) && alias in w.active[id].repos
    ensures var r := ClosingEntry(locate, w, id, LoadMeta(w.active[id]).value.repos, alias);
            r.Some? && Restores(locate, w, id, alias, r.value)
  {
    var e := FindEntry(locate, w, id, alias);
    var bare, branch :| Bound(locate, w, id, e, bare, branch);
    ClosingIsRecorded(locate, w, id, LoadMeta(w.active[id]).value.repos, e, bare, branch);
  }

  lemma {:induction false} BoundAliasesAreDirs(locate: Locator, w: State, id: string)
    requires Closable(locate, w, id)
    ensures BoundAliases(w, id) == w.active[id].repos.Keys
  {
    var entries := LoadMeta(w.active[id]).value.repos;
    forall i | 0 <= i < |entries| ensures Trim(entries[i].alias) == entries[i].alias != ""
        && entries[i].alias in w.active[id].repos {
      assert IsBound(locate, w, id, entries[i]);
    }
    forall a | a in w.active[id].repos ensures Trim(a) != "" {
      var i :| 0 <= i < |entries| && entries[i].alias == a;
    }
  }

  // ----- Between closed and open -----

  /** The place is the worktree of one of the workspace's own repo directories. */
  predicate Own(d: Dir, id: string, bare: Path, p: Place) {
    p.InRoot? && p.id == id && p.alias in d.repos && d.repos[p.alias] == Some(bare)
  }

  ghost predicate BareAt(d: Dir, id: string, present: set<string>, bare: Path, b: Bare, c: Bare) {
    && c.origin == b.origin && c.branches == b.branches
    && (forall p :: p in c.worktrees <==> p in b.worktrees && (Own(d, id, bare, p) ==> p.alias in present))
    && (forall p :: p in c.worktrees ==> c.worktrees[p] == b.worktrees[p])
  }

  ghost predicate BaresAt(w: State, id: string, present: set<string>, v: State)
    requires id in w.active
  {
    v.bares.Keys == w.bares.Keys && forall b :: b in w.bares ==>
        BareAt(w.active[id], id, present, b, w.bares[b], v.bares[b])
  }

  ghost predicate DirsAt(d: Dir, present: set<string>, e: Dir) {
    && (forall a :: a in e.repos <==> a in d.repos && a in present)
    && (forall a :: a in e.repos ==> e.repos[a] == d.repos[a])
  }

  /** Like `w`, but of the workspace's repo directories only those in `present` are there. */
  ghost predicate Partly(w: State, id: string, present: set<string>, v: State) {
    id in w.active && id in v.active && BaresAt(w, id, present, v) && DirsAt(w.active[id], present, v.active[id])
  }

  /** Removing an own worktree from its repository. */
  lemma {:induction false} BareStripped(
    d: Dir, id: string, present: set<string>, alias: string, bare: Path, b: Bare, c: Bare)
    requires BareAt(d, id, present, bare, b, c) && Own(d, id, bare, InRoot(id, alias))
    ensures BareAt(d, id, present - {alias}, bare, b, c.(worktrees := c.worktrees - {InRoot(id, alias)}))
  {
  }

  /** Adding it again. */
  lemma {:induction false} BareAddedBack(
    d: Dir, id: string, present: set<string>, alias: string, bare: Path, b: Bare, c: Bare, branch: string)
    requires BareAt(d, id, present, bare, b, c) && Own(d, id, bare, InRoot(id, alias))
    requires InRoot(id, alias) in b.worktrees && b.worktrees[InRoot(id, alias)] == Some(branch)
    ensures BareAt(d, id, present + {alias}, bare, b, c.(worktrees := c.worktrees[InRoot(id, alias) := Some(branch)]))
  {
  }

  /** Other repositories have no worktree at that place. */
  lemma {:induction false} BareElsewhere(
    d: Dir, id: string, present: set<string>, alias: string, bare: Path, b: Bare, c: Bare)
    requires BareAt(d, id, present, bare, b, c) && alias in d.repos && d.repos[alias] != Some(bare)
    ensures BareAt(d, id, present - {alias}, bare, b, c) && BareAt(d, id, present + {alias}, bare, b, c)
  {
  }

  lemma {:induction false} StripStep(
    w: State, id: string, present: set<string>, v: State, alias: string, bare: Path, branch: string)
    requires Linked(w, id, alias, bare, branch) && Partly(w, id, present, v) && alias in present
    ensures StripOne(v, id, alias).Some? && Partly(w, id, present - {alias}, StripOne(v, id, alias).value)
  {
    var d := w.active[id];
    assert BareAt(d, id, present, bare, w.bares[bare], v.bares[bare]);
    var u := StripOne(v, id, alias).value;
    assert DirsAt(d, present - {alias}, u.active[id]);
    forall b | b in w.bares ensures BareAt(d, id, present - {alias}, b, w.bares[b], u.bares[b]) {
      if b == bare {
        BareStripped(d, id, present, alias, bare, w.bares[bare], v.bares[bare]);
      } else {
        BareElsewhere(d, id, present, alias, b, w.bares[b], v.bares[b]);
      }
    }
  }

  lemma {:induction false} StripNext(w: State, id: string, all: set<string>, gone: set<string>, v: State, alias: string)
    requires IsLinked(w, id, alias) && alias in all && alias !in gone && Partly(w, id, all - gone, v)
    ensures StripOne(v, id, alias).Some? && Partly(w, id, all - (gone + {alias}), StripOne(v, id, alias).value)
  {
    assert all - gone - {alias} == all - (gone + {alias});
    var bare, branch :| Linked(w, id, alias, bare, branch);
    StripStep(w, id, all - gone, v, alias, bare, branch);
  }

  /** Removing the worktrees leaves exactly the other repo directories. */
  lemma {:induction false} StripAll(w: State, id: string, all: set<string>, aliases: seq<string>)
    requires Partly(w, id, all, w)
    requires forall i :: 0 <= i < |aliases| ==> IsLinked(w, id, aliases[i]) && aliases[i] in all
    requires forall i, j :: 0 <= i < j < |aliases| ==> aliases[i] != aliases[j]
    ensures Strip(w, id, aliases).Some? && Partly(w, id, all - Names(aliases, |aliases|), Strip(w, id, aliases).value)
  {
    var step := (v: State, alias: string) => StripOne(v, id, alias);
    var part := (gone: set<string>, v: State) => Partly(w, id, all - gone, v);
    forall gone, v, i: nat | i < |aliases| && part(gone, v) && aliases[i] !in gone
      ensures step(v, aliases[i]).Some? && part(gone + {aliases[i]}, step(v, aliases[i]).value)
    {
      StripNext(w, id, all, gone, v, aliases[i]);
    }
    assert all - {} == all;
    FoldNames(step, w, aliases, aliases, part, |aliases|);
  }

  lemma {:induction false} FetchKeepsPartly(
    w: State, id: string, present: set<string>, v: State, up: string -> Upstream, bare: Path, remote: string)
    requires Partly(w, id, present, v) && bare in w.bares
    ensures Partly(w, id, present, Fetched(v, up, bare, remote))
  {
    var d := w.active[id];
    forall b | b in w.bares ensures BareAt(d, id, present, b, w.bares[b], Fetched(v, up, bare, remote).bares[b]) {
      assert BareAt(d, id, present, b, w.bares[b], v.bares[b]);
    }
  }

  lemma {:induction false} AddBack(
    w: State, id: string, present: set<string>, v: State, alias: string, bare: Path, branch: string)
    requires Linked(w, id, alias, bare, branch) && Partly(w, id, present, v) && alias !in present
    ensures bare in v.bares && branch in v.bares[bare].branches
    ensures AddWorktree(v, bare, id, alias, branch).Some?
    ensures Partly(w, id, present + {alias}, AddWorktree(v, bare, id, alias, branch).value)
  {
    var d := w.active[id];
    assert BareAt(d, id, present, bare, w.bares[bare], v.bares[bare]);
    assert Own(d, id, bare, InRoot(id, alias));
    var u := AddWorktree(v, bare, id, alias, branch).value;
    assert DirsAt(d, present + {alias}, u.active[id]);
    forall b | b in w.bares ensures BareAt(d, id, present + {alias}, b, w.bares[b], u.bares[b]) {
      if b == bare {
        BareAddedBack(d, id, present, alias, bare, w.bares[bare], v.bares[bare], branch);
      } else {
        BareElsewhere(d, id, present, alias, b, w.bares[b], v.bares[b]);
      }
    }
  }

  lemma {:induction false} BranchReady(locate: Locator, v: State, e: RestoreEntry, bare: Path)
    requires Restorable(locate, e, bare) && bare in v.bares && e.branch in v.bares[bare].branches
    ensures DefaultBaseRef(v, bare, e.baseRef) != ""
    ensures Or(Trim(e.baseRef), Trim(DefaultBaseRef(v, bare, e.baseRef))) == Trim(e.baseRef)
    ensures EnsureBranch(v, bare, e.branch, Trim(e.baseRef)) == Some(v)
  {
  }

  lemma {:induction false} RecreateStep(
    locate: Locator, up: string -> Upstream, w: State, id: string, present: set<string>, v: State, e: RestoreEntry)
    requires Restores(locate, w, id, e.alias, e) && Partly(w, id, present, v) && e.alias !in present
    ensures RecreateOne(v, up, locate, id, e).Some?
    ensures Partly(w, id, present + {e.alias}, RecreateOne(v, up, locate, id, e).value)
  {
    var bare, branch :| Linked(w, id, e.alias, bare, branch) && Restorable(locate, e, bare) && e.branch == branch;
    var f := Fetched(v, up, bare, Trim(e.remote));
    FetchKeepsPartly(w, id, present, v, up, bare, Trim(e.remote));
    AddBack(w, id, present, f, e.alias, bare, branch);
    RecreateIsAddWorktree(locate, up, v, id, e, bare);
  }

  /** While the branch is still there, recreating a worktree is fetching and adding it. */
  lemma {:induction false} RecreateIsAddWorktree(
    locate: Locator, up: string -> Upstream, v: State, id: string, e: RestoreEntry, bare: Path)
    requires Restorable(locate, e, bare) && id in v.active && e.alias !in v.active[id].repos
    requires var f := Fetched(v, up, bare, Trim(e.remote)); bare in f.bares && e.branch in f.bares[bare].branches
    ensures RecreateOne(v, up, locate, id, e) == AddWorktree(Fetched(v, up, bare, Trim(e.remote)), bare, id, e.alias,
        e.branch)
  {
    BranchReady(locate, Fetched(v, up, bare, Trim(e.remote)), e, bare);
  }

  /** One entry of the list, for the fold over it. */
  lemma {:induction false} RecreateStepAt(
    locate: Locator, up: string -> Upstream, w: State, id: string, present: set<string>, v: State,
        entries: seq<RestoreEntry>, i: nat)
    requires i < |entries| && Restores(locate, w, id, entries[i].alias, entries[i])
    requires Partly(w, id, present, v) && AliasesOf(entries)[i] !in present
    ensures RecreateOne(v, up, locate, id, entries[i]).Some?
    ensures Partly(w, id, present + {AliasesOf(entries)[i]}, RecreateOne(v, up, locate, id, entries[i]).value)
  {
    RecreateStep(locate, up, w, id, present, v, entries[i]);
  }

  lemma {:induction false} RecreateAll(
    locate: Locator, up: string -> Upstream, w: State, id: string, v: State, entries: seq<RestoreEntry>)
    requires Partly(w, id, {}, v)
    requires forall i :: 0 <= i < |entries| ==> Restores(locate, w, id, entries[i].alias, entries[i])
    requires forall i, j :: 0 <= i < j < |entries| ==> entries[i].alias != entries[j].alias
    ensures Recreate(v, up, locate, id, entries).Some?
    ensures Partly(w, id, Names(AliasesOf(entries), |entries|), Recreate(v, up, locate, id, entries).value)
  {
    var aliases := AliasesOf(entries);
    NoRepeatMeans(aliases, |aliases|);
    RecreateFold(locate, up, w, id, v, entries, aliases);
  }

  lemma {:induction false} RecreateFold(
    locate: Locator, up: string -> Upstream, w: State, id: string, v: State, entries: seq<RestoreEntry>,
    aliases: seq<string>)
    requires Partly(w, id, {}, v) && aliases == AliasesOf(entries)
    requires forall i :: 0 <= i < |entries| ==> Restores(locate, w, id, entries[i].alias, entries[i])
    requires forall i, j :: 0 <= i < j < |aliases| ==> aliases[i] != aliases[j]
    ensures var r := Fold((v: State, e: RestoreEntry) => RecreateOne(v, up, locate, id, e), v, entries, |entries|);
            r.Some? && Partly(w, id, Names(aliases, |entries|), r.value)
  {
    var step := (v: State, e: RestoreEntry) => RecreateOne(v, up, locate, id, e);
    var part := (present: set<string>, v: State) => Partly(w, id, present, v);
    forall present, u, i: nat | i < |entries| && part(present, u) && aliases[i] !in present
      ensures step(u, entries[i]).Some? && part(present + {aliases[i]}, step(u, entries[i]).value)
    {
      assert Restores(locate, w, id, entries[i].alias, entries[i]);
      RecreateStepAt(locate, up, w, id, present, u, entries, i);
    }
    FoldNames(step, v, entries, aliases, part, |entries|);
  }

  // ----- Frames -----

  lemma {:induction false} RecreateOneOnlyRepos(
    v: State, up: string -> Upstream, locate: Locator, id: string, e: RestoreEntry)
    ensures RecreateOne(v, up, locate, id, e).Some? ==> OnlyRepos(v, RecreateOne(v, up, locate, id, e).value, id)
  {
    if RecreateOne(v, up, locate, id, e).Some? {
      var bare := locate(e.remote).value.bare;
      var f := Fetched(v, up, bare, Trim(e.remote));
      var base := Or(Trim(e.baseRef), Trim(DefaultBaseRef(f, bare, e.baseRef)));
      var g := EnsureBranch(f, bare, e.branch, base).value;
      GitStepsOnlyRepos(v, up, bare, Trim(e.remote), id, e.alias, e.branch, base);
      GitStepsOnlyRepos(f, up, bare, "", id, e.alias, e.branch, base);
      GitStepsOnlyRepos(g, up, bare, "", id, e.alias, e.branch, base);
      OnlyReposTransitive(v, f, g, id);
      OnlyReposTransitive(v, g, AddWorktree(g, bare, id, e.alias, e.branch).value, id);
    }
  }

  lemma {:induction false} RecreateFrame(
    w: State, up: string -> Upstream, locate: Locator, id: string, entries: seq<RestoreEntry>)
    ensures Recreate(w, up, locate, id, entries).Some? ==> OnlyRepos(w, Recreate(w, up, locate, id, entries).value, id)
  {
    var step := (v: State, e: RestoreEntry) => RecreateOne(v, up, locate, id, e);
    forall v, e | step(v, e).Some? ensures OnlyRepos(v, step(v, e).value, id) {
      RecreateOneOnlyRepos(v, up, locate, id, e);
    }
    FoldOnlyRepos(step, w, id, entries, |entries|);
  }

  // ----- The round trip -----

  lemma {:induction false} DirIsLinked(locate: Locator, w: State, id: string, alias: string)
    requires Closable(locate, w, id) && alias in w.active[id].repos
    ensures IsLinked(w, id, alias)
  {
    var e := FindEntry(locate, w, id, alias);
    var bare, branch :| Bound(locate, w, id, e, bare, branch);
  }

  lemma {:induction false} NamesOfListing(aliases: seq<string>, names: set<string>)
    requires ListsAliases(aliases, names)
    ensures Names(aliases, |aliases|) == names
    ensures forall i :: 0 <= i < |aliases| ==> aliases[i] in names
  {
    NamesMembers(aliases, |aliases|);
    assert aliases[..|aliases|] == aliases;
    forall i | 0 <= i < |aliases| ensures aliases[i] in names { assert aliases[i] in aliases; }
  }

  lemma {:induction false} ListedAliases(locate: Locator, w: State, id: string, aliases: seq<string>)
    requires Closable(locate, w, id) && ListsAliases(aliases, BoundAliases(w, id))
    ensures forall i :: 0 <= i < |aliases| ==> aliases[i] in w.active[id].repos && IsLinked(w, id, aliases[i])
    ensures Names(aliases, |aliases|) == w.active[id].repos.Keys
  {
    BoundAliasesAreDirs(locate, w, id);
    NamesOfListing(aliases, w.active[id].repos.Keys);
    forall i | 0 <= i < |aliases| ensures IsLinked(w, id, aliases[i]) { DirIsLinked(locate, w, id, aliases[i]); }
  }

  lemma {:induction false} AllRecorded(locate: Locator, w: State, id: string, aliases: seq<string>)
    requires Closable(locate, w, id) && forall i :: 0 <= i < |aliases| ==> aliases[i] in w.active[id].repos
    ensures ClosingEntries(locate, w, id, LoadMeta(w.active[id]).value.repos, aliases).Some?
  {
    var f := (alias: string) => ClosingEntry(locate, w, id, LoadMeta(w.active[id]).value.repos, alias);
    if Collect(f, aliases, |aliases|).None? {
      CollectFails(f, aliases, |aliases|);
      var i :| 0 <= i < |aliases| && f(aliases[i]).None?;
      ClosingRestores(locate, w, id, aliases[i]);
    }
  }

  /** Neither the recording nor git refuses to close such a workspace. */
  lemma {:induction false} CloseCanProceed(locate: Locator, w: State, id: string, aliases: seq<string>)
    requires Closable(locate, w, id) && ListsAliases(aliases, BoundAliases(w, id))
    ensures ClosingEntries(locate, w, id, LoadMeta(w.active[id]).value.repos, aliases).Some?
    ensures Strip(w, id, aliases).Some? && Partly(w, id, {}, Strip(w, id, aliases).value)
  {
    ListedAliases(locate, w, id, aliases);
    AllRecorded(locate, w, id, aliases);
    StripAll(w, id, w.active[id].repos.Keys, aliases);
    assert w.active[id].repos.Keys - Names(aliases, |aliases|) == {};
  }

  lemma {:induction false} RecordedListRestores(locate: Locator, w: State, id: string, plan: ClosePlan, i: nat)
    requires Closable(locate, w, id) && ReadyToClose(locate, w, id, plan) && i < |plan.aliases|
    ensures |plan.updated.repos| == |plan.aliases|
    ensures plan.updated.repos[i].alias == plan.aliases[i]
    ensures Restores(locate, w, id, plan.aliases[i], plan.updated.repos[i])
    ensures ClosingEntry(locate, w, id, plan.original.repos, plan.aliases[i]) == Some(plan.updated.repos[i])
  {
    var f := (alias: string) => ClosingEntry(locate, w, id, plan.original.repos, alias);
    ListedAliases(locate, w, id, plan.aliases);
    CollectAt(f, plan.aliases, |plan.aliases|, i);
    ClosingRestores(locate, w, id, plan.aliases[i]);
  }

  /** Moving the archived directory back undoes the move, with the metadata that close wrote. */
  lemma {:induction false} MovedBackAfterClose(w: State, id: string, plan: ClosePlan, v: State)
    requires id in w.active && id !in w.archive && Archived(w, id, plan, v)
    ensures MoveToActive(v, id).Some? && v.archive[id].meta == Some(plan.updated)
    ensures var u, s := MoveToActive(v, id).value, Strip(w, id, plan.aliases).value;
            && u.bares == s.bares && u.archive == w.archive && SameBut(w.active, u.active, id)
            && id in s.active && u.active[id] == s.active[id].(meta := Some(plan.updated))
            && u.active[id].files == w.active[id].files
  {
    StripFrame(w, id, plan.aliases);
    assert MoveToActive(v, id).value.archive == w.archive;
  }

  lemma {:induction false} RecordedAliases(locate: Locator, w: State, id: string, plan: ClosePlan)
    requires Closable(locate, w, id) && ReadyToClose(locate, w, id, plan)
    ensures AliasesOf(plan.updated.repos) == plan.aliases
  {
    var entries := plan.updated.repos;
    assert |entries| == |plan.aliases|;
    forall i | 0 <= i < |entries| ensures entries[i].alias == plan.aliases[i] {
      RecordedListRestores(locate, w, id, plan, i);
    }
  }

  lemma {:induction false} RecordedRestoresAll(locate: Locator, w: State, id: string, plan: ClosePlan)
    requires Closable(locate, w, id) && ReadyToClose(locate, w, id, plan)
    ensures forall i :: 0 <= i < |plan.updated.repos| ==>
        Restores(locate, w, id, plan.updated.repos[i].alias, plan.updated.repos[i])
  {
    var entries := plan.updated.repos;
    assert |entries| == |plan.aliases|;
    forall i | 0 <= i < |entries| ensures Restores(locate, w, id, entries[i].alias, entries[i]) {
      RecordedListRestores(locate, w, id, plan, i);
    }
  }

  /** After a close, git refuses nothing of the reopen, and every repo directory is back. */
  lemma {:induction false} ReopenCanProceed(
    locate: Locator, up: string -> Upstream, w: State, id: string, plan: ClosePlan, v: State)
    requires Closable(locate, w, id) && ReadyToClose(locate, w, id, plan) && Archived(w, id, plan, v)
    ensures MoveToActive(v, id).Some?
    ensures var r := Recreate(MoveToActive(v, id).value, up, locate, id, plan.updated.repos);
            r.Some? && Partly(w, id, w.active[id].repos.Keys, r.value)
  {
    CloseCanProceed(locate, w, id, plan.aliases);
    MovedBackAfterClose(w, id, plan, v);
    RecordedAliases(locate, w, id, plan);
    RecordedRestoresAll(locate, w, id, plan);
    ListedAliases(locate, w, id, plan.aliases);
    var u, entries := MoveToActive(v, id).value, plan.updated.repos;
    assert Partly(w, id, {}, u);
    forall i, j | 0 <= i < j < |entries| ensures entries[i].alias != entries[j].alias {
      assert AliasesOf(entries)[i] != AliasesOf(entries)[j];
    }
    RecreateAll(locate, up, w, id, u, entries);
  }

  /** Everything that the round trip promises to bring back. */
  ghost predicate CameBack(locate: Locator, w: State, id: string, v: State) {
    && id in w.active && id in v.active && LoadMeta(w.active[id]).Some? && v.active[id].meta.Some?
    && v.archive == w.archive && SameBut(w.active, v.active, id)
    && v.active[id].repos == w.active[id].repos && v.active[id].files == w.active[id].files
    && v.bares.Keys == w.bares.Keys
    && (forall b :: b in w.bares ==>
          && v.bares[b].origin == w.bares[b].origin
          && v.bares[b].branches == w.bares[b].branches
          && v.bares[b].worktrees == w.bares[b].worktrees)
    && SameProtection(LoadMeta(w.active[id]).value, v.active[id].meta.value)
    && v.active[id].meta.value.status == ACTIVE
    && EntriesCameBack(locate, w, id, LoadMeta(w.active[id]).value.repos, v.active[id].meta.value.repos)
  }

  /** Entry by entry: uid and base ref as before, remote and branch as in the worktree. */
  ghost predicate EntriesCameBack(
    locate: Locator, w: State, id: string, before: seq<RestoreEntry>, after: seq<RestoreEntry>) {
    && (forall e, bare, branch :: e in before && Bound(locate, w, id, e, bare, branch) ==>
          Recorded(locate, w, e, bare, branch).value in after)
    && (forall r :: r in after ==> exists e, bare, branch ::
          e in before && Bound(locate, w, id, e, bare, branch) && Recorded(locate, w, e, bare, branch) == Some(r))
  }

  lemma {:induction false} WholeAgain(w: State, id: string, v: State)
    requires id in w.active && Partly(w, id, w.active[id].repos.Keys, v)
    ensures v.active[id].repos == w.active[id].repos && v.bares.Keys == w.bares.Keys
    ensures forall b :: b in w.bares ==>
              && v.bares[b].origin == w.bares[b].origin
              && v.bares[b].branches == w.bares[b].branches
              && v.bares[b].worktrees == w.bares[b].worktrees
  {
    var d := w.active[id];
    forall b | b in w.bares
      ensures v.bares[b].origin == w.bares[b].origin && v.bares[b].branches == w.bares[b].branches
      ensures v.bares[b].worktrees == w.bares[b].worktrees
    {
      assert BareAt(d, id, d.repos.Keys, b, w.bares[b], v.bares[b]);
    }
  }

  lemma {:induction false} EntriesWithOneAlias(entries: seq<RestoreEntry>, e: RestoreEntry, f: RestoreEntry)
    requires forall i, j :: 0 <= i < j < |entries| ==> entries[i].alias != entries[j].alias
    requires e in entries && f in entries && e.alias == f.alias
    ensures e == f
  {
    var i :| 0 <= i < |entries| && entries[i] == e;
    var j :| 0 <= j < |entries| && entries[j] == f;
    assert i == j;
  }

  lemma {:induction false} EntryIsRecorded(
    locate: Locator, w: State, id: string, plan: ClosePlan, e: RestoreEntry, bare: Path, branch: string)
    requires Closable(locate, w, id) && ReadyToClose(locate, w, id, plan)
    requires e in plan.original.repos && Bound(locate, w, id, e, bare, branch)
    ensures Recorded(locate, w, e, bare, branch).value in plan.updated.repos
  {
    BoundAliasesAreDirs(locate, w, id);
    assert e.alias in plan.aliases;
    var i :| 0 <= i < |plan.aliases| && plan.aliases[i] == e.alias;
    RecordedListRestores(locate, w, id, plan, i);
    var found := FindEntry(locate, w, id, e.alias);
    EntriesWithOneAlias(plan.original.repos, e, found);
    ClosingIsRecorded(locate, w, id, plan.original.repos, e, bare, branch);
  }

  lemma {:induction false} RecordedHasEntry(locate: Locator, w: State, id: string, plan: ClosePlan, i: nat)
    returns (e: RestoreEntry, bare: Path, branch: string)
    requires Closable(locate, w, id) && ReadyToClose(locate, w, id, plan) && i < |plan.updated.repos|
    ensures e in plan.original.repos && Bound(locate, w, id, e, bare, branch)
    ensures Recorded(locate, w, e, bare, branch) == Some(plan.updated.repos[i])
  {
    assert |plan.updated.repos| == |plan.aliases|;
    RecordedListRestores(locate, w, id, plan, i);
    ListedAliases(locate, w, id, plan.aliases);
    e := FindEntry(locate, w, id, plan.aliases[i]);
    bare, branch :| Bound(locate, w, id, e, bare, branch);
    ClosingIsRecorded(locate, w, id, plan.original.repos, e, bare, branch);
  }

  lemma {:induction false} RecordedEntriesCameBack(locate: Locator, w: State, id: string, plan: ClosePlan)
    requires Closable(locate, w, id) && ReadyToClose(locate, w, id, plan)
    ensures EntriesCameBack(locate, w, id, plan.original.repos, plan.updated.repos)
  {
    var before, after := plan.original.repos, plan.updated.repos;
    forall e, bare, branch | e in before && Bound(locate, w, id, e, bare, branch)
      ensures Recorded(locate, w, e, bare, branch).value in after
    {
      EntryIsRecorded(locate, w, id, plan, e, bare, branch);
    }
    forall r | r in after
      ensures
        exists e, bare, branch ::
          e in before && Bound(locate, w, id, e, bare, branch) && Recorded(locate, w, e, bare, branch) == Some(r)
    {
      RecordedFromEntry(locate, w, id, plan, r);
    }
  }

  lemma {:induction false} RecordedFromEntry(locate: Locator, w: State, id: string, plan: ClosePlan, r: RestoreEntry)
    requires Closable(locate, w, id) && ReadyToClose(locate, w, id, plan) && r in plan.updated.repos
    ensures
      exists e, bare, branch ::
        && e in plan.original.repos && Bound(locate, w, id, e, bare, branch)
        && Recorded(locate, w, e, bare, branch) == Some(r)
  {
    var i :| 0 <= i < |plan.updated.repos| && plan.updated.repos[i] == r;
    var e, bare, branch := RecordedHasEntry(locate, w, id, plan, i);
  }

  lemma {:induction false} MetaMoves(
    u: State, id: string, up: string -> Upstream, locate: Locator, entries: seq<RestoreEntry>, r: State, m: Meta,
    z: State)
    requires id in u.active && Recreate(u, up, locate, id, entries) == Some(r) && PutMeta(r, id, m) == Some(z)
    ensures z.archive == u.archive && SameBut(u.active, z.active, id) && id in z.active
    ensures z.active[id].files == u.active[id].files && z.active[id].repos == r.active[id].repos && z.bares == r.bares
    ensures z.active[id].meta == Some(m)
  {
    RecreateFrame(u, up, locate, id, entries);
  }

  /** Close, then reopen: repo directories with their repositories and branches, all local branches and
      worktrees, the other files, the protection and the status come back, and so does every restore entry. */
  lemma {:induction false} CloseReopenRoundTrip(
    locate: Locator, up: string -> Upstream, w: State, id: string, v: State, z: State)
    requires Closable(locate, w, id) && Closed(locate, w, id, v) && Reopened(v, up, locate, id, z)
    ensures CameBack(locate, w, id, z)
  {
    var plan :| ReadyToClose(locate, w, id, plan) && Archived(w, id, plan, v);
    ReopenCanProceed(locate, up, w, id, plan, v);
    MovedBackAfterClose(w, id, plan, v);
    var u := MoveToActive(v, id).value;
    var r := Recreate(u, up, locate, id, plan.updated.repos).value;
    var now :| PutMeta(r, id, plan.updated.(status := ACTIVE, updatedAt := now)) == Some(z);
    MetaMoves(u, id, up, locate, plan.updated.repos, r, plan.updated.(status := ACTIVE, updatedAt := now), z);
    WholeAgain(w, id, r);
    RecordedEntriesCameBack(locate, w, id, plan);
  }

  /** If the metadata agreed with the worktree, its entry keeps uid, remote, branch and base ref. */
  lemma {:induction false} AgreeingEntryKept(locate: Locator, w: State, e: RestoreEntry, bare: Path, branch: string)
    requires bare in w.bares && Recorded(locate, w, e, bare, branch).Some?
    requires e.remote == Trim(w.bares[bare].origin) && e.branch == branch && Trimmed(e.uid) && Trimmed(e.baseRef)
    ensures Recorded(locate, w, e, bare, branch).value == e.(key := Recorded(locate, w, e, bare, branch).value.key)
  {
    TrimOfTrimmed(e.uid);
    TrimOfTrimmed(e.baseRef);
  }

  /** With a worktree, close records its origin and the branch it is on ("HEAD" if on none), under the uid of
      the metadata; without a base ref there, the one of the repository. */
  lemma {:induction false} PresentEntryRecorded(
    locate: Locator, w: State, id: string, entries: seq<RestoreEntry>, i: nat, bare: Path, current: Option<string>)
    requires i < |entries| && BareOf(w, id, entries[i].alias) == Some(bare)
    requires forall k :: 0 <= k < |entries| ==> Trim(entries[k].alias) == entries[k].alias
    requires forall j, k :: 0 <= j < k < |entries| ==> entries[j].alias != entries[k].alias
    requires var b := w.bares[bare];
             && Trim(b.origin) != "" && locate(Trim(b.origin)).Some?
             && InRoot(id, entries[i].alias) in b.worktrees && b.worktrees[InRoot(id, entries[i].alias)] == current
             && (current.Some? ==> Trim(current.value) == current.value != "")
    ensures var e, b := entries[i], w.bares[bare];
            var base := if Trim(e.baseRef) != "" then Trim(e.baseRef) else b.originHead;
            ClosingEntry(locate, w, id, entries, e.alias) ==
              if base == "" then None
              else Some(RestoreEntry(
                          Trim(e.uid), locate(Trim(b.origin)).value.key, Trim(b.origin), e.alias,
                          if current.Some? then current.value else "HEAD", base))
  {
    LookupDistinct(entries, |entries|, i);
  }

  /** Without a worktree, close keeps the entry of the metadata and rewrites its key only. */
  lemma {:induction false} AbsentEntryKept(locate: Locator, w: State, id: string, entries: seq<RestoreEntry>, i: nat)
    requires i < |entries| && BareOf(w, id, entries[i].alias).None?
    requires forall k :: 0 <= k < |entries| ==> Trim(entries[k].alias) == entries[k].alias
    requires forall j, k :: 0 <= j < k < |entries| ==> entries[j].alias != entries[k].alias
    requires var e := entries[i];
             && Trimmed(e.uid) && Trimmed(e.branch) && Trimmed(e.remote) && Trimmed(e.baseRef)
             && e.remote != "" && e.baseRef != "" && locate(e.remote).Some?
    ensures var e := entries[i];
            ClosingEntry(locate, w, id, entries, e.alias) == Some(e.(key := locate(e.remote).value.key))
  {
    LookupDistinct(entries, |entries|, i);
    TrimOfTrimmed(entries[i].uid);
    TrimOfTrimmed(entries[i].branch);
    TrimOfTrimmed(entries[i].remote);
    TrimOfTrimmed(entries[i].baseRef);
  }

  // ----- The commands themselves -----

  lemma {:induction false} ClosableCanClose(locate: Locator, w: State, id: string)
    requires Closable(locate, w, id)
    ensures CanClose(locate, w, id)
  {
    BoundAliasesAreDirs(locate, w, id);
    forall a | a in BoundAliases(w, id)
      ensures ClosingEntry(locate, w, id, LoadMeta(w.active[id]).value.repos, a).Some? && Strippable(w, id, a)
    {
      ClosingRestores(locate, w, id, a);
      DirIsLinked(locate, w, id, a);
    }
  }

  lemma {:induction false} ClosedCanReopen(locate: Locator, up: string -> Upstream, w: State, id: string, v: State)
    requires Closable(locate, w, id) && Closed(locate, w, id, v)
    ensures CanReopen(v, up, locate, id)
  {
    var plan :| ReadyToClose(locate, w, id, plan) && Archived(w, id, plan, v);
    ReopenCanProceed(locate, up, w, id, plan, v);
    MovedBackAfterClose(w, id, plan, v);
  }

  /** On a disk whose calls do not fail, close and then reopen of a closable workspace both succeed, and
      everything comes back. */
  method CloseThenReopen(disk: Disk, locate: Locator, up: string -> Upstream, id: string, now: int, later: int)
    returns (closed: Outcome, reopened: Outcome)
    requires disk.Reliable() && Closable(locate, disk.state, id)
    modifies disk
    ensures closed.Ok? && reopened.Ok?
    ensures CameBack(locate, old(disk.state), id, disk.state)
    ensures disk.Onward()
  {
    ghost var w := disk.state;
    ClosableCanClose(locate, w, id);
    closed := Close(disk, locate, id, With(true, true), now);
    ghost var v := disk.state;
    ClosedCanReopen(locate, up, w, id, v);
    reopened := Reopen(disk, up, locate, id, With(true, true), later);
    CloseReopenRoundTrip(locate, up, w, id, v, disk.state);
  }
}
