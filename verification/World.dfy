/** The abstract disk shared by the workspace commands: active and archived workspace directories,
    their metadata files and repository directories, and the bare repositories of the pool.
    Git and filesystem operations are partial functions; `None` means the call is refused. */
module World {
  import opened Text
  import opened RepoSpec

  datatype RestoreEntry = RestoreEntry(uid: string, key: string, remote: string, alias: string, branch: string,
      baseRef: string)

  datatype Meta = Meta(
    id: string, title: string, sourceUrl: string, status: string, createdAt: int, updatedAt: int,
    repos: seq<RestoreEntry>, guard: Option<bool>, guardAt: int)

  /** A workspace directory: its metadata file, its other files, and the directories under repos/
      with the bare repository each is linked to (None: not a git worktree). */
  datatype Dir = Dir(meta: Option<Meta>, files: map<string, string>, repos: map<string, Option<Path>>)

  /** Where a worktree lives: workspaces/<id>/repos/<alias>, or outside the root. */
  datatype Place = InRoot(id: string, alias: string) | Elsewhere(path: string)

  /** A bare repository: origin URL, local branches and remote-tracking branches with their commits,
      the default base ref it can report, and its worktrees with the branch each has checked out. */
  datatype Bare = Bare(
    origin: string, branches: map<string, string>, remotes: map<string, string>, originHead: string,
    worktrees: map<Place, Option<string>>)

  datatype State = State(active: map<string, Dir>, archive: map<string, Dir>, bares: map<Path, Bare>)

  const ACTIVE := "active"
  const ARCHIVED := "archived"

  /** loadWorkspaceMetaFile: a metadata file without an id is rejected. */
  function LoadMeta(d: Dir): Option<Meta> {
    if d.meta.Some? && Trim(d.meta.value.id) != "" then d.meta else None
  }

  /** workspaceMetaPurgeGuardEnabled: absent means enabled. */
  predicate GuardEnabled(m: Meta) {
    m.guard.None? || m.guard.value
  }

  function NewMeta(id: string, title: string, sourceUrl: string, now: int): Meta {
    Meta(id, title, sourceUrl, ACTIVE, now, now, [], Some(true), now)
  }

  function SetGuard(m: Meta, enabled: bool, now: int): Meta {
    m.(guard := Some(enabled), guardAt := if now > 0 then now else m.guardAt)
  }

  // ----- Git operations -----

  predicate CheckedOut(b: Bare, branch: string) {
    exists p :: p in b.worktrees && b.worktrees[p] == Some(branch)
  }

  /** git branch <branch> origin/<from>. */
  function AddBranch(w: State, bare: Path, branch: string, from: string): Option<State> {
    if bare in w.bares && branch !in w.bares[bare].branches && from in w.bares[bare].remotes then
      var b := w.bares[bare];
      Some(w.(bares := w.bares[bare := b.(branches := b.branches[branch := b.remotes[from]])]))
    else None
  }

  /** git branch -D: refused while a worktree has the branch checked out. */
  function DeleteBranch(w: State, bare: Path, branch: string): Option<State> {
    if bare in w.bares && branch in w.bares[bare].branches && !CheckedOut(w.bares[bare], branch) then
      var b := w.bares[bare];
      Some(w.(bares := w.bares[bare := b.(branches := b.branches - {branch})]))
    else None
  }

  /** git worktree add workspaces/<id>/repos/<alias> <branch>. */
  function AddWorktree(w: State, bare: Path, id: string, alias: string, branch: string): Option<State> {
    if && bare in w.bares && id in w.active && alias !in w.active[id].repos
       && branch in w.bares[bare].branches && InRoot(id, alias) !in w.bares[bare].worktrees
       && !CheckedOut(w.bares[bare], branch)
    then
      var b, d := w.bares[bare], w.active[id];
      Some(w.(
        bares := w.bares[bare := b.(worktrees := b.worktrees[InRoot(id, alias) := Some(branch)])],
        active := w.active[id := d.(repos := d.repos[alias := Some(bare)])]))
    else None
  }

  function DeleteRepoDir(w: State, id: string, alias: string): State {
    if id in w.active then
      var d := w.active[id];
      w.(active := w.active[id := d.(repos := d.repos - {alias})])
    else w
  }

  /** git worktree remove --force workspaces/<id>/repos/<alias>. */
  function RemoveWorktree(w: State, bare: Path, id: string, alias: string): Option<State> {
    if bare in w.bares && InRoot(id, alias) in w.bares[bare].worktrees then
      var b := w.bares[bare];
      Some(DeleteRepoDir(w.(bares := w.bares[bare := b.(worktrees := b.worktrees - {InRoot(id, alias)})]), id, alias))
    else None
  }

  /** Git keeps a worktree on a branch only while that branch exists. */
  ghost predicate NoUnbornWorktrees(w: State) {
    forall b, p :: b in w.bares && p in w.bares[b].worktrees && w.bares[b].worktrees[p].Some? ==>
      w.bares[b].worktrees[p].value in w.bares[b].branches
  }

  // ----- Undoing -----

  lemma {:induction false} DeleteUndoesAddBranch(w: State, bare: Path, branch: string, from: string)
    requires AddBranch(w, bare, branch, from).Some? && NoUnbornWorktrees(w)
    ensures DeleteBranch(AddBranch(w, bare, branch, from).value, bare, branch) == Some(w)
    ensures NoUnbornWorktrees(AddBranch(w, bare, branch, from).value)
  {
    var v := AddBranch(w, bare, branch, from).value;
    var b := w.bares[bare];
    assert v.bares[bare].branches - {branch} == b.branches;
    assert b.(branches := b.branches) == b;
    assert DeleteBranch(v, bare, branch).value.bares == w.bares;
  }

  lemma {:induction false} RemoveUndoesAddWorktree(w: State, bare: Path, id: string, alias: string, branch: string)
    requires AddWorktree(w, bare, id, alias, branch).Some?
    ensures RemoveWorktree(AddWorktree(w, bare, id, alias, branch).value, bare, id, alias) == Some(w)
    ensures DeleteRepoDir(w, id, alias) == w
    ensures NoUnbornWorktrees(w) ==> NoUnbornWorktrees(AddWorktree(w, bare, id, alias, branch).value)
  {
    var v := AddWorktree(w, bare, id, alias, branch).value;
    var b, d := w.bares[bare], w.active[id];
    assert v.bares[bare].worktrees - {InRoot(id, alias)} == b.worktrees;
    assert v.active[id].repos - {alias} == d.repos == d.repos - {alias};
    var u := RemoveWorktree(v, bare, id, alias).value;
    assert u.bares == w.bares;
    assert u.active == w.active;
    assert DeleteRepoDir(w, id, alias).active == w.active;
  }

  // ----- Metadata writes and failing calls -----

  function PutMeta(w: State, id: string, m: Meta): Option<State> {
    if id in w.active then Some(w.(active := w.active[id := w.active[id].(meta := Some(m))])) else None
  }

  /** The disk as a command uses it: every effectful call may fail without effect. Commands make some of
      their calls to undo earlier ones; how many of these have failed is kept apart. */
  class Disk {
    var state: State
    var calls: nat
    ghost var lost: nat
    const fails: nat -> bool

    constructor (state: State, fails: nat -> bool)
      ensures this.state == state && this.fails == fails && calls == 0 && lost == 0
    {
      this.state, this.fails, calls, lost := state, fails, 0, 0;
    }

    /** One call that would lead to `next`, unless it is refused or fails. */
    method Try(next: Option<State>) returns (ok: bool)
      modifies this
      ensures calls == old(calls) + 1 && lost == old(lost)
      ensures ok <==> !fails(old(calls)) && next.Some?
      ensures state == if ok then next.value else old(state)
    {
      ok := !fails(calls) && next.Some?;
      calls := calls + 1;
      if ok {
        state := next.value;
      }
    }

    /** One call that undoes an earlier one. */
    method Undo(next: Option<State>) returns (ok: bool)
      modifies this
      ensures calls == old(calls) + 1 && lost == old(lost) + (if fails(old(calls)) then 1 else 0)
      ensures ok <==> !fails(old(calls)) && next.Some?
      ensures state == if ok then next.value else old(state)
    {
      if fails(calls) {
        lost := lost + 1;
      }
      ok := Try(next);
    }

    /** Calls are only added, and none of them was lost if none could fail. */
    twostate predicate Onward()
      reads this
    {
      calls >= old(calls) && lost >= old(lost) && (old(Reliable()) ==> lost == old(lost))
    }

    /** No call fails from here on. */
    ghost predicate Reliable()
      reads this
    {
      forall n :: calls <= n ==> !fails(n)
    }

    /** At most one of the calls from here on fails. */
    ghost predicate FailsAtMostOnce()
      reads this
    {
      forall m, n :: calls <= m < n ==> !fails(m) || !fails(n)
    }
  }
}
