/** Adding repositories to a workspace as one transaction (internal/cli/ws_add_repo.go) and the
    metadata merge that completes it (internal/cli/ws_meta_json.go). */
module AddRepo {
  import opened Text
  import opened Sorting
  import opened RepoSpec
  import opened World

  datatype PlanItem = PlanItem(
    uid: string, key: string, remote: string, alias: string, bare: Path, branch: string,
    baseRefInput: string, defaultBaseRef: string,
    baseRefUsed: string, localExists: bool, remoteExists: bool)

  datatype Applied = Applied(item: PlanItem, createdBranch: bool, createdWorktree: bool)

  // ----- Preflight -----

  const ORIGIN := "origin/"

  /** Aliases a workspace already uses: its directories and its restore entries. */
  function BoundAliases(w: State, id: string): set<string> {
    if id !in w.active then {}
    else
      var d := w.active[id];
      var entries := if LoadMeta(d).Some? then LoadMeta(d).value.repos else [];
      (set a | a in d.repos && Trim(a) != "") + (set i | 0 <= i < |entries|
          && Trim(entries[i].alias) != "" :: Trim(entries[i].alias))
  }

  function BaseRef(p: PlanItem): string {
    if Trim(p.baseRefInput) != "" then Trim(p.baseRefInput) else Trim(p.defaultBaseRef)
  }

  function Filled(w: State, p: PlanItem): PlanItem {
    if p.bare !in w.bares then p
    else p.(baseRefUsed := BaseRef(p),
       localExists := p.branch in w.bares[p.bare].branches,
       remoteExists := p.branch in w.bares[p.bare].remotes)
  }

  function FillAll(w: State, plan: seq<PlanItem>): (r: seq<PlanItem>)
    ensures |r| == |plan| && forall i :: 0 <= i < |plan| ==> r[i] == Filled(w, plan[i])
  {
    seq(|plan|, i requires 0 <= i < |plan| => Filled(w, plan[i]))
  }

  /** One item can be checked out: its directory is free, its base ref exists, its branch is not in use. */
  predicate Usable(w: State, id: string, p: PlanItem) {
    && p.alias != ""
    && (id in w.active ==> p.alias !in w.active[id].repos)
    && ORIGIN <= BaseRef(p)
    && p.bare in w.bares && BaseRef(p)[|ORIGIN|..] in w.bares[p.bare].remotes
    && (p.branch in w.bares[p.bare].branches ==> !CheckedOut(w.bares[p.bare], p.branch))
  }

  /** What a plan must satisfy to be applied. */
  ghost predicate PlanOk(w: State, id: string, plan: seq<PlanItem>) {
    && plan != []
    && (forall i :: 0 <= i < |plan| ==> Usable(w, id, plan[i]) && plan[i].alias !in BoundAliases(w, id))
    && (forall i, j :: 0 <= i < j < |plan| ==> plan[i].alias != plan[j].alias)
  }

  method CheckItem(w: State, id: string, taken: set<string>, p: PlanItem) returns (r: Option<PlanItem>)
    ensures r.Some? <==> p.alias !in taken && Usable(w, id, p)
    ensures r.Some? ==> r.value == Filled(w, p)
  {
    if p.alias == "" || p.alias in taken {
      return None;
    }
    if id in w.active && p.alias in w.active[id].repos {
      return None;
    }
    var base := Trim(p.baseRefInput);
    if base == "" {
      base := Trim(p.defaultBaseRef);
    }
    if base == "" || !(ORIGIN <= base) || p.bare !in w.bares || base[|ORIGIN|..] !in w.bares[p.bare].remotes {
      return None;
    }
    var local := p.branch in w.bares[p.bare].branches;
    if local && CheckedOut(w.bares[p.bare], p.branch) {
      return None;
    }
    return Some(p.(baseRefUsed := base, localExists := local, remoteExists := p.branch in w.bares[p.bare].remotes));
  }

  function AliasesBefore(plan: seq<PlanItem>, n: nat): set<string>
    requires n <= |plan|
  {
    if n == 0 then {} else AliasesBefore(plan, n - 1) + {plan[n - 1].alias}
  }

  lemma {:induction false} AliasesBeforeMembers(plan: seq<PlanItem>, n: nat)
    requires n <= |plan|
    ensures forall x :: x in AliasesBefore(plan, n) <==> exists k :: 0 <= k < n && plan[k].alias == x
  {
    if n > 0 { AliasesBeforeMembers(plan, n - 1); }
  }

  /** The first n items pass, each against the aliases taken before it. */
  predicate Passed(usable: PlanItem -> bool, bound: set<string>, plan: seq<PlanItem>, n: nat)
    requires n <= |plan|
  {
    n == 0 || (
      && Passed(usable, bound, plan, n - 1)
      && plan[n - 1].alias !in bound + AliasesBefore(plan, n - 1)
      && usable(plan[n - 1]))
  }

  lemma {:induction false} PassedPrefix(
    usable: PlanItem -> bool, bound: set<string>, plan: seq<PlanItem>, k: nat, n: nat)
    requires k <= n <= |plan| && Passed(usable, bound, plan, n)
    ensures Passed(usable, bound, plan, k)
  {
    if k < n { PassedPrefix(usable, bound, plan, k, n - 1); }
  }

  lemma {:induction false} NotPassed(usable: PlanItem -> bool, bound: set<string>, plan: seq<PlanItem>, k: nat)
    requires k <= |plan| && !Passed(usable, bound, plan, k)
    ensures !Passed(usable, bound, plan, |plan|)
  {
    if Passed(usable, bound, plan, |plan|) { PassedPrefix(usable, bound, plan, k, |plan|); }
  }

  lemma {:induction false} PassedNext(usable: PlanItem -> bool, bound: set<string>, plan: seq<PlanItem>, i: nat)
    requires i < |plan| && Passed(usable, bound, plan, i)
    ensures Passed(usable, bound, plan, i + 1) <==>
              plan[i].alias !in bound + AliasesBefore(plan, i) && usable(plan[i])
    ensures AliasesBefore(plan, i + 1) == AliasesBefore(plan, i) + {plan[i].alias}
  {
  }

  lemma {:induction false} PassedMeans(usable: PlanItem -> bool, bound: set<string>, plan: seq<PlanItem>, n: nat)
    requires n <= |plan|
    ensures Passed(usable, bound, plan, n) <==>
              && (forall i :: 0 <= i < n ==> usable(plan[i]) && plan[i].alias !in bound)
              && (forall i, j :: 0 <= i < j < n ==> plan[i].alias != plan[j].alias)
  {
    if n > 0 {
      PassedMeans(usable, bound, plan, n - 1);
      AliasesBeforeMembers(plan, n - 1);
    }
  }

  /** The checks before anything is touched: they pass exactly for a plan whose items are usable
      and whose aliases are new and distinct, and they fill in what was found. */
  method Preflight(w: State, id: string, plan: seq<PlanItem>) returns (r: Option<seq<PlanItem>>)
    ensures r.Some? <==> PlanOk(w, id, plan)
    ensures r.Some? ==> r.value == FillAll(w, plan)
  {
    if |plan| == 0 {
      return None;
    }
    var bound := BoundAliases(w, id);
    r := CheckItems(w, id, bound, plan);
    PassedMeans(p => Usable(w, id, p), bound, plan, |plan|);
  }

  method CheckItems(w: State, id: string, bound: set<string>, plan: seq<PlanItem>) returns (r: Option<seq<PlanItem>>)
    ensures r.Some? <==> Passed(p => Usable(w, id, p), bound, plan, |plan|)
    ensures r.Some? ==> r.value == FillAll(w, plan)
  {
    var taken := bound;
    var filled := [];
    ghost var all := FillAll(w, plan);
    ghost var usable := (p: PlanItem) => Usable(w, id, p);
    for i := 0 to |plan|
      invariant Passed(usable, bound, plan, i)
      invariant filled == all[..i]
      invariant taken == bound + AliasesBefore(plan, i)
    {
      assert all[..i + 1] == all[..i] + [all[i]];
      PassedNext(usable, bound, plan, i);
      var item := CheckItem(w, id, taken, plan[i]);
      assert item.Some? <==> Passed(usable, bound, plan, i + 1);
      if item.None? {
        NotPassed(usable, bound, plan, i + 1);
        return None;
      }
      taken := taken + {plan[i].alias};
      filled := filled + [item.value];
    }
    assert filled == all;
    return Some(filled);
  }

  // ----- Apply and roll back -----

  /** The start point of a new branch: its remote counterpart if there is one, else the base ref. */
  function StartPoint(p: PlanItem): string {
    if p.remoteExists then p.branch
    else if ORIGIN <= p.baseRefUsed then p.baseRefUsed[|ORIGIN|..] else p.baseRefUsed
  }

  function WithBranch(w: State, a: Applied): Option<State> {
    if a.createdBranch then AddBranch(w, a.item.bare, a.item.branch, StartPoint(a.item)) else Some(w)
  }

  function WithWorktree(w: State, id: string, a: Applied): Option<State> {
    if a.createdWorktree then AddWorktree(w, a.item.bare, id, a.item.alias, a.item.branch) else Some(w)
  }

  function WithItem(w: State, id: string, a: Applied): Option<State> {
    match WithBranch(w, a)
    case None => None
    case Some(v) => WithWorktree(v, id, a)
  }

  /** The state after the first n recorded items took effect in order. */
  function Built(w: State, id: string, applied: seq<Applied>, n: nat): Option<State>
    requires n <= |applied|
  {
    if n == 0 then Some(w)
    else
      match Built(w, id, applied, n - 1)
      case None => None
      case Some(v) => WithItem(v, id, applied[n - 1])
  }

  function Full(p: PlanItem): Applied {
    Applied(p, !p.localExists, true)
  }

  function FullPlan(plan: seq<PlanItem>): (r: seq<Applied>)
    ensures |r| == |plan| && forall i :: 0 <= i < |plan| ==> r[i] == Full(plan[i])
  {
    seq(|plan|, i requires 0 <= i < |plan| => Full(plan[i]))
  }

  /** Nothing of `w` is missing from `v`, and only branches, worktrees and repo directories were added. */
  ghost predicate Keeps(w: State, v: State) {
    && v.archive == w.archive && v.bares.Keys == w.bares.Keys && v.active.Keys == w.active.Keys
    && (forall b :: b in w.bares ==> KeepsBare(w.bares[b], v.bares[b]))
    && (forall id :: id in w.active ==> KeepsDir(w.active[id], v.active[id]))
  }

  ghost predicate KeepsBare(b: Bare, c: Bare) {
    && c.origin == b.origin && c.remotes == b.remotes && c.originHead == b.originHead
    && (forall x :: x in b.branches ==> x in c.branches && c.branches[x] == b.branches[x])
    && (forall p :: p in b.worktrees ==> p in c.worktrees && c.worktrees[p] == b.worktrees[p])
  }

  ghost predicate KeepsDir(d: Dir, e: Dir) {
    && e.meta == d.meta && e.files == d.files
    && (forall a :: a in d.repos ==> a in e.repos && e.repos[a] == d.repos[a])
  }

  lemma {:induction false} KeepsTransitive(u: State, v: State, w: State)
    requires Keeps(u, v) && Keeps(v, w)
    ensures Keeps(u, w)
  {
    forall b | b in u.bares ensures KeepsBare(u.bares[b], w.bares[b]) {
      assert KeepsBare(u.bares[b], v.bares[b]) && KeepsBare(v.bares[b], w.bares[b]);
    }
    forall id | id in u.active ensures KeepsDir(u.active[id], w.active[id]) {
      assert KeepsDir(u.active[id], v.active[id]) && KeepsDir(v.active[id], w.active[id]);
    }
  }

  lemma {:induction false} AddBranchKeeps(w: State, bare: Path, branch: string, from: string)
    ensures AddBranch(w, bare, branch, from).Some? ==> Keeps(w, AddBranch(w, bare, branch, from).value)
  {
    if AddBranch(w, bare, branch, from).Some? {
      var v := AddBranch(w, bare, branch, from).value;
      assert KeepsBare(w.bares[bare], v.bares[bare]);
    }
  }

  lemma {:induction false} AddWorktreeKeeps(w: State, bare: Path, id: string, alias: string, branch: string)
    ensures AddWorktree(w, bare, id, alias, branch).Some? ==> Keeps(w, AddWorktree(w, bare, id, alias, branch).value)
  {
    if AddWorktree(w, bare, id, alias, branch).Some? {
      var v := AddWorktree(w, bare, id, alias, branch).value;
      assert KeepsBare(w.bares[bare], v.bares[bare]);
      assert KeepsDir(w.active[id], v.active[id]);
    }
  }

  lemma {:induction false} WithItemKeeps(w: State, id: string, a: Applied)
    ensures WithBranch(w, a).Some? ==> Keeps(w, WithBranch(w, a).value)
    ensures WithItem(w, id, a).Some? ==> Keeps(w, WithItem(w, id, a).value)
  {
    AddBranchKeeps(w, a.item.bare, a.item.branch, StartPoint(a.item));
    if WithItem(w, id, a).Some? {
      var v := WithBranch(w, a).value;
      AddWorktreeKeeps(v, a.item.bare, id, a.item.alias, a.item.branch);
      KeepsTransitive(w, v, WithItem(w, id, a).value);
    }
  }

  lemma {:induction false} BuiltKeepsFrom(w: State, id: string, applied: seq<Applied>, k: nat, n: nat)
    requires k <= n <= |applied| && Built(w, id, applied, n).Some?
    ensures Built(w, id, applied, k).Some?
    ensures Keeps(Built(w, id, applied, k).value, Built(w, id, applied, n).value)
  {
    if k < n {
      BuiltKeepsFrom(w, id, applied, k, n - 1);
      var v := Built(w, id, applied, n - 1).value;
      WithItemKeeps(v, id, applied[n - 1]);
      KeepsTransitive(Built(w, id, applied, k).value, v, Built(w, id, applied, n).value);
    }
  }

  lemma {:induction false} BuiltKeeps(w: State, id: string, applied: seq<Applied>, n: nat)
    requires n <= |applied|
    ensures Built(w, id, applied, n).Some? ==> Keeps(w, Built(w, id, applied, n).value)
  {
    if Built(w, id, applied, n).Some? { BuiltKeepsFrom(w, id, applied, 0, n); }
  }

  lemma {:induction false} BuiltPrefix(w: State, id: string, applied: seq<Applied>, k: nat, n: nat)
    requires k <= n <= |applied| && Built(w, id, applied, n).Some?
    ensures Built(w, id, applied, k).Some?
  {
    if k < n { BuiltPrefix(w, id, applied, k, n - 1); }
  }

  lemma {:induction false} BuiltNext(w: State, id: string, applied: seq<Applied>, n: nat, v: State, a: Applied)
    requires n < |applied| && Built(w, id, applied, n) == Some(v) && applied[n] == a
    ensures Built(w, id, applied, n + 1) == WithItem(v, id, a)
  {
  }

  lemma {:induction false} BuiltAgrees(w: State, id: string, s: seq<Applied>, t: seq<Applied>, n: nat)
    requires n <= |s| && n <= |t| && forall k :: 0 <= k < n ==> s[k] == t[k]
    ensures Built(w, id, s, n) == Built(w, id, t, n)
  {
    if n > 0 { BuiltAgrees(w, id, s, t, n - 1); }
  }

  // ----- What a plan leaves -----

  /** The branch that a base ref names on the remote. */
  function BaseBranch(ref: string): string {
    if ORIGIN <= ref then ref[|ORIGIN|..] else ref
  }

  /** The item's worktree is on its branch. */
  ghost predicate OnBranch(id: string, p: PlanItem, v: State) {
    && p.bare in v.bares && p.branch in v.bares[p.bare].branches
    && InRoot(id, p.alias) in v.bares[p.bare].worktrees
    && v.bares[p.bare].worktrees[InRoot(id, p.alias)] == Some(p.branch)
    && id in v.active && p.alias in v.active[id].repos && v.active[id].repos[p.alias] == Some(p.bare)
  }

  /** A branch planned as new was not there, and now is at its remote counterpart if there is one, else at the
      base ref. */
  ghost predicate StartsWhere(b: Bare, p: PlanItem, commit: string) {
    && p.branch !in b.branches
    && var from := if p.remoteExists then p.branch else BaseBranch(p.baseRefUsed);
       from in b.remotes && commit == b.remotes[from]
  }

  ghost predicate InPlace(w: State, id: string, p: PlanItem, v: State) {
    && OnBranch(id, p, v) && p.bare in w.bares
    && (!p.localExists ==> StartsWhere(w.bares[p.bare], p, v.bares[p.bare].branches[p.branch]))
  }

  /** Branches and worktrees that were there are as they were, and every further one is that of an item. */
  ghost predicate OnlyItems(w: State, id: string, items: seq<PlanItem>, v: State) {
    && v.bares.Keys == w.bares.Keys
    && forall bare :: bare in w.bares ==>
         KeepsBare(w.bares[bare], v.bares[bare]) && OnlyItemsIn(w.bares[bare], id, items, bare, v.bares[bare])
  }

  ghost predicate OnlyItemsIn(b: Bare, id: string, items: seq<PlanItem>, bare: Path, c: Bare) {
    && (forall x :: x in c.branches && x !in b.branches ==>
          exists i :: 0 <= i < |items| && items[i].bare == bare && items[i].branch == x)
    && (forall x :: x in c.worktrees && x !in b.worktrees ==>
          exists i :: 0 <= i < |items| && items[i].bare == bare && x == InRoot(id, items[i].alias))
  }

  /** The state before and after the k-th item. */
  lemma {:induction false} BuiltAt(
    w: State, id: string, applied: seq<Applied>, k: nat) returns (before: State, after: State)
    requires k < |applied| && Built(w, id, applied, |applied|).Some?
    ensures Built(w, id, applied, k) == Some(before) && Built(w, id, applied, k + 1) == Some(after)
    ensures WithItem(before, id, applied[k]) == Some(after)
  {
    BuiltPrefix(w, id, applied, k, |applied|);
    BuiltPrefix(w, id, applied, k + 1, |applied|);
    before, after := Built(w, id, applied, k).value, Built(w, id, applied, k + 1).value;
    BuiltNext(w, id, applied, k, before, applied[k]);
  }

  lemma {:induction false} ItemInPlace(w: State, id: string, p: PlanItem)
    requires WithItem(w, id, Full(p)).Some?
    ensures InPlace(w, id, p, WithItem(w, id, Full(p)).value)
  {
  }

  lemma {:induction false} StaysInPlace(u: State, w: State, id: string, p: PlanItem, v: State, x: State)
    requires Keeps(u, w) && InPlace(w, id, p, v) && Keeps(v, x)
    ensures InPlace(u, id, p, x)
  {
    assert KeepsBare(u.bares[p.bare], w.bares[p.bare]) && KeepsBare(v.bares[p.bare], x.bares[p.bare]);
    assert KeepsDir(v.active[id], x.active[id]);
  }

  lemma {:induction false} ItemStaysInPlace(u: State, w: State, id: string, p: PlanItem, v: State, x: State)
    requires Keeps(u, w) && WithItem(w, id, Full(p)) == Some(v) && Keeps(v, x)
    ensures InPlace(u, id, p, x)
  {
    ItemInPlace(w, id, p);
    StaysInPlace(u, w, id, p, v, x);
  }

  lemma {:induction false} BuiltAround(w: State, id: string, applied: seq<Applied>, k: nat, v: State)
    returns (before: State, after: State)
    requires k < |applied| && Built(w, id, applied, |applied|) == Some(v)
    ensures Keeps(w, before) && WithItem(before, id, applied[k]) == Some(after) && Keeps(after, v)
  {
    before, after := BuiltAt(w, id, applied, k);
    BuiltKeepsFrom(w, id, applied, 0, k);
    BuiltKeepsFrom(w, id, applied, k + 1, |applied|);
  }

  lemma {:induction false} BuiltInPlace(w: State, id: string, plan: seq<PlanItem>, k: nat, v: State)
    requires k < |plan| && Built(w, id, FullPlan(plan), |plan|) == Some(v)
    ensures InPlace(w, id, plan[k], v)
  {
    var before, after := BuiltAround(w, id, FullPlan(plan), k, v);
    ItemStaysInPlace(w, before, id, plan[k], after, v);
  }

  lemma {:induction false} ItemAddsItsOwn(w: State, id: string, a: Applied)
    requires WithItem(w, id, a).Some?
    ensures OnlyItems(w, id, [a.item], WithItem(w, id, a).value)
  {
    WithItemKeeps(w, id, a);
    forall bare | bare in w.bares
      ensures OnlyItemsIn(w.bares[bare], id, [a.item], bare, WithItem(w, id, a).value.bares[bare])
    {
      ItemAddsOnlyIn(w, id, a, bare);
    }
  }

  lemma {:induction false} ItemAddsOnlyIn(w: State, id: string, a: Applied, bare: Path)
    requires WithItem(w, id, a).Some? && bare in w.bares
    ensures bare in WithItem(w, id, a).value.bares
    ensures OnlyItemsIn(w.bares[bare], id, [a.item], bare, WithItem(w, id, a).value.bares[bare])
  {
    assert [a.item][0] == a.item;
  }

  lemma {:induction false} OnlyItemsTransitive(
    u: State, v: State, w: State, id: string, items: seq<PlanItem>, p: PlanItem)
    requires OnlyItems(u, id, items, v) && OnlyItems(v, id, [p], w)
    ensures OnlyItems(u, id, items + [p], w)
  {
    forall bare | bare in u.bares
      ensures KeepsBare(u.bares[bare], w.bares[bare])
      ensures OnlyItemsIn(u.bares[bare], id, items + [p], bare, w.bares[bare])
    {
      OnlyItemsInTransitive(u.bares[bare], v.bares[bare], w.bares[bare], id, bare, items, p);
    }
  }

  lemma {:induction false} OnlyItemsInTransitive(
    b: Bare, c: Bare, d: Bare, id: string, bare: Path, items: seq<PlanItem>, p: PlanItem)
    requires KeepsBare(b, c) && OnlyItemsIn(b, id, items, bare, c)
    requires KeepsBare(c, d) && OnlyItemsIn(c, id, [p], bare, d)
    ensures KeepsBare(b, d) && OnlyItemsIn(b, id, items + [p], bare, d)
  {
    var all := items + [p];
    assert all[|items|] == p;
    assert forall i :: 0 <= i < |items| ==> all[i] == items[i];
    forall x | x in d.branches && x !in b.branches
      ensures exists i :: 0 <= i < |all| && all[i].bare == bare && all[i].branch == x
    {
      if x in c.branches {
        var i :| 0 <= i < |items| && items[i].bare == bare && items[i].branch == x;
        assert all[i] == items[i];
      }
    }
    forall x | x in d.worktrees && x !in b.worktrees
      ensures exists i :: 0 <= i < |all| && all[i].bare == bare && x == InRoot(id, all[i].alias)
    {
      if x in c.worktrees {
        var i :| 0 <= i < |items| && items[i].bare == bare && x == InRoot(id, items[i].alias);
        assert all[i] == items[i];
      }
    }
  }

  lemma {:induction false} NextItemOnly(u: State, v: State, id: string, plan: seq<PlanItem>, i: nat)
    requires i < |plan| && OnlyItems(u, id, plan[..i], v) && WithItem(v, id, Full(plan[i])).Some?
    ensures OnlyItems(u, id, plan[..i + 1], WithItem(v, id, Full(plan[i])).value)
  {
    assert plan[..i + 1] == plan[..i] + [plan[i]];
    ItemAddsItsOwn(v, id, Full(plan[i]));
    OnlyItemsTransitive(u, v, WithItem(v, id, Full(plan[i])).value, id, plan[..i], plan[i]);
  }

  /** What holds at the start and passes from each item to the next holds of what was built. */
  lemma {:induction false} BuiltReaches(
    w: State, id: string, applied: seq<Applied>, n: nat, holds: (nat, State) -> bool)
    requires n <= |applied| && Built(w, id, applied, n).Some? && holds(0, w)
    requires forall v, i: nat :: i < |applied| && holds(i, v) && WithItem(v, id, applied[i]).Some? ==>
        holds(i + 1, WithItem(v, id, applied[i]).value)
    ensures holds(n, Built(w, id, applied, n).value)
  {
    if n > 0 {
      BuiltPrefix(w, id, applied, n - 1, n);
      BuiltReaches(w, id, applied, n - 1, holds);
      BuiltNext(w, id, applied, n - 1, Built(w, id, applied, n - 1).value, applied[n - 1]);
    }
  }

  lemma {:induction false} BuiltOnlyItems(w: State, id: string, plan: seq<PlanItem>)
    requires Built(w, id, FullPlan(plan), |plan|).Some?
    ensures OnlyItems(w, id, plan, Built(w, id, FullPlan(plan), |plan|).value)
  {
    var applied := FullPlan(plan);
    var holds := (n: nat, v: State) => n <= |plan| && OnlyItems(w, id, plan[..n], v);
    NothingAdded(w, id);
    assert plan[..0] == [];
    forall v, i: nat | i < |applied| && holds(i, v) && WithItem(v, id, applied[i]).Some?
      ensures holds(i + 1, WithItem(v, id, applied[i]).value)
    {
      NextItemOnly(w, v, id, plan, i);
    }
    BuiltReaches(w, id, applied, |plan|, holds);
    assert plan[..|plan|] == plan;
  }

  lemma {:induction false} NothingAdded(w: State, id: string)
    ensures OnlyItems(w, id, [], w)
  {
  }

  /** A plan that took effect: every item is in place and nothing else was added. */
  lemma {:induction false} BuiltMeans(w: State, id: string, plan: seq<PlanItem>)
    requires Built(w, id, FullPlan(plan), |plan|).Some?
    ensures var v := Built(w, id, FullPlan(plan), |plan|).value;
            && Keeps(w, v) && OnlyItems(w, id, plan, v)
            && forall k :: 0 <= k < |plan| ==> InPlace(w, id, plan[k], v)
  {
    BuiltKeeps(w, id, FullPlan(plan), |plan|);
    BuiltOnlyItems(w, id, plan);
    forall k | 0 <= k < |plan|
      ensures InPlace(w, id, plan[k], Built(w, id, FullPlan(plan), |plan|).value)
    {
      BuiltInPlace(w, id, plan, k, Built(w, id, FullPlan(plan), |plan|).value);
    }
  }

  /** What the run created was not there before it. */
  ghost predicate Ours(w: State, id: string, a: Applied) {
    && a.item.bare in w.bares
    && (a.createdBranch ==> a.item.branch !in w.bares[a.item.bare].branches)
    && (a.createdWorktree ==>
          && InRoot(id, a.item.alias) !in w.bares[a.item.bare].worktrees
          && (id in w.active ==> a.item.alias !in w.active[id].repos))
  }

  lemma {:induction false} BuiltOurs(w: State, id: string, applied: seq<Applied>, n: nat)
    requires n < |applied| && Built(w, id, applied, n + 1).Some?
    requires applied[n].createdBranch || applied[n].createdWorktree
    ensures Ours(w, id, applied[n])
  {
    BuiltKeeps(w, id, applied, n);
    var v := Built(w, id, applied, n).value;
    var a := applied[n];
    WithItemKeeps(v, id, a);
    var u := WithBranch(v, a).value;
    assert a.item.bare in w.bares;
    assert KeepsBare(w.bares[a.item.bare], v.bares[a.item.bare])
        && KeepsBare(v.bares[a.item.bare], u.bares[a.item.bare]);
    if a.createdWorktree && id in w.active {
      assert KeepsDir(w.active[id], v.active[id]) && KeepsDir(v.active[id], u.active[id]);
    }
  }

  lemma {:induction false} DeleteDirKeeps(w: State, v: State, id: string, alias: string)
    requires Keeps(w, v) && (id in w.active ==> alias !in w.active[id].repos)
    ensures Keeps(w, DeleteRepoDir(v, id, alias))
  {
    if id in w.active {
      assert KeepsDir(w.active[id], v.active[id]);
      assert KeepsDir(w.active[id], DeleteRepoDir(v, id, alias).active[id]);
    }
  }

  lemma {:induction false} RemoveWorktreeKeeps(w: State, v: State, bare: Path, id: string, alias: string)
    requires Keeps(w, v) && RemoveWorktree(v, bare, id, alias).Some?
    requires InRoot(id, alias) !in w.bares[bare].worktrees && (id in w.active ==> alias !in w.active[id].repos)
    ensures Keeps(w, RemoveWorktree(v, bare, id, alias).value)
  {
    var b := v.bares[bare];
    var c := b.(worktrees := b.worktrees - {InRoot(id, alias)});
    assert KeepsBare(w.bares[bare], b);
    assert KeepsBare(w.bares[bare], c);
    DeleteDirKeeps(w, v.(bares := v.bares[bare := c]), id, alias);
  }

  lemma {:induction false} DeleteBranchKeeps(w: State, v: State, bare: Path, branch: string)
    requires Keeps(w, v) && DeleteBranch(v, bare, branch).Some? && branch !in w.bares[bare].branches
    ensures Keeps(w, DeleteBranch(v, bare, branch).value)
  {
    assert KeepsBare(w.bares[bare], v.bares[bare]);
    assert KeepsBare(w.bares[bare], DeleteBranch(v, bare, branch).value.bares[bare]);
  }

  /** Taking away what the run created leaves everything that was there before. */
  lemma {:induction false} RemovalsKeep(w: State, v: State, id: string, a: Applied)
    requires Keeps(w, v) && Ours(w, id, a)
    ensures a.createdWorktree ==> Keeps(w, DeleteRepoDir(v, id, a.item.alias))
    ensures a.createdWorktree && RemoveWorktree(v, a.item.bare, id, a.item.alias).Some? ==>
              Keeps(w, RemoveWorktree(v, a.item.bare, id, a.item.alias).value)
    ensures a.createdBranch && DeleteBranch(v, a.item.bare, a.item.branch).Some? ==>
              Keeps(w, DeleteBranch(v, a.item.bare, a.item.branch).value)
  {
    if a.createdWorktree {
      DeleteDirKeeps(w, v, id, a.item.alias);
      if RemoveWorktree(v, a.item.bare, id, a.item.alias).Some? {
        RemoveWorktreeKeeps(w, v, a.item.bare, id, a.item.alias);
      }
    }
    if a.createdBranch && DeleteBranch(v, a.item.bare, a.item.branch).Some? {
      DeleteBranchKeeps(w, v, a.item.bare, a.item.branch);
    }
  }

  /** Removing worktree and branch of the last item gives back the state before it, and git does not refuse. */
  lemma {:induction false} UndoItem(w: State, id: string, a: Applied)
    requires WithItem(w, id, a).Some?
    ensures var v := WithItem(w, id, a).value;
            var u := WithBranch(w, a).value;
            && (a.createdWorktree ==>
                  && RemoveWorktree(v, a.item.bare, id, a.item.alias) == Some(u)
                  && DeleteRepoDir(u, id, a.item.alias) == u)
            && (!a.createdWorktree ==> v == u)
            && (a.createdBranch && DeleteBranch(u, a.item.bare, a.item.branch).Some? ==>
                  DeleteBranch(u, a.item.bare, a.item.branch).value == w)
            && (a.createdBranch && NoUnbornWorktrees(w) ==> DeleteBranch(u, a.item.bare, a.item.branch).Some?)
            && (NoUnbornWorktrees(w) ==> NoUnbornWorktrees(v))
  {
    var u := WithBranch(w, a).value;
    if a.createdWorktree { RemoveUndoesAddWorktree(u, a.item.bare, id, a.item.alias, a.item.branch); }
    if a.createdBranch {
      var b := w.bares[a.item.bare];
      assert u.bares[a.item.bare].branches - {a.item.branch} == b.branches;
      assert u.bares[a.item.bare := b] == w.bares;
      if NoUnbornWorktrees(w) { DeleteUndoesAddBranch(w, a.item.bare, a.item.branch, StartPoint(a.item)); }
    }
  }

  lemma {:induction false} BuiltNoUnborn(w: State, id: string, applied: seq<Applied>, n: nat)
    requires n <= |applied| && Built(w, id, applied, n).Some? && NoUnbornWorktrees(w)
    ensures NoUnbornWorktrees(Built(w, id, applied, n).value)
  {
    if n > 0 {
      BuiltPrefix(w, id, applied, n - 1, n);
      BuiltNoUnborn(w, id, applied, n - 1);
      UndoItem(Built(w, id, applied, n - 1).value, id, applied[n - 1]);
    }
  }

  /** Undo the worktree of one item. */
  method UndoWorktree(disk: Disk, id: string, a: Applied, ghost w: State, ghost u: State) returns (clean: bool)
    requires Keeps(w, disk.state) && a.createdWorktree && Ours(w, id, a)
    modifies disk
    ensures Keeps(w, disk.state) && disk.Onward()
    ensures
      var undoes := RemoveWorktree(old(disk.state), a.item.bare, id, a.item.alias) == Some(u)
          && DeleteRepoDir(u, id, a.item.alias) == u;
      && (clean && undoes ==> disk.state == u)
      && (disk.lost == old(disk.lost) && undoes ==> clean)
  {
    RemovalsKeep(w, disk.state, id, a);
    clean := disk.Undo(RemoveWorktree(disk.state, a.item.bare, id, a.item.alias));
    RemovalsKeep(w, disk.state, id, a);
    var deleted := disk.Undo(Some(DeleteRepoDir(disk.state, id, a.item.alias)));
    clean := clean && deleted;
  }

  /** Undo one item; `clean` reports whether every call of it went through. */
  method UndoOne(disk: Disk, id: string, a: Applied, ghost w: State, ghost before: State) returns (clean: bool)
    requires Keeps(w, disk.state) && (a.createdBranch || a.createdWorktree ==> Ours(w, id, a))
    modifies disk
    ensures Keeps(w, disk.state) && disk.Onward()
    ensures clean && Some(old(disk.state)) == WithItem(before, id, a) ==> disk.state == before
    ensures
      disk.lost == old(disk.lost) && NoUnbornWorktrees(before) && Some(old(disk.state)) == WithItem(before, id, a) ==>
          clean
  {
    clean := true;
    ghost var applies := Some(disk.state) == WithItem(before, id, a);
    ghost var u := if WithBranch(before, a).Some? then WithBranch(before, a).value else before;
    if applies { UndoItem(before, id, a); }
    if a.createdWorktree {
      clean := UndoWorktree(disk, id, a, w, u);
    }
    assert applies && clean ==> disk.state == u;
    if a.createdBranch {
      RemovalsKeep(w, disk.state, id, a);
      var deleted := disk.Undo(DeleteBranch(disk.state, a.item.bare, a.item.branch));
      clean := clean && deleted;
    }
  }

  /** Roll back in reverse order. If every call goes through the disk is as before the run, and git refuses
      none of them; whatever fails, nothing that was there before the run is gone. */
  method Rollback(disk: Disk, id: string, applied: seq<Applied>, ghost w: State) returns (clean: bool)
    requires Some(disk.state) == Built(w, id, applied, |applied|)
    modifies disk
    ensures clean ==> disk.state == w
    ensures Keeps(w, disk.state)
    ensures disk.lost == old(disk.lost) && NoUnbornWorktrees(w) ==> clean
    ensures disk.Onward()
  {
    clean := true;
    BuiltKeeps(w, id, applied, |applied|);
    var i := |applied|;
    while i > 0
      invariant 0 <= i <= |applied|
      invariant Keeps(w, disk.state) && disk.Onward()
      invariant Built(w, id, applied, i).Some?
      invariant clean ==> disk.state == Built(w, id, applied, i).value
      invariant disk.lost == old(disk.lost) && NoUnbornWorktrees(w) ==> clean
    {
      i := i - 1;
      BuiltPrefix(w, id, applied, i, i + 1);
      if applied[i].createdBranch || applied[i].createdWorktree { BuiltOurs(w, id, applied, i); }
      ghost var before := Built(w, id, applied, i).value;
      if NoUnbornWorktrees(w) { BuiltNoUnborn(w, id, applied, i); }
      var ok := UndoOne(disk, id, applied[i], w, before);
      clean := clean && ok;
    }
  }

  /** One item of the plan: a branch if there is none yet, then the worktree. */
  method ApplyOne(disk: Disk, id: string, p: PlanItem) returns (ok: bool, current: Applied)
    modifies disk
    ensures Some(disk.state) == WithItem(old(disk.state), id, current)
    ensures ok ==> current == Full(p)
    ensures !ok ==> !current.createdWorktree
    ensures !ok && WithItem(old(disk.state), id, Full(p)).Some? ==>
              !old(disk.Reliable()) && (old(disk.FailsAtMostOnce()) ==> disk.Reliable())
    ensures disk.Onward() && disk.lost == old(disk.lost)
    ensures old(disk.FailsAtMostOnce()) ==> disk.FailsAtMostOnce()
  {
    current := Applied(p, false, false);
    ghost var w := disk.state;
    if !p.localExists {
      var created := disk.Try(AddBranch(disk.state, p.bare, p.branch, StartPoint(p)));
      if !created {
        assert disk.fails(old(disk.calls)) || AddBranch(w, p.bare, p.branch, StartPoint(p)).None?;
        return false, current;
      }
      current := current.(createdBranch := true);
    }
    assert Some(disk.state) == WithBranch(w, Full(p));
    ghost var n := disk.calls;
    var added := disk.Try(AddWorktree(disk.state, p.bare, id, p.alias, p.branch));
    if !added {
      assert disk.fails(n) || WithItem(w, id, Full(p)).None?;
      return false, current;
    }
    current := current.(createdWorktree := true);
    return true, current;
  }

  lemma {:induction false} BuiltWithPartial(
    w: State, id: string, whole: seq<Applied>, i: nat, v: State, current: Applied)
    requires i < |whole| && Built(w, id, whole, i) == Some(v)
    ensures Built(w, id, whole[..i] + [current], i + 1) == WithItem(v, id, current)
  {
    BuiltAgrees(w, id, whole[..i] + [current], whole, i);
    BuiltNext(w, id, whole[..i] + [current], i, v, current);
  }

  /** The body of the loop over the plan, in terms of what was built before. */
  method ApplyNth(disk: Disk, id: string, plan: seq<PlanItem>, i: nat, ghost w: State)
    returns (ok: bool, current: Applied)
    requires i < |plan| && Some(disk.state) == Built(w, id, FullPlan(plan), i)
    modifies disk
    ensures ok ==> current == FullPlan(plan)[i] && Some(disk.state) == Built(w, id, FullPlan(plan), i + 1)
    ensures !ok ==>
              && !current.createdWorktree
              && Some(disk.state) == Built(w, id, FullPlan(plan)[..i] + [current], i + 1)
              && (Built(w, id, FullPlan(plan), |plan|).Some? ==>
                    !old(disk.Reliable()) && (old(disk.FailsAtMostOnce()) ==> disk.Reliable()))
    ensures disk.Onward() && disk.lost == old(disk.lost)
    ensures old(disk.FailsAtMostOnce()) ==> disk.FailsAtMostOnce()
  {
    ghost var whole, v := FullPlan(plan), disk.state;
    BuiltNext(w, id, whole, i, v, Full(plan[i]));
    ok, current := ApplyOne(disk, id, plan[i]);
    if !ok {
      BuiltWithPartial(w, id, whole, i, v, current);
      if Built(w, id, whole, |plan|).Some? { BuiltPrefix(w, id, whole, i + 1, |plan|); }
    }
  }

  /** The loop over the plan, up to the first failing call; `partial` is then the item in progress. */
  method ApplyItems(disk: Disk, id: string, plan: seq<PlanItem>) returns (done: seq<Applied>, partial: Option<Applied>)
    modifies disk
    ensures partial.None? ==>
              && done == FullPlan(plan)
              && Some(disk.state) == Built(old(disk.state), id, FullPlan(plan), |plan|)
    ensures partial.Some? ==>
              && !partial.value.createdWorktree
              && Some(disk.state) == Built(old(disk.state), id, done + [partial.value], |done| + 1)
              && (Built(old(disk.state), id, FullPlan(plan), |plan|).Some? ==>
                    !old(disk.Reliable()) && (old(disk.FailsAtMostOnce()) ==> disk.Reliable()))
    ensures disk.Onward() && disk.lost == old(disk.lost)
  {
    ghost var w := disk.state;
    ghost var whole := FullPlan(plan);
    ghost var reliable, once := disk.Reliable(), disk.FailsAtMostOnce();
    done := [];
    for i := 0 to |plan|
      invariant disk.Onward() && disk.lost == old(disk.lost)
      invariant (reliable ==> disk.Reliable()) && (once ==> disk.FailsAtMostOnce())
      invariant done == whole[..i]
      invariant Some(disk.state) == Built(w, id, whole, i)
    {
      assert whole[..i + 1] == whole[..i] + [whole[i]];
      var ok, current := ApplyNth(disk, id, plan, i, w);
      if !ok {
        return done, Some(current);
      }
      done := done + [current];
    }
    assert done == whole;
    return done, None;
  }

  /** Apply the plan; on the first failing call undo everything done so far. */
  method Apply(disk: Disk, id: string, plan: seq<PlanItem>) returns (applied: Option<seq<Applied>>, clean: bool)
    modifies disk
    ensures applied.Some? ==>
              && applied.value == FullPlan(plan)
              && Some(disk.state) == Built(old(disk.state), id, FullPlan(plan), |plan|)
    ensures applied.Some? ==>
              && Keeps(old(disk.state), disk.state) && OnlyItems(old(disk.state), id, plan, disk.state)
              && forall k :: 0 <= k < |plan| ==> InPlace(old(disk.state), id, plan[k], disk.state)
    ensures disk.Onward()
    ensures applied.None? && clean ==> disk.state == old(disk.state)
    ensures applied.None? && disk.lost == old(disk.lost) && NoUnbornWorktrees(old(disk.state)) ==> clean
    ensures applied.None? ==> Keeps(old(disk.state), disk.state)
    ensures applied.Some? ==> disk.lost == old(disk.lost)
    ensures Built(old(disk.state), id, FullPlan(plan), |plan|).Some? ==>
              && (old(disk.Reliable()) ==> applied.Some?)
              && (applied.None? && old(disk.FailsAtMostOnce()) && NoUnbornWorktrees(old(disk.state)) ==> clean)
  {
    ghost var w := disk.state;
    var done, partial := ApplyItems(disk, id, plan);
    if partial.None? {
      BuiltMeans(w, id, plan);
      return Some(done), true;
    }
    clean := UndoFailed(disk, id, done, partial.value, w);
    return None, clean;
  }

  /** The failure path of the loop: the item in progress is rolled back too if it got a branch. */
  method UndoFailed(disk: Disk, id: string, done: seq<Applied>, current: Applied, ghost w: State) returns (clean: bool)
    requires Some(disk.state) == Built(w, id, done + [current], |done| + 1)
    requires !current.createdWorktree
    modifies disk
    ensures clean ==> disk.state == w
    ensures Keeps(w, disk.state)
    ensures disk.lost == old(disk.lost) && NoUnbornWorktrees(w) ==> clean
    ensures disk.Onward()
  {
    if current.createdBranch {
      clean := Rollback(disk, id, done + [current], w);
    } else {
      BuiltAgrees(w, id, done + [current], done, |done|);
      clean := Rollback(disk, id, done, w);
    }
  }

  // ----- Merging the metadata -----

  /** Restore entries by trimmed alias; later entries win. */
  function ByAlias(entries: seq<RestoreEntry>, n: nat): (m: map<string, RestoreEntry>)
    requires n <= |entries|
    ensures forall a :: a in m ==> Trim(m[a].alias) == a
  {
    if n == 0 then map[] else ByAlias(entries, n - 1)[Trim(entries[n - 1].alias) := entries[n - 1]]
  }

  /** A listing of a map in alias order: each entry once. */
  ghost predicate Lists(s: seq<RestoreEntry>, m: map<string, RestoreEntry>) {
    && (forall i :: 0 <= i < |s| ==> Trim(s[i].alias) in m && m[Trim(s[i].alias)] == s[i])
    && (forall a :: a in m ==> exists i :: 0 <= i < |s| && s[i] == m[a])
    && (forall i, j :: 0 <= i < j < |s| ==>
          && StrLe(Trim(s[i].alias), Trim(s[j].alias))
          && Trim(s[i].alias) != Trim(s[j].alias))
  }

  lemma {:induction false} StrLeIsTotalPreorder()
    ensures TotalPreorder(StrLe)
  {
    forall a: string, b: string ensures StrLe(a, b) || StrLe(b, a) { StrLeTotal(a, b); }
    forall a: string, b: string, c: string | StrLe(a, b) && StrLe(b, c) ensures StrLe(a, c) { StrLeTrans(a, b, c); }
  }

  /** The names as a strictly increasing list. */
  ghost predicate ListsAliases(aliases: seq<string>, names: set<string>) {
    && (forall a :: a in aliases <==> a in names)
    && (forall i, j :: 0 <= i < j < |aliases| ==> StrLe(aliases[i], aliases[j]) && aliases[i] != aliases[j])
  }

  method SortAliases(names: set<string>) returns (aliases: seq<string>)
    ensures ListsAliases(aliases, names)
  {
    var found: seq<string> := [];
    var todo := names;
    while todo != {}
      invariant todo <= names
      invariant forall a :: a in found <==> a in names - todo
      invariant forall i, j :: 0 <= i < j < |found| ==> found[i] != found[j]
      decreases |todo|
    {
      var a :| a in todo;
      assert a !in found;
      found := found + [a];
      todo := todo - {a};
    }
    aliases := SortBy(found, StrLe);
    SortMembers(found, StrLe);
    StrLeIsTotalPreorder();
    SortSorted(found, StrLe);
    forall i, j | 0 <= i < j < |aliases| ensures aliases[i] != aliases[j] { SortDistinct(found, StrLe, i, j); }
  }

  lemma {:induction false} NothingListed(aliases: seq<string>, names: set<string>)
    requires ListsAliases(aliases, names)
    ensures names == {} ==> aliases == []
  {
    if aliases != [] { assert aliases[0] in names; }
  }

  lemma {:induction false} ByAliasMembers(entries: seq<RestoreEntry>, n: nat, a: string)
    requires n <= |entries|
    ensures a in ByAlias(entries, n) ==> ByAlias(entries, n)[a] in entries
    ensures a in ByAlias(entries, n) <==> exists i :: 0 <= i < n && Trim(entries[i].alias) == a
  {
    if n > 0 {
      ByAliasMembers(entries, n - 1, a);
      assert entries[n - 1] in entries;
    }
  }

  lemma {:induction false} ByAliasLast(entries: seq<RestoreEntry>, n: nat, j: nat)
    requires j < n <= |entries| && forall i :: j < i < n ==> Trim(entries[i].alias) != Trim(entries[j].alias)
    ensures Trim(entries[j].alias) in ByAlias(entries, n) && ByAlias(entries, n)[Trim(entries[j].alias)] == entries[j]
  {
    if j < n - 1 { ByAliasLast(entries, n - 1, j); }
  }

  /** The merged list holds entries of the two lists only, and every entry that no later one of its alias replaces. */
  ghost predicate Merges(all: seq<RestoreEntry>, merged: seq<RestoreEntry>) {
    && (forall e :: e in merged ==> e in all)
    && (forall j :: 0 <= j < |all| && (forall i :: j < i < |all| ==> Trim(all[i].alias) != Trim(all[j].alias)) ==>
          all[j] in merged)
  }

  lemma {:induction false} ListedMerges(all: seq<RestoreEntry>, merged: seq<RestoreEntry>)
    requires Lists(merged, ByAlias(all, |all|))
    ensures Merges(all, merged)
  {
    forall e | e in merged ensures e in all { ByAliasMembers(all, |all|, Trim(e.alias)); }
    forall j | 0 <= j < |all| && (forall i :: j < i < |all| ==> Trim(all[i].alias) != Trim(all[j].alias))
      ensures all[j] in merged
    {
      ByAliasLast(all, |all|, j);
    }
  }

  method MergeByAlias(all: seq<RestoreEntry>) returns (m: Option<map<string, RestoreEntry>>)
    ensures m.None? <==> exists i :: 0 <= i < |all| && Trim(all[i].alias) == ""
    ensures m.Some? ==> m.value == ByAlias(all, |all|)
  {
    var byAlias: map<string, RestoreEntry> := map[];
    for i := 0 to |all|
      invariant byAlias == ByAlias(all, i)
      invariant forall k :: 0 <= k < i ==> Trim(all[k].alias) != ""
    {
      var alias := Trim(all[i].alias);
      if alias == "" {
        return None;
      }
      byAlias := byAlias[alias := all[i]];
    }
    return Some(byAlias);
  }

  method ListInOrder(m: map<string, RestoreEntry>) returns (s: seq<RestoreEntry>)
    requires forall a :: a in m ==> Trim(m[a].alias) == a
    ensures Lists(s, m)
  {
    var aliases := SortAliases(m.Keys);
    s := [];
    for i := 0 to |aliases|
      invariant |s| == i
      invariant forall k :: 0 <= k < i ==> aliases[k] in m && s[k] == m[aliases[k]]
    {
      assert aliases[i] in aliases;
      s := s + [m[aliases[i]]];
    }
    forall a | a in m ensures exists i :: 0 <= i < |s| && s[i] == m[a] {
      var i :| 0 <= i < |aliases| && aliases[i] == a;
      assert s[i] == m[a];
    }
  }

  /** upsertWorkspaceMetaReposRestore on the loaded metadata: the merged list holds one entry for each
      alias, the new one where both lists have it, in alias order; nothing else but the clock changes. */
  method UpsertRepos(meta: Meta, repos: seq<RestoreEntry>, now: int) returns (r: Option<Meta>)
    ensures r.None? <==> exists i :: 0 <= i < |meta.repos + repos| && Trim((meta.repos + repos)[i].alias) == ""
    ensures r.Some? ==>
              && Lists(r.value.repos, ByAlias(meta.repos + repos, |meta.repos + repos|))
              && Merges(meta.repos + repos, r.value.repos)
              && r.value == meta.(repos := r.value.repos, updatedAt := if now > 0 then now else meta.updatedAt)
  {
    var byAlias := MergeByAlias(meta.repos + repos);
    if byAlias.None? {
      return None;
    }
    var merged := ListInOrder(byAlias.value);
    ListedMerges(meta.repos + repos, merged);
    return Some(meta.(repos := merged, updatedAt := if now > 0 then now else meta.updatedAt));
  }

  // ----- The command -----

  function RestoreOf(p: PlanItem): RestoreEntry {
    RestoreEntry(p.uid, p.key, p.remote, p.alias, p.branch, p.baseRefUsed)
  }

  function RestoreAll(plan: seq<PlanItem>): (r: seq<RestoreEntry>)
    ensures |r| == |plan| && forall i :: 0 <= i < |plan| ==> r[i] == RestoreOf(plan[i])
  {
    seq(|plan|, i requires 0 <= i < |plan| => RestoreOf(plan[i]))
  }

  /** The state a successful run leaves: all items in place and the metadata merged. */
  ghost predicate Added(w: State, id: string, plan: seq<PlanItem>, v: State) {
    && Built(w, id, FullPlan(plan), |plan|).Some?
    && var u := Built(w, id, FullPlan(plan), |plan|).value;
       && id in u.active && LoadMeta(u.active[id]).Some?
       && var m := LoadMeta(u.active[id]).value;
          exists m' :: && Some(v) == PutMeta(u, id, m')
                       && Lists(m'.repos, ByAlias(m.repos + RestoreAll(plan), |m.repos + RestoreAll(plan)|))
                       && m' == m.(repos := m'.repos, updatedAt := m'.updatedAt)
  }

  /** The apply phase with its metadata write: all or nothing. */
  method ApplyAndRecord(disk: Disk, id: string, plan: seq<PlanItem>, now: int) returns (ok: bool, clean: bool)
    modifies disk
    ensures disk.Onward()
    ensures ok ==> Added(old(disk.state), id, plan, disk.state)
    ensures !ok && clean ==> disk.state == old(disk.state)
    ensures !ok && disk.lost == old(disk.lost) && NoUnbornWorktrees(old(disk.state)) ==> clean
    ensures !ok ==> Keeps(old(disk.state), disk.state)
    ensures Built(old(disk.state), id, FullPlan(plan), |plan|).Some? && Recordable(old(disk.state), id, plan) ==>
              && (old(disk.Reliable()) ==> ok)
              && (!ok && old(disk.FailsAtMostOnce()) && NoUnbornWorktrees(old(disk.state)) ==>
                  disk.state == old(disk.state))
  {
    ghost var w := disk.state;
    var applied: Option<seq<Applied>>;
    applied, clean := Apply(disk, id, plan);
    if applied.None? {
      return false, clean;
    }
    ghost var u := disk.state;
    BuiltKeeps(w, id, FullPlan(plan), |plan|);
    var next: Option<State> := None;
    if id in disk.state.active && LoadMeta(disk.state.active[id]).Some? {
      var merged := UpsertRepos(LoadMeta(disk.state.active[id]).value, RestoreAll(plan), now);
      if merged.Some? {
        next := PutMeta(disk.state, id, merged.value);
      }
    }
    var written := disk.Try(next);
    if !written {
      if Recordable(w, id, plan) { assert KeepsDir(w.active[id], u.active[id]); }
      clean := Rollback(disk, id, applied.value, w);
      return false, clean;
    }
    return true, true;
  }

  /** The workspace has metadata, and no entry of it or of the plan has a blank alias. */
  predicate Recordable(w: State, id: string, plan: seq<PlanItem>) {
    && id in w.active && LoadMeta(w.active[id]).Some?
    && var all := LoadMeta(w.active[id]).value.repos + RestoreAll(plan);
       forall i :: 0 <= i < |all| ==> Trim(all[i].alias) != ""
  }

  /** Every planned repository is a pool candidate: stored at its spec's path, named after its key. */
  ghost predicate FromPool(pool: Path, specs: seq<Spec>, plan: seq<PlanItem>) {
    && CleanPath(pool) && |specs| == |plan|
    && forall i :: 0 <= i < |plan| ==>
         && CleanName(specs[i].host) && CleanName(specs[i].owner) && CleanName(specs[i].repo)
         && plan[i].bare == StorePath(pool, specs[i])
         && plan[i].alias == DeriveAlias(specs[i].owner + "/" + specs[i].repo)
  }

  /** No leftover registration of a directory that the plan is going to create. */
  ghost predicate NoStaleWorktrees(w: State, id: string, plan: seq<PlanItem>) {
    forall i :: 0 <= i < |plan| && plan[i].bare in w.bares ==>
        InRoot(id, plan[i].alias) !in w.bares[plan[i].bare].worktrees
  }

  lemma {:induction false} UsableItemApplies(w: State, id: string, p: PlanItem)
    requires id in w.active && Usable(w, id, p) && NoUnbornWorktrees(w)
    requires InRoot(id, p.alias) !in w.bares[p.bare].worktrees
    ensures var v := WithItem(w, id, Full(Filled(w, p)));
            && v.Some? && NoUnbornWorktrees(v.value)
            && v.value.bares.Keys == w.bares.Keys
            && (forall b :: b != p.bare && b in w.bares ==> v.value.bares[b] == w.bares[b])
            && v.value.active == w.active[id := w.active[id].(repos := w.active[id].repos[p.alias := Some(p.bare)])]
  {
    var a := Full(Filled(w, p));
    var u := WithBranch(w, a).value;
    if a.createdBranch {
      DeleteUndoesAddBranch(w, p.bare, p.branch, StartPoint(a.item));
      assert !CheckedOut(w.bares[p.bare], p.branch);
      assert u.bares[p.bare].worktrees == w.bares[p.bare].worktrees;
    }
    RemoveUndoesAddWorktree(u, p.bare, id, p.alias, p.branch);
  }

  /** The first n items are in place and the rest is as the preflight saw it. */
  ghost predicate Underway(w: State, id: string, plan: seq<PlanItem>, n: nat, v: State) {
    && NoUnbornWorktrees(v) && v.bares.Keys == w.bares.Keys && id in v.active
    && forall k :: n <= k < |plan| ==>
         && plan[k].bare in w.bares && v.bares[plan[k].bare] == w.bares[plan[k].bare]
         && plan[k].alias !in v.active[id].repos
  }

  lemma {:induction false} NextItemApplies(w: State, id: string, plan: seq<PlanItem>, n: nat, v: State)
    requires PlanOk(w, id, plan) && n < |plan| && Underway(w, id, plan, n, v) && NoStaleWorktrees(w, id, plan)
    requires forall i, j :: 0 <= i < j < |plan| ==> plan[i].bare != plan[j].bare
    ensures Filled(v, plan[n]) == Filled(w, plan[n])
    ensures WithItem(v, id, Full(Filled(w, plan[n]))).Some?
    ensures Underway(w, id, plan, n + 1, WithItem(v, id, Full(Filled(w, plan[n]))).value)
  {
    var p := plan[n];
    assert Usable(w, id, p);
    UsableItemApplies(v, id, p);
    forall k | n + 1 <= k < |plan| ensures plan[k].bare != p.bare && plan[k].alias != p.alias {}
  }

  lemma {:induction false} StartUnderway(w: State, id: string, plan: seq<PlanItem>)
    requires id in w.active && PlanOk(w, id, plan) && NoUnbornWorktrees(w)
    ensures Underway(w, id, plan, 0, w)
  {
    assert forall k :: 0 <= k < |plan| ==> Usable(w, id, plan[k]);
  }

  lemma {:induction false} BuiltFurther(
    w: State, id: string, plan: seq<PlanItem>, applied: seq<Applied>, n: nat, v: State)
    requires PlanOk(w, id, plan) && n < |plan| && Underway(w, id, plan, n, v) && NoStaleWorktrees(w, id, plan)
    requires forall i, j :: 0 <= i < j < |plan| ==> plan[i].bare != plan[j].bare
    requires n < |applied| && applied[n] == Full(Filled(w, plan[n])) && Built(w, id, applied, n) == Some(v)
    ensures Built(w, id, applied, n + 1).Some? && Underway(w, id, plan, n + 1, Built(w, id, applied, n + 1).value)
  {
    NextItemApplies(w, id, plan, n, v);
    BuiltNext(w, id, applied, n, v, applied[n]);
  }

  /** After a passing preflight, git refuses nothing: only a failing call can stop the apply loop. */
  lemma {:induction false} PreflightSuffices(w: State, id: string, plan: seq<PlanItem>, n: nat)
    requires id in w.active && PlanOk(w, id, plan) && n <= |plan|
    requires NoUnbornWorktrees(w) && NoStaleWorktrees(w, id, plan)
    requires forall i, j :: 0 <= i < j < |plan| ==> plan[i].bare != plan[j].bare
    ensures
      var built := Built(w, id, FullPlan(FillAll(w, plan)), n);
      built.Some? && Underway(w, id, plan, n, built.value)
  {
    var applied := FullPlan(FillAll(w, plan));
    if n == 0 {
      StartUnderway(w, id, plan);
    } else {
      PreflightSuffices(w, id, plan, n - 1);
      BuiltFurther(w, id, plan, applied, n - 1, Built(w, id, applied, n - 1).value);
    }
  }

  lemma {:induction false} PoolPlansHaveDistinctBares(pool: Path, specs: seq<Spec>, plan: seq<PlanItem>)
    requires FromPool(pool, specs, plan)
    requires forall i, j :: 0 <= i < j < |plan| ==> plan[i].alias != plan[j].alias
    ensures forall i, j :: 0 <= i < j < |plan| ==> plan[i].bare != plan[j].bare
    ensures forall i :: 0 <= i < |plan| ==> Trim(plan[i].alias) != ""
  {
    forall i, j | 0 <= i < j < |plan| ensures plan[i].bare != plan[j].bare {
      DistinctAliasesDistinctBares(pool, specs[i], specs[j]);
    }
    forall i | 0 <= i < |plan| ensures Trim(plan[i].alias) != "" {
      AliasIsRepoName(specs[i].owner, specs[i].repo);
      TrimOfTrimmed(specs[i].repo);
    }
  }

  /** The disk and the plan are in the shape kra itself produces. */
  ghost predicate Ordinary(w: State, id: string, pool: Path, specs: seq<Spec>, plan: seq<PlanItem>) {
    && FromPool(pool, specs, plan) && NoUnbornWorktrees(w) && NoStaleWorktrees(w, id, plan)
    && (id in w.active ==>
          && LoadMeta(w.active[id]).Some?
          && forall e :: e in LoadMeta(w.active[id]).value.repos ==> Trim(e.alias) != "")
  }

  lemma {:induction false} OrdinaryApplies(w: State, id: string, pool: Path, specs: seq<Spec>, plan: seq<PlanItem>)
    requires Ordinary(w, id, pool, specs, plan) && id in w.active && PlanOk(w, id, plan)
    ensures Built(w, id, FullPlan(FillAll(w, plan)), |plan|).Some? && Recordable(w, id, FillAll(w, plan))
  {
    PoolPlansHaveDistinctBares(pool, specs, plan);
    PreflightSuffices(w, id, plan, |plan|);
    FilledRecordable(w, id, plan);
  }

  lemma {:induction false} FilledRecordable(w: State, id: string, plan: seq<PlanItem>)
    requires id in w.active && LoadMeta(w.active[id]).Some?
    requires forall e :: e in LoadMeta(w.active[id]).value.repos ==> Trim(e.alias) != ""
    requires forall i :: 0 <= i < |plan| ==> Trim(plan[i].alias) != ""
    ensures Recordable(w, id, FillAll(w, plan))
  {
  }

  // ----- What the command leaves, in terms of the plan it was given -----

  /** The branch has the commit it had, else that of its remote counterpart, else that of the base ref, and the
      worktree is on it. */
  ghost predicate Placed(w: State, id: string, p: PlanItem, v: State) {
    && OnBranch(id, p, v) && p.bare in w.bares
    && var b, commit := w.bares[p.bare], v.bares[p.bare].branches[p.branch];
       if p.branch in b.branches then commit == b.branches[p.branch]
       else if p.branch in b.remotes then commit == b.remotes[p.branch]
       else BaseBranch(BaseRef(p)) in b.remotes && commit == b.remotes[BaseBranch(BaseRef(p))]
  }

  /** Only the directory of the workspace changes, and only by the aliases of the plan. */
  ghost predicate OnlyDirs(w: State, id: string, aliases: set<string>, v: State) {
    && v.archive == w.archive && v.active.Keys == w.active.Keys
    && (forall x :: x in w.active && x != id ==> v.active[x] == w.active[x])
    && (id in w.active ==>
          && v.active[id].files == w.active[id].files
          && v.active[id].repos.Keys <= w.active[id].repos.Keys + aliases
          && forall a :: a in w.active[id].repos ==>
               a in v.active[id].repos && v.active[id].repos[a] == w.active[id].repos[a])
  }

  function EntryFor(p: PlanItem): RestoreEntry {
    RestoreEntry(p.uid, p.key, p.remote, p.alias, p.branch, BaseRef(p))
  }

  function EntriesFor(plan: seq<PlanItem>): (r: seq<RestoreEntry>)
    ensures |r| == |plan| && forall i :: 0 <= i < |plan| ==> r[i] == EntryFor(plan[i])
  {
    seq(|plan|, i requires 0 <= i < |plan| => EntryFor(plan[i]))
  }

  function PlanAliases(plan: seq<PlanItem>): set<string> {
    set i | 0 <= i < |plan| :: plan[i].alias
  }

  /** The metadata differs in its entries and its clock, and the entries are merged with those of the plan. */
  ghost predicate Records(w: State, id: string, plan: seq<PlanItem>, v: State) {
    && id in w.active && LoadMeta(w.active[id]).Some? && id in v.active && LoadMeta(v.active[id]).Some?
    && var m, m' := LoadMeta(w.active[id]).value, LoadMeta(v.active[id]).value;
       m' == m.(repos := m'.repos, updatedAt := m'.updatedAt) && Merges(m.repos + EntriesFor(plan), m'.repos)
  }

  ghost predicate AsPlanned(w: State, id: string, plan: seq<PlanItem>, v: State) {
    && OnlyItems(w, id, plan, v) && OnlyDirs(w, id, PlanAliases(plan), v) && Records(w, id, plan, v)
    && forall k :: 0 <= k < |plan| ==> Placed(w, id, plan[k], v)
  }

  /** What a successful add-repo wrote. */
  lemma {:induction false} AddedWrote(w: State, id: string, plan: seq<PlanItem>, v: State) returns (u: State, m: Meta)
    requires id in w.active && LoadMeta(w.active[id]).Some? && Added(w, id, plan, v)
    ensures Built(w, id, FullPlan(plan), |plan|) == Some(u) && id in u.active && PutMeta(u, id, m) == Some(v)
    ensures v.archive == w.archive && id in v.active && LoadMeta(v.active[id]) == Some(m)
        && v.active[id].repos == u.active[id].repos
    ensures var all := LoadMeta(w.active[id]).value.repos + RestoreAll(plan); Lists(m.repos, ByAlias(all, |all|))
    ensures var before := LoadMeta(w.active[id]).value; m == before.(repos := m.repos, updatedAt := m.updatedAt)
  {
    u := Built(w, id, FullPlan(plan), |plan|).value;
    BuiltKeeps(w, id, FullPlan(plan), |plan|);
    assert KeepsDir(w.active[id], u.active[id]);
    var before := LoadMeta(u.active[id]).value;
    var all := before.repos + RestoreAll(plan);
    m :| && Some(v) == PutMeta(u, id, m) && Lists(m.repos, ByAlias(all, |all|))
         && m == before.(repos := m.repos, updatedAt := m.updatedAt);
  }

  lemma {:induction false} ItemOnlyDirs(u: State, v: State, id: string, aliases: set<string>, a: Applied)
    requires OnlyDirs(u, id, aliases, v) && WithItem(v, id, a).Some? && a.item.alias in aliases
    ensures OnlyDirs(u, id, aliases, WithItem(v, id, a).value)
  {
  }

  lemma {:induction false} BuiltOnlyDirs(w: State, id: string, plan: seq<PlanItem>)
    requires Built(w, id, FullPlan(plan), |plan|).Some?
    ensures OnlyDirs(w, id, PlanAliases(plan), Built(w, id, FullPlan(plan), |plan|).value)
  {
    var applied := FullPlan(plan);
    var holds := (n: nat, v: State) => OnlyDirs(w, id, PlanAliases(plan), v);
    forall v, i: nat | i < |applied| && holds(i, v) && WithItem(v, id, applied[i]).Some?
      ensures holds(i + 1, WithItem(v, id, applied[i]).value)
    {
      ItemOnlyDirs(w, v, id, PlanAliases(plan), applied[i]);
    }
    BuiltReaches(w, id, applied, |plan|, holds);
  }

  /** What was filled in is what is on the disk. */
  lemma {:induction false} FilledPlaced(w: State, id: string, p: PlanItem, v: State)
    requires Usable(w, id, p) && Keeps(w, v) && InPlace(w, id, Filled(w, p), v)
    ensures Placed(w, id, p, v)
  {
    assert KeepsBare(w.bares[p.bare], v.bares[p.bare]);
  }

  lemma {:induction false} OnlyItemsFilled(w: State, id: string, plan: seq<PlanItem>, v: State)
    requires OnlyItems(w, id, FillAll(w, plan), v)
    ensures OnlyItems(w, id, plan, v)
  {
    var filled := FillAll(w, plan);
    assert forall i :: 0 <= i < |plan| ==> filled[i] == Filled(w, plan[i]);
    forall bare | bare in w.bares ensures OnlyItemsIn(w.bares[bare], id, plan, bare, v.bares[bare]) {
      assert OnlyItemsIn(w.bares[bare], id, filled, bare, v.bares[bare]);
    }
  }

  /** What was built, with the metadata written over it. */
  lemma {:induction false} PutKeepsPlaces(w: State, id: string, plan: seq<PlanItem>, u: State, m: Meta, v: State)
    requires OnlyItems(w, id, plan, u) && OnlyDirs(w, id, PlanAliases(plan), u) && id in w.active
    requires (forall k :: 0 <= k < |plan| ==> Placed(w, id, plan[k], u)) && PutMeta(u, id, m) == Some(v)
    ensures OnlyItems(w, id, plan, v) && OnlyDirs(w, id, PlanAliases(plan), v)
    ensures forall k :: 0 <= k < |plan| ==> Placed(w, id, plan[k], v)
  {
    forall k | 0 <= k < |plan| ensures Placed(w, id, plan[k], v) { assert Placed(w, id, plan[k], u); }
  }

  lemma {:induction false} AllPlaced(w: State, id: string, plan: seq<PlanItem>, u: State)
    requires PlanOk(w, id, plan) && Keeps(w, u)
    requires var filled := FillAll(w, plan); forall k :: 0 <= k < |filled| ==> InPlace(w, id, filled[k], u)
    ensures forall k :: 0 <= k < |plan| ==> Placed(w, id, plan[k], u)
  {
    var filled := FillAll(w, plan);
    forall k | 0 <= k < |plan| ensures Placed(w, id, plan[k], u) {
      assert Usable(w, id, plan[k]) && InPlace(w, id, filled[k], u);
      FilledPlaced(w, id, plan[k], u);
    }
  }

  lemma {:induction false} EntriesOfFilled(w: State, id: string, plan: seq<PlanItem>)
    requires PlanOk(w, id, plan)
    ensures RestoreAll(FillAll(w, plan)) == EntriesFor(plan) && PlanAliases(FillAll(w, plan)) == PlanAliases(plan)
  {
    var filled := FillAll(w, plan);
    forall k | 0 <= k < |plan| ensures RestoreOf(filled[k]) == EntryFor(plan[k]) && filled[k].alias == plan[k].alias {
      assert Usable(w, id, plan[k]);
    }
    assert forall a :: a in PlanAliases(plan) ==> exists k :: 0 <= k < |plan| && filled[k].alias == a;
  }

  lemma {:induction false} BuiltPlaces(w: State, id: string, plan: seq<PlanItem>, u: State)
    requires PlanOk(w, id, plan) && Built(w, id, FullPlan(FillAll(w, plan)), |plan|) == Some(u)
    ensures OnlyItems(w, id, plan, u) && OnlyDirs(w, id, PlanAliases(plan), u)
    ensures forall k :: 0 <= k < |plan| ==> Placed(w, id, plan[k], u)
  {
    BuiltMeans(w, id, FillAll(w, plan));
    AllPlaced(w, id, plan, u);
    BuiltOnlyDirs(w, id, FillAll(w, plan));
    EntriesOfFilled(w, id, plan);
    OnlyItemsFilled(w, id, plan, u);
  }

  lemma {:induction false} AddedMeans(w: State, id: string, plan: seq<PlanItem>, v: State)
    requires PlanOk(w, id, plan) && id in w.active && Added(w, id, FillAll(w, plan), v)
    ensures AsPlanned(w, id, plan, v)
  {
    BuiltKeeps(w, id, FullPlan(FillAll(w, plan)), |plan|);
    assert KeepsDir(w.active[id], Built(w, id, FullPlan(FillAll(w, plan)), |plan|).value.active[id]);
    var u, m := AddedWrote(w, id, FillAll(w, plan), v);
    BuiltPlaces(w, id, plan, u);
    PutKeepsPlaces(w, id, plan, u, m, v);
    EntriesOfFilled(w, id, plan);
    ListedMerges(LoadMeta(w.active[id]).value.repos + EntriesFor(plan), m.repos);
  }

  /** Adding repositories replaces no entry of the metadata: the aliases of a plan are not those of entries. */
  lemma {:induction false} OldEntriesStay(w: State, id: string, plan: seq<PlanItem>, v: State, i: nat)
    requires PlanOk(w, id, plan) && Records(w, id, plan, v) && i < |LoadMeta(w.active[id]).value.repos|
    requires forall k :: 0 <= k < |plan| ==> Trim(plan[k].alias) == plan[k].alias
    requires var before := LoadMeta(w.active[id]).value.repos;
             && Trim(before[i].alias) != ""
             && forall j :: i < j < |before| ==> Trim(before[j].alias) != Trim(before[i].alias)
    ensures LoadMeta(w.active[id]).value.repos[i] in LoadMeta(v.active[id]).value.repos
  {
    var before := LoadMeta(w.active[id]).value.repos;
    var all := before + EntriesFor(plan);
    assert Trim(before[i].alias) in BoundAliases(w, id);
    forall j | i < j < |all| ensures Trim(all[j].alias) != Trim(all[i].alias) {
      if j >= |before| { assert all[j] == EntryFor(plan[j - |before|]); }
    }
    assert all[i] == before[i];
  }

  /** The add-repo command after selection: all or nothing. If it does not succeed, for a failing call or
      because git refuses a step, and no call of its rollback fails, the disk is as it was; whatever fails,
      nothing that was there is gone. */
  method AddRepos(disk: Disk, id: string, plan: seq<PlanItem>, now: int, ghost pool: Path, ghost specs: seq<Spec>)
    returns (ok: bool, clean: bool)
    modifies disk
    ensures ok ==> id in old(disk.state).active && id !in old(disk.state).archive && PlanOk(old(disk.state), id, plan)
    ensures disk.Onward()
    ensures ok ==> Added(old(disk.state), id, FillAll(old(disk.state), plan), disk.state)
    ensures ok ==> AsPlanned(old(disk.state), id, plan, disk.state)
    ensures !ok && clean ==> disk.state == old(disk.state)
    ensures !ok && disk.lost == old(disk.lost) && NoUnbornWorktrees(old(disk.state)) ==> disk.state == old(disk.state)
    ensures !ok ==> Keeps(old(disk.state), disk.state)
    ensures Ordinary(old(disk.state), id, pool, specs, plan) ==>
              && (!ok && old(disk.FailsAtMostOnce()) ==> disk.state == old(disk.state))
              && (old(disk.Reliable()) ==>
                    (ok <==>
                       && id in old(disk.state).active && id !in old(disk.state).archive
                       && PlanOk(old(disk.state), id, plan)))
  {
    ghost var w := disk.state;
    if id !in disk.state.active || id in disk.state.archive {
      return false, true;
    }
    var filled := Preflight(disk.state, id, plan);
    if filled.None? {
      return false, true;
    }
    if Ordinary(w, id, pool, specs, plan) { OrdinaryApplies(w, id, pool, specs, plan); }
    ok, clean := ApplyAndRecord(disk, id, filled.value, now);
    if ok { AddedMeans(w, id, plan, disk.state); }
  }
}
