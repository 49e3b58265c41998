/** Choosing and deleting garbage-collection candidates (internal/cli/repo_gc.go). */
module RepoGCSelect {
  import opened Text
  import opened RepoSpec
  import opened RepoGC

  // ----- Finding what a word stands for -----

  /** The last of the first n candidates with this uid. */
  function ByUid(cs: seq<Candidate>, n: nat, uid: string): Option<Candidate>
    requires n <= |cs|
  {
    if n == 0 then None else if cs[n - 1].uid == uid then Some(cs[n - 1]) else ByUid(cs, n - 1, uid)
  }

  /** The key table's entry, which stays with the repository that first had the key. */
  function ByKey(cs: seq<Candidate>, n: nat, key: string): Option<Candidate>
    requires n <= |cs|
  {
    if n == 0 then None
    else
      var before, c := ByKey(cs, n - 1, key), cs[n - 1];
      if c.key == key && (before.None? || before.value.uid == c.uid) then Some(c) else before
  }

  predicate Ambiguous(cs: seq<Candidate>, n: nat, key: string)
    requires n <= |cs|
  {
    n > 0 && (Ambiguous(cs, n - 1, key)
              || (cs[n - 1].key == key && ByKey(cs, n - 1, key).Some?
                  && ByKey(cs, n - 1, key).value.uid != cs[n - 1].uid))
  }

  function Find(cs: seq<Candidate>, token: string): Option<Candidate> {
    var c := ByUid(cs, |cs|, token);
    if c.Some? then c else if Ambiguous(cs, |cs|, token) then None else ByKey(cs, |cs|, token)
  }

  datatype Tables = Tables(byUid: map<string, Candidate>, byKey: map<string, Candidate>, ambiguous: set<string>)

  function At(m: map<string, Candidate>, key: string): Option<Candidate> {
    if key in m then Some(m[key]) else None
  }

  method MakeTables(cs: seq<Candidate>) returns (t: Tables)
    ensures forall token :: At(t.byUid, token) == ByUid(cs, |cs|, token)
    ensures forall token :: At(t.byKey, token) == ByKey(cs, |cs|, token)
    ensures forall token :: token in t.ambiguous <==> Ambiguous(cs, |cs|, token)
  {
    t := Tables(map[], map[], {});
    for i := 0 to |cs|
      invariant forall token :: At(t.byUid, token) == ByUid(cs, i, token)
      invariant forall token :: At(t.byKey, token) == ByKey(cs, i, token)
      invariant forall token :: token in t.ambiguous <==> Ambiguous(cs, i, token)
    {
      var c := cs[i];
      assert At(t.byKey, c.key) == ByKey(cs, i, c.key);
      var byUid := t.byUid[c.uid := c];
      if c.key in t.byKey && t.byKey[c.key].uid != c.uid {
        t := Tables(byUid, t.byKey, t.ambiguous + {c.key});
      } else {
        t := Tables(byUid, t.byKey[c.key := c], t.ambiguous);
      }
    }
  }

  lemma {:induction false} ByUidMeans(cs: seq<Candidate>, n: nat, uid: string)
    requires n <= |cs|
    ensures ByUid(cs, n, uid).Some? <==> exists i :: 0 <= i < n && cs[i].uid == uid
    ensures ByUid(cs, n, uid).Some? ==> exists i :: 0 <= i < n && cs[i] == ByUid(cs, n, uid).value && cs[i].uid == uid
  {
    if n > 0 { ByUidMeans(cs, n - 1, uid); }
  }

  lemma {:induction false} ByKeyMeans(cs: seq<Candidate>, n: nat, key: string)
    requires n <= |cs|
    ensures ByKey(cs, n, key).Some? <==> exists i :: 0 <= i < n && cs[i].key == key
    ensures ByKey(cs, n, key).Some? ==> exists i :: 0 <= i < n && cs[i] == ByKey(cs, n, key).value && cs[i].key == key
    ensures !Ambiguous(cs, n, key) <==> forall i :: 0 <= i < n && cs[i].key == key ==>
        cs[i].uid == ByKey(cs, n, key).value.uid
  {
    if n > 0 { ByKeyMeans(cs, n - 1, key); }
  }

  /** A word stands for a repository if it is the uid of one, or the key of exactly one. */
  ghost predicate StandsFor(cs: seq<Candidate>, token: string, uid: string) {
    || (token == uid && exists i :: 0 <= i < |cs| && cs[i].uid == uid)
    || (&& (forall i :: 0 <= i < |cs| ==> cs[i].uid != token)
        && (exists i :: 0 <= i < |cs| && cs[i].key == token && cs[i].uid == uid)
        && (forall i :: 0 <= i < |cs| && cs[i].key == token ==> cs[i].uid == uid))
  }

  lemma {:induction false} FindMeans(cs: seq<Candidate>, token: string, uid: string)
    ensures StandsFor(cs, token, uid) <==> Find(cs, token).Some? && Find(cs, token).value.uid == uid
    ensures Find(cs, token).Some? ==> Find(cs, token).value in cs
  {
    ByUidMeans(cs, |cs|, token);
    ByKeyMeans(cs, |cs|, token);
  }

  // ----- Selection by words -----

  predicate Chosen(uid: string, selected: seq<Candidate>) {
    exists i :: 0 <= i < |selected| && selected[i].uid == uid
  }

  /** Every nonblank word must find a repository, and each repository is taken once. */
  function PickAll(find: string -> Option<Candidate>, args: seq<string>, n: nat): Option<seq<Candidate>>
    requires n <= |args|
  {
    if n == 0 then Some([])
    else
      var before, token := PickAll(find, args, n - 1), Trim(args[n - 1]);
      if before.None? || token == "" then before
      else if find(token).None? then None
      else if Chosen(find(token).value.uid, before.value) then before
      else Some(before.value + [find(token).value])
  }

  lemma {:induction false} PickPrefix(find: string -> Option<Candidate>, args: seq<string>, k: nat, n: nat)
    requires k <= n <= |args| && PickAll(find, args, k).None?
    ensures PickAll(find, args, n).None?
  {
    if k < n { PickPrefix(find, args, k, n - 1); }
  }

  method Select(cs: seq<Candidate>, args: seq<string>) returns (r: Option<seq<Candidate>>)
    ensures r == PickAll(token => Find(cs, token), args, |args|)
  {
    var t := MakeTables(cs);
    ghost var find := token => Find(cs, token);
    var selected: seq<Candidate>, seen: set<string> := [], {};
    for i := 0 to |args|
      invariant PickAll(find, args, i) == Some(selected)
      invariant forall u :: u in seen <==> Chosen(u, selected)
    {
      var token := Trim(args[i]);
      if token != "" {
        var c := At(t.byUid, token);
        if c.None? && token !in t.ambiguous {
          c := At(t.byKey, token);
        }
        assert c == find(token);
        if c.None? {
          PickPrefix(find, args, i + 1, |args|);
          return None;
        }
        if c.value.uid !in seen {
          ChosenNext(selected, c.value);
          seen := seen + {c.value.uid};
          selected := selected + [c.value];
        }
      }
    }
    return Some(selected);
  }

  lemma {:induction false} ChosenNext(selected: seq<Candidate>, c: Candidate)
    ensures forall u :: Chosen(u, selected + [c]) <==> Chosen(u, selected) || u == c.uid
  {
    var s := selected + [c];
    assert s[|selected|].uid == c.uid;
    forall u | Chosen(u, selected) ensures Chosen(u, s) {
      var i :| 0 <= i < |selected| && selected[i].uid == u;
      assert s[i].uid == u;
    }
  }

  lemma {:induction false} PickedIsFound(find: string -> Option<Candidate>, args: seq<string>, n: nat, i: nat)
    requires n <= |args| && PickAll(find, args, n).Some? && i < |PickAll(find, args, n).value|
    ensures
      exists k ::
        0 <= k < n && Trim(args[k]) != "" && find(Trim(args[k])) == Some(PickAll(find, args, n).value[i])
  {
    var before := PickAll(find, args, n - 1);
    if i < |before.value| { PickedIsFound(find, args, n - 1, i); } else { assert find(Trim(args[n - 1])).Some?; }
  }

  lemma {:induction false} PickedCovers(find: string -> Option<Candidate>, args: seq<string>, n: nat, k: nat)
    requires k < n <= |args| && PickAll(find, args, n).Some? && Trim(args[k]) != ""
    ensures find(Trim(args[k])).Some? && Chosen(find(Trim(args[k])).value.uid, PickAll(find, args, n).value)
  {
    var before, token := PickAll(find, args, n - 1).value, Trim(args[n - 1]);
    if token != "" && !Chosen(find(token).value.uid, before) { ChosenNext(before, find(token).value); }
    if k < n - 1 { PickedCovers(find, args, n - 1, k); }
  }

  lemma {:induction false} PickedDistinct(find: string -> Option<Candidate>, args: seq<string>, n: nat, i: nat, j: nat)
    requires n <= |args| && PickAll(find, args, n).Some? && i < j < |PickAll(find, args, n).value|
    ensures PickAll(find, args, n).value[i].uid != PickAll(find, args, n).value[j].uid
  {
    var before := PickAll(find, args, n - 1).value;
    if j < |before| { PickedDistinct(find, args, n - 1, i, j); }
        else { assert before[i].uid == PickAll(find, args, n).value[i].uid; }
  }

  lemma {:induction false} PickFails(find: string -> Option<Candidate>, args: seq<string>, n: nat)
    requires n <= |args| && PickAll(find, args, n).None?
    ensures exists k :: 0 <= k < n && Trim(args[k]) != "" && find(Trim(args[k])).None?
  {
    if PickAll(find, args, n - 1).None? { PickFails(find, args, n - 1); }
  }

  /** The selection: it exists exactly when every nonblank word stands for a repository, it holds each
      repository at most once, and it holds exactly the repositories that some word stands for. */
  lemma {:induction false} SelectionIsExact(cs: seq<Candidate>, args: seq<string>)
    ensures var r := PickAll(token => Find(cs, token), args, |args|);
            && (r.Some? <==> forall k :: 0 <= k < |args| && Trim(args[k]) != "" ==>
                exists uid :: StandsFor(cs, Trim(args[k]), uid))
            && (r.Some? ==> forall i, j :: 0 <= i < j < |r.value| ==> r.value[i].uid != r.value[j].uid)
            && (r.Some? ==> forall uid :: Chosen(uid, r.value) <==>
                  exists k :: 0 <= k < |args| && Trim(args[k]) != "" && StandsFor(cs, Trim(args[k]), uid))
  {
    var find := token => Find(cs, token);
    var r := PickAll(find, args, |args|);
    if r.None? {
      PickFails(find, args, |args|);
      var k :| 0 <= k < |args| && Trim(args[k]) != "" && find(Trim(args[k])).None?;
      forall uid ensures !StandsFor(cs, Trim(args[k]), uid) { FindMeans(cs, Trim(args[k]), uid); }
    } else {
      forall k | 0 <= k < |args| && Trim(args[k]) != "" ensures exists uid :: StandsFor(cs, Trim(args[k]), uid) {
        PickedCovers(find, args, |args|, k);
        FindMeans(cs, Trim(args[k]), Find(cs, Trim(args[k])).value.uid);
      }
      forall i, j | 0 <= i < j < |r.value| ensures r.value[i].uid != r.value[j].uid {
        PickedDistinct(find, args, |args|, i, j);
      }
      forall uid ensures Chosen(uid, r.value) <==>
          exists k :: 0 <= k < |args| && Trim(args[k]) != "" && StandsFor(cs, Trim(args[k]), uid) {
        ChosenIff(cs, args, uid);
      }
    }
  }

  lemma {:induction false} ChosenIff(cs: seq<Candidate>, args: seq<string>, uid: string)
    requires PickAll(token => Find(cs, token), args, |args|).Some?
    ensures Chosen(uid, PickAll(token => Find(cs, token), args, |args|).value) <==>
            exists k :: 0 <= k < |args| && Trim(args[k]) != "" && StandsFor(cs, Trim(args[k]), uid)
  {
    var find := token => Find(cs, token);
    var selected := PickAll(find, args, |args|).value;
    if Chosen(uid, selected) {
      var i :| 0 <= i < |selected| && selected[i].uid == uid;
      PickedIsFound(find, args, |args|, i);
      var k :| 0 <= k < |args| && Trim(args[k]) != "" && find(Trim(args[k])) == Some(selected[i]);
      FindMeans(cs, Trim(args[k]), uid);
    }
    if k :| 0 <= k < |args| && Trim(args[k]) != "" && StandsFor(cs, Trim(args[k]), uid) {
      FindMeans(cs, Trim(args[k]), uid);
      PickedCovers(find, args, |args|, k);
    }
  }

  // ----- Deleting -----

  function Inspectable(cs: seq<Candidate>): (r: seq<Candidate>)
    ensures forall c :: c in r <==> c in cs && c.inspectable
  {
    if cs == [] then [] else Inspectable(cs[..|cs| - 1]) + (if cs[|cs| - 1].inspectable then [cs[|cs| - 1]] else [])
  }

  function BaresOf(selected: seq<Candidate>, n: nat, fails: Path -> bool): set<Path>
    requires n <= |selected|
  {
    if n == 0 then {}
    else
      BaresOf(selected, n - 1, fails) + (if fails(selected[n - 1].bare) then {} else {selected[n - 1].bare})
  }

  lemma {:induction false} BaresMembers(selected: seq<Candidate>, n: nat, fails: Path -> bool)
    requires n <= |selected|
    ensures forall p :: p in BaresOf(selected, n, fails) ==> exists i :: 0 <= i < n && selected[i].bare == p
    ensures forall i :: 0 <= i < n && !fails(selected[i].bare) ==> selected[i].bare in BaresOf(selected, n, fails)
  {
    if n > 0 { BaresMembers(selected, n - 1, fails); }
  }

  method FirstBlocked(selected: seq<Candidate>) returns (i: nat)
    ensures i <= |selected| && (i < |selected| ==> !Eligible(selected[i]))
    ensures forall j :: 0 <= j < i ==> Eligible(selected[j])
  {
    i := 0;
    while i < |selected| && Eligible(selected[i])
      invariant i <= |selected| && forall j :: 0 <= j < i ==> Eligible(selected[j])
    {
      i := i + 1;
    }
  }

  class Pool {
    var bares: set<Path>

    /** Remove the selected repositories, each removal succeeding or not on its own. */
    method Apply(selected: seq<Candidate>, fails: Path -> bool) returns (failed: nat)
      modifies this
      ensures bares == old(bares) - BaresOf(selected, |selected|, fails)
      ensures failed == 0 <==> forall i :: 0 <= i < |selected| ==> !fails(selected[i].bare)
    {
      failed := 0;
      for i := 0 to |selected|
        invariant bares == old(bares) - BaresOf(selected, i, fails)
        invariant failed == 0 <==> forall j :: 0 <= j < i ==> !fails(selected[j].bare)
      {
        if fails(selected[i].bare) {
          failed := failed + 1;
        } else {
          bares := bares - {selected[i].bare};
        }
      }
    }

    /** The command once the candidates are known. One selected repository that is not eligible means
        that nothing is deleted. */
    method Run(cs: seq<Candidate>, args: seq<string>, confirmed: bool, fails: Path -> bool) returns (ok: bool)
      modifies this
      ensures var selected := Selected(cs, args);
              var proceeds := confirmed && selected.Some? && selected.value != []
                  && forall i :: 0 <= i < |selected.value| ==> Eligible(selected.value[i]);
              && bares == (if proceeds then old(bares) - BaresOf(selected.value, |selected.value|, fails)
                  else old(bares))
              && (ok <==> proceeds && forall i :: 0 <= i < |selected.value| ==> !fails(selected.value[i].bare))
    {
      var selectable := Inspectable(cs);
      if selectable == [] {
        NothingToFind(args, |args|);
        return false;
      }
      var selection := Select(selectable, args);
      if selection.None? || selection.value == [] {
        return false;
      }
      var selected := selection.value;
      var blocked := FirstBlocked(selected);
      if blocked < |selected| || !confirmed {
        return false;
      }
      var failed := Apply(selected, fails);
      ok := failed == 0;
    }

    /** The whole command: count the references, build the candidates, select and delete. If a root cannot be
        read nothing is deleted, and what disappears is stored in the pool, has no linked worktree and is
        referred to by no registered or current root. */
    method Collect(
      roots: Roots, registered: seq<string>, current: string, pool: Path, found: seq<Bare>,
      args: seq<string>, confirmed: bool, fails: Path -> bool)
      returns (ok: bool)
      modifies this
      ensures bares <= old(bares)
      ensures forall p :: p in old(bares) && p !in bares ==> Deletable(p, roots, registered, current, pool, found)
      ensures forall p :: p in old(bares) && p !in bares ==> NotInUse(p, roots, registered, current, pool, found)
      ensures
        (exists path :: path in RootPaths(registered) + CurrentPath(current) && !Readable(roots, path)) ==>
          bares == old(bares) && !ok
    {
      var counter := CollectRefCounts(roots, registered, current);
      if counter.None? {
        return false;
      }
      var cs := BuildCandidates(pool, found, counter.value);
      ok := Run(cs, args, confirmed, fails);
      forall p | p in old(bares) && p !in bares
        ensures Deletable(p, roots, registered, current, pool, found)
        ensures NotInUse(p, roots, registered, current, pool, found)
      {
        DeletedIsUnreferenced(counter.value, roots, registered, current, pool, found, cs, args, fails, p);
      }
    }
  }

  function Selected(cs: seq<Candidate>, args: seq<string>): Option<seq<Candidate>> {
    var selectable := Inspectable(cs);
    PickAll(token => Find(selectable, token), args, |args|)
  }

  lemma {:induction false} NothingToFind(args: seq<string>, n: nat)
    requires n <= |args|
    ensures var r := PickAll(token => Find([], token), args, n); r.Some? ==> r.value == []
  {
    if n > 0 { NothingToFind(args, n - 1); }
  }

  lemma {:induction false} SelectedIsCandidate(cs: seq<Candidate>, args: seq<string>, i: nat)
    requires Selected(cs, args).Some? && i < |Selected(cs, args).value|
    ensures Selected(cs, args).value[i] in cs
  {
    var selectable := Inspectable(cs);
    var find := token => Find(selectable, token);
    PickedIsFound(find, args, |args|, i);
    var k :| 0 <= k < |args| && Trim(args[k]) != "" && find(Trim(args[k])) == Some(Selected(cs, args).value[i]);
    FindMeans(selectable, Trim(args[k]), "");
  }

  /** From the file system to the deletion: a repository that a run may delete is one that no registered
      or current root refers to and that has no linked worktree. */
  lemma {:induction false} DeletedIsUnreferenced(
    c: Counter, roots: Roots, registered: seq<string>, current: string, pool: Path, bares: seq<Bare>,
    cs: seq<Candidate>, args: seq<string>, fails: Path -> bool, p: Path)
    requires c.seen == RootPaths(registered) + CurrentPath(current) && Counted(c, roots, CurrentPath(current))
    requires multiset(cs) == multiset(Made(pool, bares, c))
    requires Selected(cs, args).Some? && forall i :: 0 <= i < |Selected(cs, args).value| ==>
        Eligible(Selected(cs, args).value[i])
    requires p in BaresOf(Selected(cs, args).value, |Selected(cs, args).value|, fails)
    ensures Deletable(p, roots, registered, current, pool, bares)
    ensures NotInUse(p, roots, registered, current, pool, bares)
  {
    var selected := Selected(cs, args).value;
    BaresMembers(selected, |selected|, fails);
    var i :| 0 <= i < |selected| && selected[i].bare == p;
    SelectedIsCandidate(cs, args, i);
    assert selected[i] in multiset(cs);
    assert selected[i] in Made(pool, bares, c);
    MadeFrom(pool, bares, c, selected[i]);
    var b :| b in bares && selected[i] == MakeCandidate(pool, b, c.counts, c.currentCounts);
    EligibleIffUnreferenced(c, roots, registered, current, pool, b);
    assert b.path == p;
    UnreferencedIsNotInUse(p, roots, registered, current, pool, bares);
  }

  /** The path is that of a bare repository without linked worktrees that nothing refers to. */
  ghost predicate Deletable(
    p: Path, roots: Roots, registered: seq<string>, current: string, pool: Path, found: seq<Bare>) {
    exists b :: b in found && b.path == p && b.links == NoLinks && Unreferenced(b, roots, registered, current, pool)
  }

  ghost predicate Unreferenced(b: Bare, roots: Roots, registered: seq<string>, current: string, pool: Path) {
    var id := IdentityForGC(pool, b.path, b.remote);
    id.Some? && NoRefs(roots, RootPaths(registered) + CurrentPath(current), id.value.uid)
  }

  // ----- In terms of host, owner and name -----

  /** The bare repository is that of host, owner and name: by a form of its remote URL, or, when it has no
      remote URL, by its place in the pool. */
  ghost predicate IsRepo(b: Bare, pool: Path, host: string, owner: string, repo: string) {
    || (exists suffix :: IsFormOf(b.remote, host, owner, repo, suffix))
    || (&& Trim(b.remote) == "" && CleanPath(pool) && CleanName(host) && CleanName(owner) && CleanName(repo)
        && b.path == StorePath(pool, MakeSpec(host, owner, repo)))
  }

  /** No registered or current root has a restore entry for this uid. */
  ghost predicate Unmentioned(roots: Roots, registered: seq<string>, current: string, uid: string) {
    forall path :: path in RootPaths(registered) + CurrentPath(current) && path in roots ==> !Mentions(roots[path], uid)
  }

  /** The path is that of a bare repository without linked worktrees, and of whatever repository it is,
      no restore entry names it. */
  ghost predicate NotInUse(
    p: Path, roots: Roots, registered: seq<string>, current: string, pool: Path, found: seq<Bare>) {
    exists b :: b in found && b.path == p && b.links == NoLinks && RepoUnmentioned(b, roots, registered, current, pool)
  }

  ghost predicate RepoUnmentioned(b: Bare, roots: Roots, registered: seq<string>, current: string, pool: Path) {
    forall host, owner, repo :: IsRepo(b, pool, host, owner, repo) ==>
      Unmentioned(roots, registered, current, host + "/" + owner + "/" + repo)
  }

  lemma {:induction false} IdentityOfRepo(b: Bare, pool: Path, host: string, owner: string, repo: string)
    requires IsRepo(b, pool, host, owner, repo)
    ensures var id := IdentityForGC(pool, b.path, b.remote); id.Some? && id.value.uid == host + "/" + owner + "/" + repo
  {
    if suffix :| IsFormOf(b.remote, host, owner, repo, suffix) {
      RemoteIdentity(pool, b.path, b.remote, host, owner, repo, suffix);
    } else {
      StorePathIdentity(pool, MakeSpec(host, owner, repo), b.remote);
    }
  }

  lemma {:induction false} UnreferencedIsNotInUse(
    p: Path, roots: Roots, registered: seq<string>, current: string, pool: Path, found: seq<Bare>)
    requires Deletable(p, roots, registered, current, pool, found)
    ensures NotInUse(p, roots, registered, current, pool, found)
  {
    var b :| b in found && b.path == p && b.links == NoLinks && Unreferenced(b, roots, registered, current, pool);
    forall host, owner, repo | IsRepo(b, pool, host, owner, repo)
      ensures Unmentioned(roots, registered, current, host + "/" + owner + "/" + repo)
    {
      IdentityOfRepo(b, pool, host, owner, repo);
      NoRefsUnmentioned(roots, registered, current, host + "/" + owner + "/" + repo);
    }
  }

  lemma {:induction false} NoRefsUnmentioned(roots: Roots, registered: seq<string>, current: string, uid: string)
    requires NoRefs(roots, RootPaths(registered) + CurrentPath(current), uid)
    ensures Unmentioned(roots, registered, current, uid)
  {
    forall path | path in RootPaths(registered) + CurrentPath(current) && path in roots
      ensures !Mentions(roots[path], uid)
    {
      RefsMeans(roots[path], uid);
      assert Refs(roots, path, uid) == 0;
    }
  }
}
