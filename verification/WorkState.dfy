/** The derived work state of a workspace and its cache (internal/cli/workspace_workstate.go,
    internal/cli/ws_list.go). */
module WorkState {
  import opened Text
  import opened GitStatus
  import opened WorkspaceRisk

  datatype WorkState = Todo | InProgress

  datatype Baseline = Baseline(heads: map<string, string>, hashes: map<string, string>)

  datatype BaselineFile = Absent | Unreadable | Present(baseline: Baseline)

  /** What one look at a workspace sees: its repositories, the answers of `git status` and
      `git rev-parse HEAD` in each worktree, and the digests of the files outside repos/,
      None when the files cannot be walked. */
  datatype View = View(
    repos: seq<Repo>, status: string -> Option<string>, head: string -> Option<string>,
    digests: Option<map<string, string>>)

  function Hashes(digests: map<string, string>): map<string, string> {
    map path | path in digests :: "sha256:" + digests[path]
  }

  // ----- Repositories against the baseline -----

  function Aliases(repos: seq<Repo>): set<string> {
    set r | r in repos && Trim(r.alias) != "" :: Trim(r.alias)
  }

  /** The worktree is present, readable, clean and at the head that the baseline records. */
  predicate AtBaseline(r: Repo, v: View, heads: map<string, string>) {
    var alias := Trim(r.alias);
    var s := Inspect(alias, v.status);
    && !r.missing && s.Success? && !s.value.dirty
    && alias in heads && Trim(heads[alias]) != ""
    && v.head(alias).Some? && Trim(v.head(alias).value) == Trim(heads[alias])
  }

  predicate ReposMatch(v: View, heads: map<string, string>) {
    && Aliases(v.repos) == heads.Keys
    && forall r :: r in v.repos && Trim(r.alias) != "" ==> AtBaseline(r, v, heads)
  }

  /** Two maps agree as the comparison loop sees it: equal sizes, and equal answers for every path of
      the second, a missing path answering the empty string. */
  predicate FilesAgree(current: map<string, string>, base: map<string, string>) {
    |current| == |base| && forall path :: path in base ==> (if path in current then current[path] else "") == base[path]
  }

  /** The alias of one repository, none if it is blank. */
  function AliasOf(r: Repo): set<string> {
    if Trim(r.alias) == "" then {} else {Trim(r.alias)}
  }

  lemma {:induction false} AliasesNext(repos: seq<Repo>, i: nat)
    requires i < |repos|
    ensures Aliases(repos[..i + 1]) == Aliases(repos[..i]) + AliasOf(repos[i])
  {
    var a, b := repos[..i + 1], repos[..i];
    assert a == b + [repos[i]];
    forall x ensures x in Aliases(a) <==> x in Aliases(b) + AliasOf(repos[i]) {
      if x in Aliases(b) {
        var r :| r in b && Trim(r.alias) != "" && Trim(r.alias) == x;
        assert r in a;
      }
      if Trim(repos[i].alias) == x != "" { assert repos[i] in a; }
    }
  }

  method HasRepoSignalsChanged(v: View, heads: map<string, string>) returns (changed: bool)
    ensures !changed <==> ReposMatch(v, heads)
  {
    var seen := AllAtBaseline(v, heads);
    if seen.None? {
      return true;
    }
    var pending := heads.Keys;
    while pending != {}
      invariant pending <= heads.Keys && heads.Keys - pending <= seen.value
      decreases |pending|
    {
      var alias :| alias in pending;
      if alias !in seen.value {
        return true;
      }
      pending := pending - {alias};
    }
    return false;
  }

  /** The loop over the repositories, which collects their aliases and stops at the first change. */
  method AllAtBaseline(v: View, heads: map<string, string>) returns (seen: Option<set<string>>)
    ensures seen.Some? <==> forall r :: r in v.repos && Trim(r.alias) != "" ==> AtBaseline(r, v, heads)
    ensures seen.Some? ==> seen.value == Aliases(v.repos) && seen.value <= heads.Keys
  {
    var repos, aliases := v.repos, {};
    ghost var at := (r: Repo) => Trim(r.alias) != "" ==> AtBaseline(r, v, heads);
    for i := 0 to |repos|
      invariant aliases == Aliases(repos[..i]) && aliases <= heads.Keys
      invariant forall j :: 0 <= j < i ==> at(repos[j])
    {
      AliasesNext(repos, i);
      var alias := Trim(repos[i].alias);
      if alias != "" {
        aliases := aliases + {alias};
        var ok := IsAtBaseline(repos[i], alias, v, heads);
        if !ok {
          assert repos[i] in repos;
          return None;
        }
      }
      assert at(repos[i]);
    }
    assert repos[..|repos|] == repos;
    return Some(aliases);
  }

  /** The checks of one repository. Once the head has moved, whatever counting the commits answers
      reports a change. */
  method IsAtBaseline(r: Repo, alias: string, v: View, heads: map<string, string>) returns (ok: bool)
    requires alias == Trim(r.alias)
    ensures ok <==> AtBaseline(r, v, heads)
  {
    if r.missing {
      return false;
    }
    var s := Inspect(alias, v.status);
    if s.Failure? || s.value.dirty {
      return false;
    }
    var head := v.head(alias);
    if head.None? {
      return false;
    }
    if alias !in heads || Trim(heads[alias]) == "" {
      return false;
    }
    return Trim(head.value) == Trim(heads[alias]);
  }

  method HasFilesChanged(current: map<string, string>, base: map<string, string>) returns (changed: bool)
    ensures !changed <==> FilesAgree(current, base)
  {
    if |current| != |base| {
      return true;
    }
    var pending := base.Keys;
    while pending != {}
      invariant pending <= base.Keys
      invariant forall path :: path in base.Keys - pending ==>
          (if path in current then current[path] else "") == base[path]
      decreases |pending|
    {
      var path :| path in pending;
      if (if path in current then current[path] else "") != base[path] {
        return true;
      }
      pending := pending - {path};
    }
    return false;
  }

  lemma {:induction false} SubsetOfSameSize(a: set<string>, b: set<string>)
    requires a <= b && |a| == |b|
    ensures a == b
  {
    assert |b - a| == |b| - |a|;
  }

  /** When the recorded hashes are nonempty the loop compares whole maps, though it walks one of them. */
  lemma {:induction false} FilesAgreeIffEqual(current: map<string, string>, base: map<string, string>)
    requires forall path :: path in base ==> base[path] != ""
    ensures FilesAgree(current, base) <==> current == base
  {
    if FilesAgree(current, base) {
      assert base.Keys <= current.Keys;
      assert |base.Keys| == |base| && |current.Keys| == |current|;
      SubsetOfSameSize(base.Keys, current.Keys);
    }
  }

  lemma {:induction false} LongerThanAll(keys: set<string>) returns (q: string)
    ensures forall k :: k in keys ==> |k| < |q|
    decreases |keys|
  {
    if keys == {} {
      q := "";
    } else {
      var x :| x in keys;
      var rest := LongerThanAll(keys - {x});
      q := rest + x + "a";
    }
  }

  /** A file that takes the place of one with an empty recorded hash goes unnoticed. */
  lemma {:induction false} EmptyHashHides(base: map<string, string>, path: string)
    requires path in base && base[path] == ""
    ensures exists current :: FilesAgree(current, base) && current != base
  {
    var q := LongerThanAll(base.Keys);
    var kept := base - {path};
    var current := kept[q := "x"];
    assert |kept.Keys| == |base.Keys| - 1 by { assert kept.Keys == base.Keys - {path}; }
    assert current.Keys == kept.Keys + {q};
    assert |current| == |current.Keys| && |base| == |base.Keys|;
    assert path !in current && q in current && q !in base;
    assert FilesAgree(current, base);
  }

  /** The comparison is equality of the maps for every current state if and only if no recorded hash is empty. */
  lemma {:induction false} FilesAgreeIsEqualityIff(base: map<string, string>)
    ensures (forall current :: FilesAgree(current, base) <==> current == base) <==> forall path :: path in base ==>
        base[path] != ""
  {
    if forall path :: path in base ==> base[path] != "" {
      forall current ensures FilesAgree(current, base) <==> current == base { FilesAgreeIffEqual(current, base); }
    } else {
      var path :| path in base && base[path] == "";
      EmptyHashHides(base, path);
    }
  }

  lemma {:induction false} HashesDetermineDigests(a: map<string, string>, b: map<string, string>)
    ensures Hashes(a) == Hashes(b) <==> a == b
  {
    if Hashes(a) == Hashes(b) {
      assert a.Keys == Hashes(a).Keys == Hashes(b).Keys == b.Keys;
      forall path | path in a ensures a[path] == b[path] {
        assert Hashes(a)[path] == Hashes(b)[path];
        assert ("sha256:" + a[path])[7..] == a[path] && ("sha256:" + b[path])[7..] == b[path];
      }
    }
  }

  // ----- Deriving the state -----

  predicate AllClean(v: View) {
    forall i :: 0 <= i < |v.repos| ==> RepoIsClean(v.repos[i], v.status)
  }

  /** Todo needs a baseline that everything still matches, or no baseline and a clean workspace. */
  predicate Untouched(file: BaselineFile, v: View) {
    match file
    case Absent => AllClean(v)
    case Unreadable => false
    case Present(b) => ReposMatch(v, b.heads) && v.digests.Some? && FilesAgree(Hashes(v.digests.value), b.hashes)
  }

  /** An error counts as in progress. It is one if the baseline cannot be read, or the files cannot be and
      the repositories alone do not decide. */
  method DeriveState(file: BaselineFile, v: View) returns (r: Result<WorkState>)
    ensures r == Success(Todo) <==> Untouched(file, v)
    ensures r.Failure? <==>
            file.Unreadable? || (file.Present? && ReposMatch(v, file.baseline.heads) && v.digests.None?)
  {
    match file
    case Absent =>
      var risk, _ := InspectRisk(v.repos, v.status);
      return Success(if risk == Clean then Todo else InProgress);
    case Unreadable =>
      return Failure("load baseline");
    case Present(b) =>
      var changed := HasRepoSignalsChanged(v, b.heads);
      if changed {
        return Success(InProgress);
      }
      if v.digests.None? {
        return Failure("collect file hashes");
      }
      var filesChanged := HasFilesChanged(Hashes(v.digests.value), b.hashes);
      return Success(if filesChanged then InProgress else Todo);
  }

  // ----- Refreshing the baseline -----

  predicate Recordable(r: Repo, v: View) {
    var alias := Trim(r.alias);
    alias != "" && !r.missing && v.head(alias).Some? && Trim(v.head(alias).value) != ""
  }

  /** A repository with this alias can be recorded. */
  ghost predicate Named(v: View, repos: seq<Repo>, a: string) {
    exists r :: r in repos && Recordable(r, v) && Trim(r.alias) == a
  }

  /** The map holds exactly the recordable repositories, each with its head. */
  ghost predicate RecordsHeads(v: View, repos: seq<Repo>, heads: map<string, string>) {
    && (forall a :: a in heads <==> Named(v, repos, a))
    && (forall a :: a in heads ==> v.head(a).Some? && heads[a] == Trim(v.head(a).value) != "")
  }

  lemma {:induction false} NamedNext(v: View, repos: seq<Repo>, r: Repo, a: string)
    ensures Named(v, repos + [r], a) <==> Named(v, repos, a) || (Recordable(r, v) && Trim(r.alias) == a)
  {
    if Named(v, repos, a) {
      var q :| q in repos && Recordable(q, v) && Trim(q.alias) == a;
      assert q in repos + [r];
    }
    if Recordable(r, v) && Trim(r.alias) == a { assert r in repos + [r]; }
  }

  lemma {:induction false} RecordNext(v: View, repos: seq<Repo>, r: Repo, heads: map<string, string>)
    requires RecordsHeads(v, repos, heads)
    ensures RecordsHeads(v, repos + [r], if Recordable(r, v)
        then heads[Trim(r.alias) := Trim(v.head(Trim(r.alias)).value)] else heads)
  {
    var after := if Recordable(r, v) then heads[Trim(r.alias) := Trim(v.head(Trim(r.alias)).value)] else heads;
    forall a ensures a in after <==> Named(v, repos + [r], a) { NamedNext(v, repos, r, a); }
  }

  method CaptureHeads(v: View) returns (heads: map<string, string>)
    ensures RecordsHeads(v, v.repos, heads)
  {
    heads := map[];
    for i := 0 to |v.repos|
      invariant RecordsHeads(v, v.repos[..i], heads)
    {
      RecordNext(v, v.repos[..i], v.repos[i], heads);
      assert v.repos[..i + 1] == v.repos[..i] + [v.repos[i]];
      var alias := Trim(v.repos[i].alias);
      if alias != "" && !v.repos[i].missing && v.head(alias).Some? && Trim(v.head(alias).value) != "" {
        heads := heads[alias := Trim(v.head(alias).value)];
      }
    }
    assert v.repos[..|v.repos|] == v.repos;
  }

  /** A baseline file that a refresh over the view writes. */
  ghost predicate Captures(b: Baseline, v: View) {
    RecordsHeads(v, v.repos, b.heads) && v.digests.Some? && b.hashes == Hashes(v.digests.value)
  }

  method CaptureBaseline(v: View) returns (r: Option<Baseline>)
    ensures r.Some? <==> v.digests.Some?
    ensures r.Some? ==> Captures(r.value, v)
  {
    if v.digests.None? {
      return None;
    }
    var heads := CaptureHeads(v);
    return Some(Baseline(heads, Hashes(v.digests.value)));
  }

  /** Against a refreshed baseline, untouched means: the repositories recorded then are the ones listed
      now, each present, clean and at the head it had, and every file has the content it had. */
  lemma {:induction false} UntouchedSinceRefresh(b: Baseline, then_: View, now: View)
    requires Captures(b, then_)
    ensures Untouched(Present(b), now) <==>
            ReposMatch(now, b.heads) && now.digests == then_.digests
  {
    assert forall path :: path in b.hashes ==> b.hashes[path] != "" by {
      assert forall path :: path in b.hashes ==> |b.hashes[path]| >= 7;
    }
    if now.digests.Some? {
      FilesAgreeIffEqual(Hashes(now.digests.value), b.hashes);
      HashesDetermineDigests(now.digests.value, then_.digests.value);
    }
  }

  /** A workspace looked at just as it was when refreshed is untouched exactly when each of its
      repositories was present, readable, clean and had a head. */
  lemma {:induction false} RefreshThenLook(b: Baseline, v: View)
    requires Captures(b, v)
    ensures Untouched(Present(b), v) <==>
            forall r :: r in v.repos && Trim(r.alias) != "" ==>
              var s := Inspect(Trim(r.alias), v.status); Recordable(r, v) && s.Success? && !s.value.dirty
  {
    UntouchedSinceRefresh(b, v, v);
    if forall r :: r in v.repos && Trim(r.alias) != "" ==>
        (var s := Inspect(Trim(r.alias), v.status); Recordable(r, v) && s.Success? && !s.value.dirty) {
      AllRecorded(b, v);
    } else {
      var r :| r in v.repos && Trim(r.alias) != ""
          && !(var s := Inspect(Trim(r.alias), v.status); Recordable(r, v) && s.Success? && !s.value.dirty);
      assert !AtBaseline(r, v, b.heads);
    }
  }

  lemma {:induction false} AllRecorded(b: Baseline, v: View)
    requires Captures(b, v)
    requires forall r :: r in v.repos && Trim(r.alias) != "" ==>
               var s := Inspect(Trim(r.alias), v.status); Recordable(r, v) && s.Success? && !s.value.dirty
    ensures ReposMatch(v, b.heads)
  {
    forall r | r in v.repos && Trim(r.alias) != "" ensures Trim(r.alias) in b.heads && AtBaseline(r, v, b.heads) {
      assert Recordable(r, v) && Named(v, v.repos, Trim(r.alias));
      TrimIsTrimmed(v.head(Trim(r.alias)).value);
      TrimOfTrimmed(b.heads[Trim(r.alias)]);
    }
    forall a | a in b.heads ensures a in Aliases(v.repos) {
      assert Named(v, v.repos, a);
      var r :| r in v.repos && Recordable(r, v) && Trim(r.alias) == a;
    }
  }
}
