/** Repository identity: remote URLs, specs and store paths (internal/core/repospec/normalize.go,
    internal/core/repostore/store_path.go, internal/cli/repo_gc.go, internal/cli/ws_add_repo.go). */
module RepoSpec {
  import opened Text

  datatype Spec = Spec(host: string, owner: string, repo: string, key: string)

  /** A cleaned file path, one string for each component. */
  type Path = seq<string>

  /** The path as written. */
  function PathText(p: Path): string {
    if p == [] then "" else "/" + p[0] + PathText(p[1..])
  }

  // ----- Normalize -----

  const GIT := ".git"

  function SplitOwnerRepo(path: string): Result<(string, string)> {
    var trimmed := TrimChar(path, '/');
    if trimmed == "" then Failure("repo path is empty")
    else
      var parts := Split(trimmed, '/');
      if |parts| != 2 then Failure("repo path must be <owner>/<repo>")
      else
        var owner, repo := parts[0], TrimSuffix(parts[1], GIT);
        if owner == "" || repo == "" then Failure("owner/repo cannot be empty")
        else Success((owner, repo))
  }

  /** Host and path of a URL, after its scheme and "//". This is what url.Parse gives for plain components
      only; see `Plain`. */
  function UrlHostPath(rest: string): (string, string) {
    var i := IndexOf(rest, '/');
    (rest[..i], rest[i..])
  }

  function HostPath(trimmed: string): Result<(string, string)> {
    if "git@" <= trimmed then
      var colon := IndexOf(trimmed, ':');
      if colon == |trimmed| then Failure("invalid ssh repo spec")
      else if colon < 4 then Failure("invalid ssh repo spec")
      else Success((trimmed[4..colon], trimmed[colon + 1..]))
    else if "https://" <= trimmed then
      var (host, path) := UrlHostPath(trimmed[8..]);
      Success((host, if path != "" then path[1..] else ""))
    else if "file://" <= trimmed then
      var (_, path) := UrlHostPath(trimmed[7..]);
      var parts := Split(TrimChar(path, '/'), '/');
      var n := |parts|;
      if n < 3 then Failure("file repo spec must end with <host>/<owner>/<repo>")
      else Success((parts[n - 3], parts[n - 2] + "/" + parts[n - 1]))
    else Failure("repo spec must be ssh, https, or file")
  }

  function MakeSpec(host: string, owner: string, repo: string): Spec {
    Spec(host, owner, repo, host + "/" + owner + "/" + repo)
  }

  function Normalize(input: string): Result<Spec> {
    var trimmed := Trim(input);
    if trimmed == "" then Failure("repo spec is empty")
    else
      match HostPath(trimmed)
      case Failure(e) => Failure(e)
      case Success((host, path)) =>
        match SplitOwnerRepo(path)
        case Failure(e) => Failure(e)
        case Success((owner, repo)) =>
          if host == "" then Failure("host is required in repo spec") else Success(MakeSpec(host, owner, repo))
  }

  // ----- Store paths -----

  /** filepath.Join: empty and "." components vanish, ".." removes the one before. */
  function Clean(parts: seq<string>): Path {
    if parts == [] then []
    else
      var before := Clean(parts[..|parts| - 1]);
      var last := parts[|parts| - 1];
      if last == "" || last == "." then before
      else if last == ".." && before != [] then before[..|before| - 1]
      else if last == ".." then []
      else before + [last]
  }

  function StorePath(pool: Path, spec: Spec): Path {
    Clean(pool + Split(spec.host, '/') + Split(spec.owner, '/') + Split(spec.repo + GIT, '/'))
  }

  /** filepath.Rel for a path below the pool. */
  function Below(pool: Path, bare: Path): Option<Path> {
    if pool <= bare then Some(bare[|pool|..]) else None
  }

  function RepoUid(host: string, owner: string, repo: string): string {
    host + "/" + owner + "/" + repo
  }

  datatype Identity = Identity(uid: string, key: string)

  function Identify(host: string, owner: string, repo: string): Identity {
    Identity(RepoUid(host, owner, repo), owner + "/" + repo)
  }

  /** Identity of a bare repository: from its remote, else from where it is stored. */
  function IdentityForGC(pool: Path, bare: Path, rawRemote: string): Option<Identity> {
    var remote := Trim(rawRemote);
    var spec := Normalize(remote);
    if remote != "" && spec.Success? then Some(Identify(spec.value.host, spec.value.owner, spec.value.repo))
    else
      match Below(pool, bare)
      case None => None
      case Some(parts) =>
        if |parts| != 3 then None
        else
          var host, owner, repoGit := Trim(parts[0]), Trim(parts[1]), Trim(parts[2]);
          if host == "" || owner == "" || !HasSuffix(repoGit, GIT) then None
          else
            var repo := TrimSuffix(repoGit, GIT);
            if Trim(repo) == "" then None else Some(Identify(host, owner, repo))
  }

  /** The workspace alias of a candidate: the last component of its key. */
  function DeriveAlias(repoKey: string): string {
    var parts := Split(Trim(repoKey), '/');
    parts[|parts| - 1]
  }

  // ----- Agreement of the written forms -----

  predicate CleanName(s: string) {
    s != "" && '/' !in s && Trimmed(s) && s != "." && s != ".."
  }

  /** Components that the forms can be printed from and read back. */
  predicate Printable(host: string, owner: string, repo: string) {
    && CleanName(host) && ':' !in host
    && CleanName(owner)
    && CleanName(repo) && !HasSuffix(repo, GIT)
  }

  predicate PlainHostChar(c: char) {
    'a' <= c <= 'z' || 'A' <= c <= 'Z' || '0' <= c <= '9' || c == '-' || c == '.' || c == '_' || c == '~'
  }

  predicate PlainPathChar(c: char) {
    c != '?' && c != '#' && c != '%' && 0x20 <= c as int != 0x7F
  }

  /** Components that url.Parse leaves alone: no user, port, escape, query, fragment or control character. */
  predicate Plain(host: string, owner: string, repo: string) {
    && (forall i :: 0 <= i < |host| ==> PlainHostChar(host[i]))
    && (forall i :: 0 <= i < |owner| ==> PlainPathChar(owner[i]))
    && (forall i :: 0 <= i < |repo| ==> PlainPathChar(repo[i]))
  }

  function SshForm(host: string, owner: string, repo: string, suffix: string): string {
    "git@" + host + ":" + owner + "/" + repo + suffix
  }

  function HttpsForm(host: string, owner: string, repo: string, suffix: string): string {
    "https://" + host + "/" + owner + "/" + repo + suffix
  }

  lemma {:induction false} GitSuffixTrims(repo: string, suffix: string)
    requires repo != "" && !HasSuffix(repo, GIT) && suffix in ["", GIT]
    ensures TrimSuffix(repo + suffix, GIT) == repo
  {
    if suffix == GIT {
      assert (repo + GIT)[|repo|..] == GIT && (repo + GIT)[..|repo|] == repo;
    } else {
      assert repo + suffix == repo;
    }
  }

  lemma {:induction false} SplitPrintedPath(owner: string, repo: string, suffix: string)
    requires CleanName(owner) && CleanName(repo) && !HasSuffix(repo, GIT) && suffix in ["", GIT]
    ensures SplitOwnerRepo(owner + "/" + repo + suffix) == Success((owner, repo))
  {
    var last := repo + suffix;
    var path := owner + "/" + last;
    assert owner + "/" + repo + suffix == path;
    assert '/' !in last && last[|last| - 1] != '/';
    assert path[0] == owner[0] && path[|path| - 1] == last[|last| - 1];
    assert TrimChar(path, '/') == path;
    SplitFirst(owner, '/', last);
    SplitFirst(last, '/', "");
    GitSuffixTrims(repo, suffix);
  }

  lemma {:induction false} PrintedIsTrimmed(prefix: string, repo: string, suffix: string)
    requires prefix != "" && !IsSpace(prefix[0]) && CleanName(repo) && suffix in ["", GIT]
    ensures Trim(prefix + repo + suffix) == prefix + repo + suffix
  {
    var s := prefix + repo + suffix;
    if suffix == "" { assert s[|s| - 1] == repo[|repo| - 1]; } else { assert s[|s| - 1] == 't'; }
    assert s[0] == prefix[0];
    TrimOfTrimmed(s);
  }

  lemma {:induction false} SshHostPath(host: string, path: string)
    requires ':' !in host
    ensures HostPath("git@" + host + ":" + path) == Success((host, path))
  {
    var before := "git@" + host;
    var s := before + ":" + path;
    IndexOfFirst(before, ':', path);
    assert s[|before| + 1..] == path;
    assert s[..|before|] == before;
    assert s[4..|before|] == before[4..] == host;
  }

  lemma {:induction false} HttpsHostPath(host: string, path: string)
    requires '/' !in host
    ensures HostPath("https://" + host + "/" + path) == Success((host, path))
  {
    var rest := host + "/" + path;
    var s := "https://" + host + "/" + path;
    assert s == "https://" + rest;
    assert s[0] == 'h' && s[8..] == rest;
    IndexOfFirst(host, '/', path);
    assert rest[..|host|] == host && rest[|host|..][1..] == path;
  }

  lemma {:induction false} SshNormalizes(host: string, owner: string, repo: string, suffix: string)
    requires Printable(host, owner, repo) && suffix in ["", GIT]
    ensures Normalize(SshForm(host, owner, repo, suffix)) == Success(MakeSpec(host, owner, repo))
  {
    var path := owner + "/" + repo + suffix;
    PrintedIsTrimmed("git@" + host + ":" + owner + "/", repo, suffix);
    assert SshForm(host, owner, repo, suffix) == "git@" + host + ":" + path;
    SshHostPath(host, path);
    SplitPrintedPath(owner, repo, suffix);
  }

  lemma {:induction false} HttpsNormalizes(host: string, owner: string, repo: string, suffix: string)
    requires Printable(host, owner, repo) && Plain(host, owner, repo) && suffix in ["", GIT]
    ensures Normalize(HttpsForm(host, owner, repo, suffix)) == Success(MakeSpec(host, owner, repo))
  {
    var path := owner + "/" + repo + suffix;
    PrintedIsTrimmed("https://" + host + "/" + owner + "/", repo, suffix);
    assert HttpsForm(host, owner, repo, suffix) == "https://" + host + "/" + path;
    HttpsHostPath(host, path);
    SplitPrintedPath(owner, repo, suffix);
  }

  /** A repository below a directory of this machine. */
  function FileForm(dir: Path, host: string, owner: string, repo: string, suffix: string): string {
    "file://" + PathText(dir + [host, owner, repo + suffix])
  }

  ghost predicate PathNames(p: Path) {
    forall i :: 0 <= i < |p| ==> p[i] != "" && '/' !in p[i]
  }

  lemma {:induction false} SplitPathText(p: Path)
    requires p != [] && PathNames(p)
    ensures PathText(p) != "" && PathText(p)[0] == '/' && Split(PathText(p)[1..], '/') == p
  {
    var rest := PathText(p[1..]);
    assert PathText(p)[1..] == p[0] + rest;
    if |p| == 1 {
      SplitFirst(p[0], '/', "");
      assert p[0] + rest == p[0];
    } else {
      SplitPathText(p[1..]);
      assert rest == "/" + rest[1..];
      assert p[0] + rest == p[0] + "/" + rest[1..];
      SplitFirst(p[0], '/', rest[1..]);
      assert p == [p[0]] + p[1..];
    }
  }

  lemma {:induction false} PathTextAppend(p: Path, last: string)
    ensures PathText(p + [last]) == PathText(p) + "/" + last
  {
    if p == [] {
      assert [last][1..] == [];
      assert PathText([last]) == "/" + last + "";
    } else {
      assert (p + [last])[1..] == p[1..] + [last];
      PathTextAppend(p[1..], last);
    }
  }

  /** Of a file path, only the slash at its front is trimmed. */
  lemma {:induction false} FileHostPath(p: Path)
    requires |p| >= 3 && PathNames(p)
    ensures HostPath("file://" + PathText(p)) == Success((p[|p| - 3], p[|p| - 2] + "/" + p[|p| - 1]))
  {
    var text, n := PathText(p), |p|;
    var s := "file://" + text;
    SplitPathText(p);
    OnlyTheFrontSlash(p);
    assert s[7..] == text && s[0] == 'f' && IndexOf(text, '/') == 0;
  }

  lemma {:induction false} OnlyTheFrontSlash(p: Path)
    requires p != [] && PathNames(p)
    ensures PathText(p) != "" && TrimChar(PathText(p), '/') == PathText(p)[1..]
  {
    var text, n := PathText(p), |p|;
    PathTextAppend(p[..n - 1], p[n - 1]);
    assert p == p[..n - 1] + [p[n - 1]];
    assert text[1] == p[0][0] && text[|text| - 1] == p[n - 1][|p[n - 1]| - 1];
    assert TrimCharLeft(text, '/') == text[1..];
  }

  lemma {:induction false} FileFormEnds(dir: Path, host: string, owner: string, repo: string, suffix: string)
    ensures FileForm(dir, host, owner, repo, suffix)
         == "file://" + PathText(dir + [host, owner]) + "/" + repo + suffix
    ensures FileForm(dir, host, owner, repo, suffix) == "file://" + PathText(dir + [host, owner] + [repo + suffix])
  {
    assert dir + [host, owner, repo + suffix] == dir + [host, owner] + [repo + suffix];
    PathTextAppend(dir + [host, owner], repo + suffix);
  }

  /** The directory and the components are read by url.Parse as written. */
  ghost predicate PlainPath(dir: Path, host: string, owner: string, repo: string) {
    && PathNames(dir) && (forall i :: 0 <= i < |dir| ==> Plain("", dir[i], ""))
    && Plain("", host, owner) && Plain("", "", repo)
  }

  lemma {:induction false} FileNormalizes(dir: Path, host: string, owner: string, repo: string, suffix: string)
    requires PlainPath(dir, host, owner, repo) && Printable(host, owner, repo) && suffix in ["", GIT]
    ensures Normalize(FileForm(dir, host, owner, repo, suffix)) == Success(MakeSpec(host, owner, repo))
  {
    FileFormEnds(dir, host, owner, repo, suffix);
    PrintedIsTrimmed("file://" + PathText(dir + [host, owner]) + "/", repo, suffix);
    var p := dir + [host, owner] + [repo + suffix];
    assert p[|p| - 1] == repo + suffix && p[|p| - 2] == owner && p[|p| - 3] == host;
    FileHostPath(p);
    SplitPrintedPath(owner, repo, suffix);
    assert owner + "/" + (repo + suffix) == owner + "/" + repo + suffix;
  }

  /** What is accepted has a host, and an owner and a name without slashes, and its key is made of the three. */
  lemma {:induction false} NormalizedIsWhole(input: string)
    ensures var r := Normalize(input);
            r.Success? ==>
              && var spec := r.value;
                 && spec.host != "" && spec.owner != "" && spec.repo != "" && '/' !in spec.owner && '/' !in spec.repo
                 && spec.key == spec.host + "/" + spec.owner + "/" + spec.repo
  {
    var r := Normalize(input);
    if r.Success? {
      var (_, path) := HostPath(Trim(input)).value;
      SplitHasNone(TrimChar(path, '/'), '/');
    }
  }

  lemma {:induction false} SplitHasNone(s: string, c: char)
    ensures forall i :: 0 <= i < |Split(s, c)| ==> c !in Split(s, c)[i]
    decreases |s|
  {
    var i := IndexOf(s, c);
    BeforeIndex(s, c);
    if i < |s| { SplitHasNone(s[i + 1..], c); }
  }

  lemma {:induction false} BeforeIndex(s: string, c: char)
    ensures c !in s[..IndexOf(s, c)]
  {
    if s != "" && s[0] != c {
      BeforeIndex(s[1..], c);
      assert s[..IndexOf(s, c)] == [s[0]] + s[1..][..IndexOf(s[1..], c)];
    }
  }

  lemma {:induction false} SplitCutName(owner: string, repo: string)
    requires CleanName(owner) && CleanName(repo) && HasSuffix(repo, GIT)
    ensures var r := SplitOwnerRepo(owner + "/" + repo); r.Success? ==> |r.value.1| < |repo|
  {
    var path := owner + "/" + repo;
    assert path[0] == owner[0] && path[|path| - 1] == repo[|repo| - 1];
    assert TrimChar(path, '/') == path;
    SplitFirst(owner, '/', repo);
    SplitFirst(repo, '/', "");
  }

  /** Without a suffix the form reads back as the same repository exactly when its own name does not
      end in ".git"; for the https form, among plain components. */
  lemma {:induction false} ReadsBackIff(host: string, owner: string, repo: string)
    requires CleanName(host) && ':' !in host && CleanName(owner) && CleanName(repo)
    ensures Normalize(SshForm(host, owner, repo, "")) == Success(MakeSpec(host, owner, repo)) <==> !HasSuffix(repo, GIT)
    ensures Plain(host, owner, repo) ==>
              (Normalize(HttpsForm(host, owner, repo, "")) == Success(MakeSpec(host, owner, repo)) <==>
                  !HasSuffix(repo, GIT))
  {
    if HasSuffix(repo, GIT) {
      SshCutName(host, owner, repo);
      HttpsCutName(host, owner, repo);
    } else {
      SshNormalizes(host, owner, repo, "");
      if Plain(host, owner, repo) { HttpsNormalizes(host, owner, repo, ""); }
    }
  }

  lemma {:induction false} SshCutName(host: string, owner: string, repo: string)
    requires CleanName(host) && ':' !in host && CleanName(owner) && CleanName(repo) && HasSuffix(repo, GIT)
    ensures Normalize(SshForm(host, owner, repo, "")) != Success(MakeSpec(host, owner, repo))
  {
    var path := owner + "/" + repo;
    PrintedIsTrimmed("git@" + host + ":" + owner + "/", repo, "");
    assert SshForm(host, owner, repo, "") == "git@" + host + ":" + path;
    SshHostPath(host, path);
    SplitCutName(owner, repo);
  }

  lemma {:induction false} HttpsCutName(host: string, owner: string, repo: string)
    requires CleanName(host) && CleanName(owner) && CleanName(repo) && HasSuffix(repo, GIT)
    ensures Normalize(HttpsForm(host, owner, repo, "")) != Success(MakeSpec(host, owner, repo))
  {
    var path := owner + "/" + repo;
    PrintedIsTrimmed("https://" + host + "/" + owner + "/", repo, "");
    assert HttpsForm(host, owner, repo, "") == "https://" + host + "/" + path;
    HttpsHostPath(host, path);
    SplitCutName(owner, repo);
  }

  // ----- Reading a spec back from its store path -----

  predicate CleanPath(p: Path) {
    forall i :: 0 <= i < |p| ==> p[i] != "" && p[i] != "." && p[i] != ".."
  }

  lemma {:induction false} CleanOfClean(p: Path)
    requires CleanPath(p)
    ensures Clean(p) == p
  {
    if p != [] {
      CleanOfClean(p[..|p| - 1]);
      assert p == p[..|p| - 1] + [p[|p| - 1]];
    }
  }

  lemma {:induction false} StorePathParts(pool: Path, spec: Spec)
    requires CleanPath(pool) && CleanName(spec.host) && CleanName(spec.owner) && CleanName(spec.repo)
    ensures StorePath(pool, spec) == pool + [spec.host, spec.owner, spec.repo + GIT]
  {
    SplitFirst(spec.host, '/', "");
    SplitFirst(spec.owner, '/', "");
    SplitFirst(spec.repo + GIT, '/', "");
    var p := pool + [spec.host, spec.owner, spec.repo + GIT];
    assert |spec.repo + GIT| > 4;
    CleanOfClean(p);
    assert pool + [spec.host] + [spec.owner] + [spec.repo + GIT] == p;
  }

  /** The identity read from where a repository is stored is the identity of its spec. */
  lemma {:induction false} StorePathIdentity(pool: Path, spec: Spec, remote: string)
    requires CleanPath(pool) && CleanName(spec.host) && CleanName(spec.owner) && CleanName(spec.repo)
    requires Trim(remote) == ""
    ensures IdentityForGC(pool, StorePath(pool, spec), remote) ==
            Some(Identity(spec.host + "/" + spec.owner + "/" + spec.repo, spec.owner + "/" + spec.repo))
  {
    StorePathParts(pool, spec);
    var bare := StorePath(pool, spec);
    assert bare[|pool|..] == [spec.host, spec.owner, spec.repo + GIT];
    var last := spec.repo + GIT;
    assert last[|spec.repo|..] == GIT && last[..|spec.repo|] == spec.repo;
    assert last[0] == spec.repo[0] && last[|last| - 1] == 't';
    TrimOfTrimmed(spec.host);
    TrimOfTrimmed(spec.owner);
    TrimOfTrimmed(spec.repo);
    TrimOfTrimmed(last);
  }

  /** A remote URL that is one of the printed forms of a repository. */
  ghost predicate IsFormOf(remote: string, host: string, owner: string, repo: string, suffix: string) {
    && Printable(host, owner, repo) && suffix in ["", GIT]
    && (|| Trim(remote) == SshForm(host, owner, repo, suffix)
        || (Plain(host, owner, repo) && Trim(remote) == HttpsForm(host, owner, repo, suffix))
        || exists dir :: PlainPath(dir, host, owner, repo) && Trim(remote) == FileForm(dir, host, owner, repo, suffix))
  }

  /** Whatever the form of the remote URL, the identity is host, owner and name, wherever the repository is stored. */
  lemma {:induction false} RemoteIdentity(
    pool: Path, bare: Path, remote: string, host: string, owner: string, repo: string, suffix: string)
    requires IsFormOf(remote, host, owner, repo, suffix)
    ensures IdentityForGC(pool, bare, remote) ==
            Some(Identity(host + "/" + owner + "/" + repo, owner + "/" + repo))
  {
    if Trim(remote) == SshForm(host, owner, repo, suffix) {
      SshNormalizes(host, owner, repo, suffix);
    } else if Plain(host, owner, repo) && Trim(remote) == HttpsForm(host, owner, repo, suffix) {
      HttpsNormalizes(host, owner, repo, suffix);
    } else {
      var dir :| PlainPath(dir, host, owner, repo) && Trim(remote) == FileForm(dir, host, owner, repo, suffix);
      FileNormalizes(dir, host, owner, repo, suffix);
    }
  }

  /** Different repositories are stored at different paths. */
  lemma {:induction false} StorePathInjective(pool: Path, a: Spec, b: Spec)
    requires CleanPath(pool)
    requires CleanName(a.host) && CleanName(a.owner) && CleanName(a.repo)
    requires CleanName(b.host) && CleanName(b.owner) && CleanName(b.repo)
    requires StorePath(pool, a) == StorePath(pool, b)
    ensures a.host == b.host && a.owner == b.owner && a.repo == b.repo
  {
    StorePathParts(pool, a);
    StorePathParts(pool, b);
    var n := |pool|;
    var p := StorePath(pool, a);
    assert p[n] == a.host == b.host && p[n + 1] == a.owner == b.owner && p[n + 2] == a.repo + GIT == b.repo + GIT;
    assert (a.repo + GIT)[..|a.repo|] == a.repo && (b.repo + GIT)[..|b.repo|] == b.repo;
  }

  /** Candidates with distinct aliases are distinct bare repositories. */
  lemma {:induction false} DistinctAliasesDistinctBares(pool: Path, a: Spec, b: Spec)
    requires CleanPath(pool)
    requires CleanName(a.host) && CleanName(a.owner) && CleanName(a.repo)
    requires CleanName(b.host) && CleanName(b.owner) && CleanName(b.repo)
    requires DeriveAlias(a.owner + "/" + a.repo) != DeriveAlias(b.owner + "/" + b.repo)
    ensures StorePath(pool, a) != StorePath(pool, b)
  {
    if StorePath(pool, a) == StorePath(pool, b) { StorePathInjective(pool, a, b); }
  }

  lemma {:induction false} AliasIsRepoName(owner: string, repo: string)
    requires CleanName(owner) && CleanName(repo)
    ensures DeriveAlias(owner + "/" + repo) == repo
  {
    var s := owner + "/" + repo;
    assert s[0] == owner[0] && s[|s| - 1] == repo[|repo| - 1];
    TrimOfTrimmed(s);
    SplitFirst(owner, '/', repo);
    SplitFirst(repo, '/', "");
  }
}
