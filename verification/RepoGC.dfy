/** Garbage collection of the pool of bare repositories (internal/cli/repo_gc.go). */
module RepoGC {
  import opened Text
  import opened Sorting
  import opened RepoSpec

  /** The restore entries' repository uids in the metadata of one workspace; None when unreadable. */
  type Bindings = Option<seq<string>>

  /** The workspace directories of a root, those of workspaces/ first and then those of archive/. */
  type Root = seq<Bindings>

  /** The file system that one run sees. Roots that are not in the map do not exist. */
  type Roots = map<string, Root>

  // ----- References, by their plain definition -----

  function RefsIn(uids: seq<string>, uid: string): nat {
    if uids == [] then 0 else RefsIn(uids[..|uids| - 1], uid) + (if Trim(uids[|uids| - 1]) == uid then 1 else 0)
  }

  function RefsOfRoot(root: Root, uid: string): nat {
    if root == [] then 0
    else
      var last := root[|root| - 1];
      RefsOfRoot(root[..|root| - 1], uid) + (if last.Some? then RefsIn(last.value, uid) else 0)
  }

  /** How many restore entries below the root at this path name the repository. */
  function Refs(roots: Roots, path: string, uid: string): nat {
    if path in roots then RefsOfRoot(roots[path], uid) else 0
  }

  function RefsTo(roots: Roots, uid: string): string -> nat {
    path => Refs(roots, path, uid)
  }

  predicate Names(uids: seq<string>, uid: string) {
    exists i :: 0 <= i < |uids| && Trim(uids[i]) == uid
  }

  /** Some restore entry below the root names the repository. */
  predicate Mentions(root: Root, uid: string) {
    exists i :: 0 <= i < |root| && root[i].Some? && Names(root[i].value, uid)
  }

  lemma {:induction false} RefsInMeans(uids: seq<string>, uid: string)
    ensures RefsIn(uids, uid) > 0 <==> Names(uids, uid)
  {
    if uids != [] {
      var rest := uids[..|uids| - 1];
      RefsInMeans(rest, uid);
      if Names(rest, uid) {
        var i :| 0 <= i < |rest| && Trim(rest[i]) == uid;
        assert Trim(uids[i]) == uid;
      }
      if Names(uids, uid) && Trim(uids[|uids| - 1]) != uid {
        var i :| 0 <= i < |uids| && Trim(uids[i]) == uid;
        assert Trim(rest[i]) == uid;
      }
    }
  }

  lemma {:induction false} RefsMeans(root: Root, uid: string)
    ensures RefsOfRoot(root, uid) > 0 <==> Mentions(root, uid)
  {
    if root != [] {
      var rest, last := root[..|root| - 1], root[|root| - 1];
      RefsMeans(rest, uid);
      if last.Some? { RefsInMeans(last.value, uid); }
      if Mentions(rest, uid) {
        var i :| 0 <= i < |rest| && rest[i].Some? && Names(rest[i].value, uid);
        assert root[i] == rest[i];
      }
      if Mentions(root, uid) && !(last.Some? && Names(last.value, uid)) {
        var i :| 0 <= i < |root| && root[i].Some? && Names(root[i].value, uid);
        assert rest[i] == root[i];
      }
    }
  }

  ghost function Sum(s: set<string>, f: string -> nat): nat {
    if s == {} then 0 else var x :| x in s; f(x) + Sum(s - {x}, f)
  }

  lemma {:induction false} SumInsert(s: set<string>, x: string, f: string -> nat)
    requires x !in s
    ensures Sum(s + {x}, f) == Sum(s, f) + f(x)
    decreases |s|
  {
    var t := s + {x};
    var y :| y in t && Sum(t, f) == f(y) + Sum(t - {y}, f);
    if y == x {
      assert t - {y} == s;
    } else {
      assert t - {y} == (s - {y}) + {x};
      SumInsert(s - {y}, x, f);
      SumInsert(s - {y}, y, f);
      assert (s - {y}) + {y} == s;
    }
  }

  lemma {:induction false} SumZero(s: set<string>, f: string -> nat)
    ensures Sum(s, f) == 0 <==> forall x :: x in s ==> f(x) == 0
    decreases |s|
  {
    if s != {} {
      var y :| y in s && Sum(s, f) == f(y) + Sum(s - {y}, f);
      SumZero(s - {y}, f);
    }
  }

  function Get(counts: map<string, nat>, uid: string): nat {
    if uid in counts then counts[uid] else 0
  }

  // ----- Counting -----

  /** One root's references by uid; the empty uid is skipped. */
  method ScanRoot(root: Root) returns (counts: Option<map<string, nat>>)
    ensures counts.Some? <==> forall i :: 0 <= i < |root| ==> root[i].Some?
    ensures counts.Some? ==> forall uid :: Get(counts.value, uid) == if uid == "" then 0 else RefsOfRoot(root, uid)
  {
    var found: map<string, nat> := map[];
    for i := 0 to |root|
      invariant forall j :: 0 <= j < i ==> root[j].Some?
      invariant forall uid :: Get(found, uid) == if uid == "" then 0 else RefsOfRoot(root[..i], uid)
    {
      if root[i].None? {
        return None;
      }
      found := ScanWorkspace(root[i].value, found);
      assert root[..i + 1][..i] == root[..i];
    }
    assert root[..|root|] == root;
    return Some(found);
  }

  method ScanWorkspace(uids: seq<string>, before: map<string, nat>) returns (found: map<string, nat>)
    ensures forall uid :: Get(found, uid) == Get(before, uid) + if uid == "" then 0 else RefsIn(uids, uid)
  {
    found := before;
    for i := 0 to |uids|
      invariant forall uid :: Get(found, uid) == Get(before, uid) + if uid == "" then 0 else RefsIn(uids[..i], uid)
    {
      var uid := Trim(uids[i]);
      if uid != "" {
        found := found[uid := Get(found, uid) + 1];
      }
      assert uids[..i + 1][..i] == uids[..i];
    }
    assert uids[..|uids|] == uids;
  }

  method AddCounts(a: map<string, nat>, b: map<string, nat>) returns (r: map<string, nat>)
    ensures forall uid :: Get(r, uid) == Get(a, uid) + Get(b, uid)
  {
    r := a;
    var pending := b.Keys;
    while pending != {}
      invariant pending <= b.Keys
      invariant forall uid :: Get(r, uid) == Get(a, uid) + if uid in pending then 0 else Get(b, uid)
      decreases |pending|
    {
      var uid :| uid in pending;
      r := r[uid := Get(r, uid) + b[uid]];
      pending := pending - {uid};
    }
  }

  predicate Readable(roots: Roots, path: string) {
    path in roots ==> forall i :: 0 <= i < |roots[path]| ==> roots[path][i].Some?
  }

  /** What has been counted: each of the roots seen once, the current root apart as well. */
  ghost predicate Counted(c: Counter, roots: Roots, current: set<string>) {
    && "" !in c.seen && c.marked <= current <= c.seen
    && (forall uid :: uid != "" ==> Get(c.counts, uid) == Sum(c.seen, RefsTo(roots, uid)))
    && (forall uid :: uid != "" ==> Get(c.currentCounts, uid) == Sum(current, RefsTo(roots, uid)))
  }

  datatype Counter = Counter(
    seen: set<string>, marked: set<string>, counts: map<string, nat>, currentCounts: map<string, nat>)

  /** The scan of a path; a root that does not exist has no references. */
  method ScanPath(roots: Roots, path: string) returns (refs: Option<map<string, nat>>)
    ensures refs.Some? <==> Readable(roots, path)
    ensures refs.Some? ==> forall uid :: uid != "" ==> Get(refs.value, uid) == Refs(roots, path, uid)
  {
    if path !in roots {
      return Some(map[]);
    }
    refs := ScanRoot(roots[path]);
  }

  /** Add a root once; the current root is also counted apart, even when it was seen before. */
  method AddRoot(c: Counter, roots: Roots, rawPath: string, collectCurrent: bool) returns (r: Option<Counter>)
    requires Counted(c, roots, {})
    ensures r.None? ==> Trim(rawPath) != "" && !Readable(roots, Trim(rawPath))
    ensures r.Some? ==> Trim(rawPath) == "" || Trim(rawPath) in c.seen || Readable(roots, Trim(rawPath))
    ensures r.Some? ==> r.value.seen == c.seen + (if Trim(rawPath) == "" then {} else {Trim(rawPath)})
    ensures r.Some? ==> Counted(r.value, roots, if collectCurrent && Trim(rawPath) != "" then {Trim(rawPath)} else {})
  {
    var path := Trim(rawPath);
    if path == "" {
      return Some(c);
    }
    if path in c.seen && (!collectCurrent || path in c.marked) {
      assert c.seen + {path} == c.seen;
      return Some(c);
    }
    var refs := ScanPath(roots, path);
    if refs.None? {
      return None;
    }
    var next := c;
    if path !in c.seen {
      var counts := AddCounts(c.counts, refs.value);
      forall uid | uid != "" ensures Get(counts, uid) == Sum(c.seen + {path}, RefsTo(roots, uid)) {
        SumInsert(c.seen, path, RefsTo(roots, uid));
      }
      next := next.(seen := c.seen + {path}, counts := counts);
    }
    if collectCurrent {
      var currentCounts := AddCounts(c.currentCounts, refs.value);
      forall uid | uid != "" ensures Get(currentCounts, uid) == Sum({path}, RefsTo(roots, uid)) {
        SumInsert({}, path, RefsTo(roots, uid));
        assert {} + {path} == {path};
      }
      next := next.(marked := if path in roots || path in c.seen then {path} else {}, currentCounts := currentCounts);
    }
    return Some(next);
  }

  function RootPaths(registered: seq<string>): set<string> {
    set path | path in registered && Trim(path) != "" :: Trim(path)
  }

  lemma {:induction false} RootPathsNext(registered: seq<string>, i: nat)
    requires i < |registered|
    ensures RootPaths(registered[..i + 1]) == RootPaths(registered[..i])
        + (if Trim(registered[i]) == "" then {} else {Trim(registered[i])})
  {
    assert registered[..i + 1] == registered[..i] + [registered[i]];
  }

  /** The current root as a set, empty when its path is blank. */
  function CurrentPath(current: string): set<string> {
    if Trim(current) == "" then {} else {Trim(current)}
  }

  /** Count the references of every distinct registered root and of the current one. */
  method CollectRefCounts(roots: Roots, registered: seq<string>, current: string) returns (r: Option<Counter>)
    ensures r.Some? <==> forall path :: path in RootPaths(registered) + CurrentPath(current) ==> Readable(roots, path)
    ensures r.Some? ==> r.value.seen == RootPaths(registered) + CurrentPath(current)
    ensures r.Some? ==> Counted(r.value, roots, CurrentPath(current))
  {
    var c := Counter({}, {}, map[], map[]);
    for i := 0 to |registered|
      invariant c.seen == RootPaths(registered[..i]) && Counted(c, roots, {})
      invariant forall path :: path in c.seen ==> Readable(roots, path)
    {
      RootPathsNext(registered, i);
      var next := AddRoot(c, roots, registered[i], false);
      if next.None? {
        assert registered[i] in registered;
        return None;
      }
      c := next.value;
    }
    assert registered[..|registered|] == registered;
    r := AddRoot(c, roots, current, true);
  }

  // ----- Candidates -----

  datatype Candidate = Candidate(
    uid: string, key: string, bare: Path, registered: bool, bound: bool, others: nat, hasWorktrees: bool,
        inspectable: bool)

  /** A bare repository of the pool: its remote.origin.url, blank when it cannot be read, and what
      listing its worktrees finds. */
  datatype Bare = Bare(path: Path, remote: string, links: Links)

  datatype Links = NoLinks | HasLinks | NotListed

  predicate Eligible(c: Candidate) {
    c.inspectable && !c.registered && !c.bound && c.others == 0 && !c.hasWorktrees
  }

  /** The counts of one candidate; the subtraction is clamped at zero as in the program. */
  function MakeCandidate(pool: Path, b: Bare, counts: map<string, nat>, currentCounts: map<string, nat>): Candidate {
    match IdentityForGC(pool, b.path, b.remote)
    case None => Candidate("", "", b.path, false, false, 0, false, false)
    case Some(id) =>
      var current, all := Get(currentCounts, id.uid), Get(counts, id.uid);
      var others := if current > 0 then (if all - current < 0 then 0 else all - current) else all;
      Candidate(id.uid, id.key, b.path, false, current > 0, others, b.links == HasLinks, b.links != NotListed)
  }

  lemma {:induction false} UidIsNotEmpty(pool: Path, bare: Path, remote: string)
    ensures var id := IdentityForGC(pool, bare, remote); id.Some? ==> id.value.uid != ""
  {
  }

  lemma {:induction false} SplitOffCurrent(registered: set<string>, current: set<string>, f: string -> nat)
    requires |current| <= 1
    ensures Sum(registered + current, f) == Sum(registered - current, f) + Sum(current, f)
  {
    if current == {} {
      assert registered + current == registered == registered - current;
    } else {
      var x :| x in current;
      assert |current - {x}| == 0;
      assert current == {} + {x};
      assert registered + current == (registered - current) + {x};
      SumInsert(registered - current, x, f);
      SumInsert({}, x, f);
    }
  }

  /** A candidate's other-root count is the sum of the references over the distinct registered roots other
      than the current one, and the clamp has nothing to do. */
  lemma {:induction false} CountsAreExact(
    c: Counter, roots: Roots, registered: seq<string>, current: string, pool: Path, b: Bare)
    requires c.seen == RootPaths(registered) + CurrentPath(current) && Counted(c, roots, CurrentPath(current))
    requires IdentityForGC(pool, b.path, b.remote).Some?
    ensures var k := MakeCandidate(pool, b, c.counts, c.currentCounts);
            && Get(c.currentCounts, k.uid) <= Get(c.counts, k.uid)
            && k.others == Sum(RootPaths(registered) - CurrentPath(current), RefsTo(roots, k.uid))
            && (k.bound <==> Trim(current) != "" && Refs(roots, Trim(current), k.uid) > 0)
  {
    var uid := IdentityForGC(pool, b.path, b.remote).value.uid;
    UidIsNotEmpty(pool, b.path, b.remote);
    SplitOffCurrent(RootPaths(registered), CurrentPath(current), RefsTo(roots, uid));
    SumZero(CurrentPath(current), RefsTo(roots, uid));
  }

  ghost predicate NoRefs(roots: Roots, paths: set<string>, uid: string) {
    forall path :: path in paths ==> Refs(roots, path, uid) == 0
  }

  lemma {:induction false} NoRefsAnywhere(roots: Roots, registered: set<string>, current: set<string>, uid: string)
    ensures NoRefs(roots, registered + current, uid) <==>
            Sum(registered - current, RefsTo(roots, uid)) == 0 && NoRefs(roots, current, uid)
  {
    var f, rest := RefsTo(roots, uid), registered - current;
    SumZero(rest, f);
    assert forall path :: f(path) == Refs(roots, path, uid);
    if Sum(rest, f) == 0 && NoRefs(roots, current, uid) {
      forall path | path in registered + current ensures Refs(roots, path, uid) == 0 {
        assert path in rest || path in current;
      }
    }
    if NoRefs(roots, registered + current, uid) {
      forall path | path in rest ensures f(path) == 0 { assert path in registered + current; }
      forall path | path in current ensures Refs(roots, path, uid) == 0 { assert path in registered + current; }
    }
  }

  /** Eligible means: the repository is inspectable, no registered or current root refers to it, and it
      has no linked worktree. */
  lemma {:induction false} EligibleIffUnreferenced(
    c: Counter, roots: Roots, registered: seq<string>, current: string, pool: Path, b: Bare)
    requires c.seen == RootPaths(registered) + CurrentPath(current) && Counted(c, roots, CurrentPath(current))
    ensures var id := IdentityForGC(pool, b.path, b.remote);
            Eligible(MakeCandidate(pool, b, c.counts, c.currentCounts)) <==>
              id.Some? && b.links == NoLinks && NoRefs(roots, RootPaths(registered) + CurrentPath(current),
                  id.value.uid)
  {
    var id, k := IdentityForGC(pool, b.path, b.remote), MakeCandidate(pool, b, c.counts, c.currentCounts);
    if id.Some? {
      CountsAreExact(c, roots, registered, current, pool, b);
      NoRefsAnywhere(roots, RootPaths(registered), CurrentPath(current), id.value.uid);
      assert k.uid == id.value.uid;
      assert !k.bound <==> NoRefs(roots, CurrentPath(current), k.uid);
    }
  }

  /** Repositories without a key come last, by path. */
  predicate CandidateLe(a: Candidate, b: Candidate) {
    var ak, bk := Trim(a.key), Trim(b.key);
    if ak == "" && bk == "" then StrLe(PathText(a.bare), PathText(b.bare))
    else if ak == "" then false
    else if bk == "" then true
    else StrLe(ak, bk)
  }

  lemma {:induction false} CandidateLeIsTotalPreorder()
    ensures TotalPreorder(CandidateLe)
  {
    forall a: Candidate, b: Candidate ensures CandidateLe(a, b) || CandidateLe(b, a) {
      StrLeTotal(Trim(a.key), Trim(b.key));
      StrLeTotal(PathText(a.bare), PathText(b.bare));
    }
    forall a: Candidate, b: Candidate, c: Candidate | CandidateLe(a, b) && CandidateLe(b, c) ensures CandidateLe(a, c) {
      CandidateLeTrans(a, b, c);
    }
  }

  lemma {:induction false} CandidateLeTrans(a: Candidate, b: Candidate, c: Candidate)
    requires CandidateLe(a, b) && CandidateLe(b, c)
    ensures CandidateLe(a, c)
  {
    if Trim(a.key) == "" {
      StrLeTrans(PathText(a.bare), PathText(b.bare), PathText(c.bare));
    } else if Trim(c.key) != "" {
      StrLeTrans(Trim(a.key), Trim(b.key), Trim(c.key));
    }
  }

  method BuildCandidates(pool: Path, bares: seq<Bare>, c: Counter) returns (out: seq<Candidate>)
    ensures multiset(out) == multiset(Made(pool, bares, c)) && Sorted(out, CandidateLe)
  {
    out := [];
    for i := 0 to |bares|
      invariant out == Made(pool, bares[..i], c)
    {
      out := out + [MakeCandidate(pool, bares[i], c.counts, c.currentCounts)];
      assert bares[..i + 1][..i] == bares[..i];
    }
    assert bares[..|bares|] == bares;
    SortMultiset(out, CandidateLe);
    CandidateLeIsTotalPreorder();
    SortSorted(out, CandidateLe);
    out := SortBy(out, CandidateLe);
  }

  function Made(pool: Path, bares: seq<Bare>, c: Counter): seq<Candidate> {
    if bares == [] then []
    else
      Made(pool, bares[..|bares| - 1], c) + [MakeCandidate(pool, bares[|bares| - 1], c.counts, c.currentCounts)]
  }

  lemma {:induction false} MadeFrom(pool: Path, bares: seq<Bare>, c: Counter, k: Candidate)
    requires k in Made(pool, bares, c)
    ensures exists b :: b in bares && k == MakeCandidate(pool, b, c.counts, c.currentCounts)
  {
    var last := bares[|bares| - 1];
    if k != MakeCandidate(pool, last, c.counts, c.currentCounts) {
      MadeFrom(pool, bares[..|bares| - 1], c, k);
    }
  }
}
