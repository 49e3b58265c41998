/** Workspace risk from repository statuses (internal/core/workspacerisk/workspacerisk.go,
    internal/cli/git_status_snapshot.go). */
module WorkspaceRisk {
  import opened Text
  import opened GitStatus

  /** From the least to the most severe; a workspace's risk is one of these too. */
  datatype RepoState = Clean | Unpushed | Diverged | Dirty | Unknown

  function Rank(s: RepoState): nat {
    match s
    case Clean => 0
    case Unpushed => 1
    case Diverged => 2
    case Dirty => 3
    case Unknown => 4
  }

  /** The order of AggregateForState: here dirty outranks unknown. */
  function RankForState(s: RepoState): nat {
    match s
    case Dirty => 4
    case Unknown => 3
    case _ => Rank(s)
  }

  ghost predicate IsMaximum(risk: RepoState, states: seq<RepoState>, rank: RepoState -> nat) {
    && (forall i :: 0 <= i < |states| ==> rank(states[i]) <= rank(risk))
    && (risk in states || (states == [] && risk == Clean))
  }

  function Classify(status: Result<Snapshot>): RepoState {
    match status
    case Failure(_) => Unknown
    case Success(s) =>
      if s.dirty then Dirty
      else if s.detached || s.headMissing then Unknown
      else if Trim(s.upstream) == "" then Unknown
      else if s.ahead > 0 && s.behind > 0 then Diverged
      else if s.ahead > 0 then Unpushed
      else Clean
  }

  /** The flags that both aggregations collect. */
  method CollectFlags(states: seq<RepoState>) returns (dirty: bool, unknown: bool, diverged: bool, unpushed: bool)
    ensures dirty == (Dirty in states) && unknown == (Unknown in states)
    ensures diverged == (Diverged in states) && unpushed == (Unpushed in states)
  {
    dirty, unknown, diverged, unpushed := false, false, false, false;
    for i := 0 to |states|
      invariant dirty == (Dirty in states[..i]) && unknown == (Unknown in states[..i])
      invariant diverged == (Diverged in states[..i]) && unpushed == (Unpushed in states[..i])
    {
      assert states[..i + 1] == states[..i] + [states[i]];
      match states[i] {
        case Unknown => unknown := true;
        case Dirty => dirty := true;
        case Diverged => diverged := true;
        case Unpushed => unpushed := true;
        case Clean =>
      }
    }
    assert states[..|states|] == states;
  }

  method Aggregate(states: seq<RepoState>) returns (risk: RepoState)
    ensures IsMaximum(risk, states, Rank)
  {
    var dirty, unknown, diverged, unpushed := CollectFlags(states);
    if unknown { return Unknown; }
    if dirty { return Dirty; }
    if diverged { return Diverged; }
    if unpushed { return Unpushed; }
    OnlyClean(states);
    return Clean;
  }

  method AggregateForState(states: seq<RepoState>) returns (risk: RepoState)
    ensures IsMaximum(risk, states, RankForState)
  {
    var dirty, unknown, diverged, unpushed := CollectFlags(states);
    if dirty { return Dirty; }
    if unknown { return Unknown; }
    if diverged { return Diverged; }
    if unpushed { return Unpushed; }
    OnlyClean(states);
    return Clean;
  }

  lemma {:induction false} OnlyClean(states: seq<RepoState>)
    requires Dirty !in states && Unknown !in states && Diverged !in states && Unpushed !in states
    ensures forall i :: 0 <= i < |states| ==> states[i] == Clean
    ensures states == [] || Clean in states
  {
    forall i | 0 <= i < |states| ensures states[i] == Clean { assert states[i] in states; }
    if states != [] { assert states[0] == Clean; }
  }

  /** A repository of the workspace; `missing` when metadata names it but its directory is gone. */
  datatype Repo = Repo(alias: string, missing: bool)

  /** `status` is what git prints for a worktree, or None when the directory or the command fails.
      The output is trimmed before it is read. */
  function Inspect(alias: string, status: string -> Option<string>): Result<Snapshot> {
    match status(alias)
    case None => Failure("git status")
    case Some(raw) => Read(Trim(raw))
  }

  /** Present, readable, without changes, on a branch with a head and an upstream, and not ahead. */
  predicate RepoIsClean(r: Repo, status: string -> Option<string>) {
    var s := Inspect(r.alias, status);
    !r.missing && s.Success? && !s.value.dirty && !s.value.detached && !s.value.headMissing
        && Trim(s.value.upstream) != "" && s.value.ahead <= 0
  }

  function StateOf(r: Repo, status: string -> Option<string>): RepoState {
    if r.missing then Unknown else Classify(Inspect(r.alias, status))
  }

  /** The risk of a workspace is the worst of its repositories, and clean exactly when all of them are. */
  method InspectRisk(
    repos: seq<Repo>, status: string -> Option<string>) returns (risk: RepoState, states: seq<RepoState>)
    ensures |states| == |repos| && forall i :: 0 <= i < |repos| ==> states[i] == StateOf(repos[i], status)
    ensures forall i :: 0 <= i < |repos| && (repos[i].missing || status(repos[i].alias).None?) ==> states[i] == Unknown
    ensures IsMaximum(risk, states, Rank)
    ensures risk == Clean <==> forall i :: 0 <= i < |repos| ==> RepoIsClean(repos[i], status)
  {
    states := [];
    for i := 0 to |repos|
      invariant |states| == i && forall j :: 0 <= j < i ==> states[j] == StateOf(repos[j], status)
    {
      var state := Unknown;
      if !repos[i].missing {
        state := Classify(Inspect(repos[i].alias, status));
      }
      states := states + [state];
    }
    risk := Aggregate(states);
    assert forall i :: 0 <= i < |repos| ==> (states[i] == Clean <==> RepoIsClean(repos[i], status));
  }

  // ----- Clean, in terms of what git printed -----

  ghost predicate AtMostOne(ls: seq<Line>, test: Line -> bool) {
    forall i, j :: 0 <= i < j < |ls| && test(ls[i]) ==> !test(ls[j])
  }

  /** git prints each branch header at most once. */
  ghost predicate SingleHeaders(ls: seq<Line>) {
    && AtMostOne(ls, (l: Line) => l.Oid?)
    && AtMostOne(ls, (l: Line) => l.AheadBehind?)
  }

  ghost predicate Has(ls: seq<Line>, test: Line -> bool) {
    exists i :: 0 <= i < |ls| && test(ls[i])
  }

  lemma {:induction false} HasNext(ls: seq<Line>, test: Line -> bool)
    requires ls != []
    ensures Has(ls, test) <==> Has(ls[..|ls| - 1], test) || test(ls[|ls| - 1])
  {
    var front := ls[..|ls| - 1];
    if Has(front, test) {
      var i :| 0 <= i < |front| && test(front[i]);
      assert test(ls[i]);
    }
  }

  predicate IsDetached(l: Line) {
    l == Head("(detached)")
  }

  predicate NoHead(l: Line) {
    l == Oid("(initial)") || l == Oid("(unknown)")
  }

  predicate IsAhead(l: Line) {
    l.AheadBehind? && l.ahead > 0
  }

  predicate IsUpstream(l: Line) {
    l.Upstream?
  }

  /** The line alone keeps a repository from being clean. */
  predicate Blocks(l: Line) {
    IsDirt(l) || IsDetached(l) || NoHead(l) || IsAhead(l)
  }

  lemma {:induction false} DirtyMeans(ls: seq<Line>)
    ensures Meaning(ls).dirty <==> Has(ls, IsDirt)
    ensures Meaning(ls).detached <==> Has(ls, IsDetached)
  {
    if ls != [] {
      DirtyMeans(ls[..|ls| - 1]);
      HasNext(ls, IsDirt);
      HasNext(ls, IsDetached);
    }
  }

  lemma {:induction false} UpstreamMeans(ls: seq<Line>)
    requires AllWellFormed(ls)
    ensures Trim(Meaning(ls).upstream) != "" <==> Has(ls, IsUpstream)
  {
    if ls != [] {
      UpstreamMeans(ls[..|ls| - 1]);
      HasNext(ls, IsUpstream);
      var l := ls[|ls| - 1];
      if l.Upstream? { TrimOfTrimmed(l.value); }
    }
  }

  lemma {:induction false} HeadMissingMeans(ls: seq<Line>)
    requires AtMostOne(ls, (l: Line) => l.Oid?)
    ensures Meaning(ls).headMissing <==> Has(ls, NoHead)
  {
    if ls != [] {
      var front := ls[..|ls| - 1];
      assert AtMostOne(front, (l: Line) => l.Oid?);
      HeadMissingMeans(front);
      HasNext(ls, NoHead);
    }
  }

  lemma {:induction false} AheadMeans(ls: seq<Line>)
    requires AtMostOne(ls, (l: Line) => l.AheadBehind?)
    ensures Meaning(ls).ahead > 0 <==> Has(ls, IsAhead)
  {
    if ls != [] {
      var front := ls[..|ls| - 1];
      assert AtMostOne(front, (l: Line) => l.AheadBehind?);
      AheadMeans(front);
      HasNext(ls, IsAhead);
    }
  }

  lemma {:induction false} BlocksMeans(ls: seq<Line>)
    ensures Has(ls, Blocks) <==> Has(ls, IsDirt) || Has(ls, IsDetached) || Has(ls, NoHead) || Has(ls, IsAhead)
  {
    if ls != [] {
      BlocksMeans(ls[..|ls| - 1]);
      HasNext(ls, Blocks);
      HasNext(ls, IsDirt);
      HasNext(ls, IsDetached);
      HasNext(ls, NoHead);
      HasNext(ls, IsAhead);
    }
  }

  predicate IsDiverged(l: Line) {
    l.AheadBehind? && l.ahead > 0 && l.behind > 0
  }

  lemma {:induction false} DivergedMeans(ls: seq<Line>)
    requires AtMostOne(ls, (l: Line) => l.AheadBehind?)
    ensures Meaning(ls).ahead > 0 && Meaning(ls).behind > 0 <==> Has(ls, IsDiverged)
  {
    if ls != [] {
      var front := ls[..|ls| - 1];
      assert AtMostOne(front, (l: Line) => l.AheadBehind?);
      DivergedMeans(front);
      HasNext(ls, IsDiverged);
    }
  }

  /** The branch can be compared: it has a head and an upstream. */
  ghost predicate Comparable(ls: seq<Line>) {
    Has(ls, IsUpstream) && !Has(ls, IsDetached) && !Has(ls, NoHead)
  }

  /** Each of the five states, in terms of the lines that git printed: any change makes a repository dirty;
      without one, a branch that cannot be compared is unknown; the others are told apart by the commits
      ahead and behind. */
  lemma {:induction false} PrintedStateIff(ls: seq<Line>)
    requires AllWellFormed(ls) && SingleHeaders(ls)
    ensures var state := Classify(Read(Trim(PrintAll(ls))));
            && (state == Dirty <==> Has(ls, IsDirt))
            && (state == Unknown <==> !Has(ls, IsDirt) && !Comparable(ls))
            && (state == Diverged <==> !Has(ls, IsDirt) && Comparable(ls) && Has(ls, IsDiverged))
            && (state == Unpushed <==> !Has(ls, IsDirt) && Comparable(ls) && Has(ls, IsAhead) && !Has(ls, IsDiverged))
            && (state == Clean <==> !Has(ls, IsDirt) && Comparable(ls) && !Has(ls, IsAhead))
  {
    ReadOfTrimmed(ls);
    DirtyMeans(ls);
    UpstreamMeans(ls);
    HeadMissingMeans(ls);
    AheadMeans(ls);
    DivergedMeans(ls);
  }

  /** A repository whose output git printed is clean exactly when an upstream line is there and no line
      shows a change, a detached or missing head, or commits ahead. */
  lemma {:induction false} PrintedIsCleanIff(ls: seq<Line>)
    requires AllWellFormed(ls) && SingleHeaders(ls)
    ensures Classify(Read(Trim(PrintAll(ls)))) == Clean <==> Has(ls, IsUpstream) && !Has(ls, Blocks)
  {
    ReadOfTrimmed(ls);
    DirtyMeans(ls);
    UpstreamMeans(ls);
    HeadMissingMeans(ls);
    AheadMeans(ls);
    BlocksMeans(ls);
  }
}
