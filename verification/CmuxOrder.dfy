/** When the order in which workspaces are opened matters (internal/app/cmux/usecase.go, internal/cmuxmap/store.go):
    exactly when the first entry of some workspace is not its least. */
module CmuxOrder {
  import opened Text
  import opened Sorting
  import opened CmuxMap
  import opened CmuxOpen

  /** The first entry is the least by ordinal and runtime id, so that sorting leaves it in front. */
  ghost predicate LeastFirst(entries: seq<Entry>) {
    entries != [] ==> forall e :: e in entries ==> EntryLe(entries[0], e)
  }

  ghost predicate FirstIsLeast(f: File) {
    forall id :: id in f.workspaces && Trim(id) == id ==> LeastFirst(f.workspaces[id].entries)
  }

  /** Every drained run of every pool ends as the targets one by one. */
  ghost predicate OrderIndependent(f: File) {
    forall jobs: seq<Job>, concurrency: nat, run: seq<Pool> ::
      DistinctTrimmedIds(jobs) && IsRun(jobs, f, concurrency, run) && Drained(jobs, run[|run| - 1]) ==>
        (InOrder(run[|run| - 1].out), run[|run| - 1].file) == OpenAll(jobs, f)
  }

  // ----- Sorting the entries -----

  lemma {:induction false} LeastStaysFirst(s: seq<Entry>)
    requires s != [] && LeastFirst(s)
    ensures SortBy(s, EntryLe)[0] == s[0]
  {
    var rest := SortBy(s[1..], EntryLe);
    SortMembers(s[1..], EntryLe);
    if rest != [] {
      assert rest[0] in rest;
      assert rest[0] in s;
    }
  }

  /** Another entry comes to the front, and it has another ordinal or runtime id. */
  lemma {:induction false} LesserComesFirst(s: seq<Entry>, e: Entry)
    requires e in s && !EntryLe(s[0], e)
    ensures var t := SortBy(s, EntryLe)[0]; t.ordinal != s[0].ordinal || t.cmuxId != s[0].cmuxId
  {
    var sorted := SortBy(s, EntryLe);
    SortMembers(s, EntryLe);
    EntryLeIsTotalPreorder();
    SortSorted(s, EntryLe);
    var i :| 0 <= i < |sorted| && sorted[i] == e;
    assert EntryLe(sorted[0], e);
  }

  lemma {:induction false} SortedIsLeastFirst(s: seq<Entry>)
    requires Sorted(s, EntryLe)
    ensures LeastFirst(s)
  {
    EntryLeIsTotalPreorder();
    forall e | e in s ensures EntryLe(s[0], e) {
      var i :| 0 <= i < |s| && s[i] == e;
      assert EntryLe(e, e);
    }
  }

  // ----- The file with its entries sorted -----

  function Settle(f: File): File {
    File(CURRENT_VERSION, map id | id in f.workspaces :: NormalizeWorkspace(f.workspaces[id]))
  }

  lemma {:induction false} SettleSettles(f: File)
    requires WellFormed(f)
    ensures NormalizeFile(f) == Success(Settle(f)) && Settled(Settle(f))
  {
    forall id | id in f.workspaces ensures Tidy(NormalizeWorkspace(f.workspaces[id])) {
      var ws := f.workspaces[id];
      NormalizeAgain(ws);
      NormalizeEstablishes(ws);
      EntryLeIsTotalPreorder();
      SortSorted(ws.entries, EntryLe);
    }
  }

  lemma {:induction false} SettledIsSettle(f: File)
    requires Settled(f)
    ensures Settle(f) == f && WellFormed(f) && FirstIsLeast(f)
  {
    SettledIsFixed(f);
    forall id | id in f.workspaces ensures LeastFirst(f.workspaces[id].entries) {
      SortedIsLeastFirst(f.workspaces[id].entries);
    }
  }

  lemma {:induction false} LookupSettle(f: File, id: string)
    requires WellFormed(f)
    ensures Lookup(Settle(f), id) == Lookup(f, id).(entries := SortBy(Lookup(f, id).entries, EntryLe))
  {
    if id in f.workspaces { NormalizeAgain(f.workspaces[id]); }
  }

  lemma {:induction false} PutSettle(f: File, id: string, ws: WorkspaceMapping)
    requires WellFormed(f) && Tidy(ws)
    ensures Settle(Put(f, id, ws)) == Put(Settle(f), id, ws)
  {
    TidyIffFixed(ws);
    assert Settle(Put(f, id, ws)).workspaces == Put(Settle(f), id, ws).workspaces;
  }

  lemma {:induction false} PutStaysGood(f: File, id: string, ws: WorkspaceMapping)
    requires Good(f) && Tidy(ws)
    ensures Good(Put(f, id, ws))
  {
    SortedIsLeastFirst(ws.entries);
  }

  lemma {:induction false} AllocateSettle(f: File, id: string)
    requires WellFormed(f)
    ensures Allocate(f, id) == Allocate(Settle(f), id)
  {
    SettleSettles(f);
    SettledIsFixed(Settle(f));
  }

  // ----- A step on the file and on its sorted form -----

  /** What the steps rely on: a well-formed file whose first entries are least. */
  ghost predicate Good(f: File) {
    WellFormed(f) && FirstIsLeast(f)
  }

  lemma {:induction false} AdvanceReads(job: Job, f: File)
    requires Good(f) && Trim(job.target.id) == job.target.id
    ensures Advance(job, Reading, Settle(f)) == (Advance(job, Reading, f).0, Settle(f))
  {
    var id := job.target.id;
    LookupSettle(f, id);
    if Lookup(f, id).entries != [] { LeastStaysFirst(Lookup(f, id).entries); }
  }

  /** Each step does on the sorted file what it does on the file. */
  lemma {:induction false} AdvanceSettles(job: Job, s: Stage, f: File)
    requires Good(f) && !s.Finished? && StageOk(job, s, Settle(f)) && Trim(job.target.id) == job.target.id
    ensures var (s', g) := Advance(job, s, f); Advance(job, s, Settle(f)) == (s', Settle(g)) && Good(g)
  {
    var id, c := job.target.id, job.replies;
    var ws, sorted := Lookup(f, id), Lookup(Settle(f), id);
    SettleSettles(f);
    LookupSettle(f, id);
    AdvanceIsLocal(job, s, Settle(f));
    match s
    case Reading => AdvanceReads(job, f);
    case Clearing =>
      PutSettle(f, id, WorkspaceMapping(1, []));
      PutStaysGood(f, id, WorkspaceMapping(1, []));
    case Reusing(e) =>
      var next := ws.(entries := [e.(lastUsedAt := c.reuseNow)]);
      assert Tidy(next);
      PutSettle(f, id, next);
      PutStaysGood(f, id, next);
    case Allocating(_) =>
      AllocateSettle(f, id);
      SettledIsSettle(Advance(job, s, f).1);
    case Committing(cmuxId, n, title) =>
      var next := ws.(entries := [Entry(cmuxId, n, title, c.createNow, c.createNow)]);
      assert Tidy(next);
      PutSettle(f, id, next);
      PutStaysGood(f, id, next);
    case _ =>
  }

  function SettlePool(p: Pool): Pool {
    p.(file := Settle(p.file))
  }

  /** On track: the pool over the sorted file keeps the invariant. */
  ghost predicate Shadowed(jobs: seq<Job>, f: File, p: Pool) {
    Good(p.file) && PoolInv(jobs, Settle(f), SettlePool(p))
  }

  lemma {:induction false} StepShadowed(jobs: seq<Job>, f: File, p: Pool, w: nat)
    requires DistinctTrimmedIds(jobs) && Shadowed(jobs, f, p) && Enabled(jobs, p, w)
    ensures Shadowed(jobs, f, PoolStep(jobs, p, w))
    ensures SettlePool(PoolStep(jobs, p, w)) == PoolStep(jobs, SettlePool(p), w)
  {
    StepKeepsInv(jobs, Settle(f), SettlePool(p), w);
    if p.workers[w].Busy? && !p.workers[w].stage.Finished? {
      var j, s := p.workers[w].job, p.workers[w].stage;
      assert InFlight(jobs, Settle(f), Settle(p.file), j, s);
      AdvanceSettles(jobs[j], s, p.file);
    }
  }

  lemma {:induction false} StartShadowed(jobs: seq<Job>, f: File, concurrency: nat)
    requires Good(f)
    ensures Shadowed(jobs, f, StartPool(f, concurrency))
  {
    SettleSettles(f);
    BusyCountIdle(StartPool(f, concurrency).workers);
  }

  // ----- Whether a call allocates -----

  /** Given whether it finds an entry, a call allocates, which normalizes the whole file, or never does. */
  predicate Allocates(job: Job, found: bool) {
    var c := job.replies;
    c.create.Some? && (found ==> c.identify.NotFound? || (c.identify.Done? && c.selectExisting.NotFound?))
  }

  predicate WillAllocate(job: Job, s: Stage, f: File) {
    match s
    case Reading => Allocates(job, Lookup(f, job.target.id).entries != [])
    case Probing(_) => Allocates(job, true)
    case Clearing => job.replies.create.Some?
    case Creating => job.replies.create.Some?
    case Allocating(_) => true
    case _ => false
  }

  lemma {:induction false} AdvanceTowardsAllocation(job: Job, s: Stage, f: File)
    requires !s.Finished?
    ensures WillAllocate(job, s, f) <==> s.Allocating? || WillAllocate(job, Advance(job, s, f).0, Advance(job, s, f).1)
  {
  }

  /** Steps of other targets do not change it. */
  lemma {:induction false} OthersKeepAllocation(job: Job, s: Stage, f: File, g: File)
    requires |Lookup(f, job.target.id).entries| == |Lookup(g, job.target.id).entries|
    ensures WillAllocate(job, s, f) <==> WillAllocate(job, s, g)
  {
  }

  /** Without an allocation, a workspace is as it was or has at most one entry. */
  ghost predicate Quiet(f: File, g: File) {
    && g.version == f.version
    && forall k :: Only(g, k) == Only(f, k) || (k in g.workspaces && |g.workspaces[k].entries| <= 1)
  }

  lemma {:induction false} AdvanceStaysQuiet(job: Job, s: Stage, f: File, g: File)
    requires Quiet(f, g) && !s.Finished? && !s.Allocating?
    ensures Quiet(f, Advance(job, s, g).1)
  {
    var id, h := job.target.id, Advance(job, s, g).1;
    forall k ensures Only(h, k) == Only(f, k) || (k in h.workspaces && |h.workspaces[k].entries| <= 1) {
      if k != id { assert Only(h, k) == Only(g, k); }
    }
  }

  // ----- Runs -----

  lemma {:induction false} LastStep(jobs: seq<Job>, f: File, concurrency: nat, run: seq<Pool>, i: nat) returns (w: nat)
    requires IsRun(jobs, f, concurrency, run) && 0 < i < |run|
    ensures Enabled(jobs, run[i - 1], w) && run[i] == PoolStep(jobs, run[i - 1], w)
  {
    assert StepAt(jobs, run, i - 1);
    w :| Enabled(jobs, run[i - 1], w) && run[i] == PoolStep(jobs, run[i - 1], w);
  }

  lemma {:induction false} RunShadowed(jobs: seq<Job>, f: File, concurrency: nat, run: seq<Pool>, i: nat)
    requires DistinctTrimmedIds(jobs) && Good(f) && IsRun(jobs, f, concurrency, run) && i < |run|
    ensures Shadowed(jobs, f, run[i])
  {
    if i == 0 {
      StartShadowed(jobs, f, concurrency);
    } else {
      RunShadowed(jobs, f, concurrency, run, i - 1);
      var w := LastStep(jobs, f, concurrency, run, i);
      StepShadowed(jobs, f, run[i - 1], w);
    }
  }

  /** A step by another target keeps the number of entries of a workspace. */
  lemma {:induction false} StepKeepsLength(jobs: seq<Job>, f: File, p: Pool, w: nat, k: string)
    requires DistinctTrimmedIds(jobs) && Shadowed(jobs, f, p) && Enabled(jobs, p, w)
    requires p.workers[w].Busy? ==> jobs[p.workers[w].job].target.id != k
    ensures |Lookup(PoolStep(jobs, p, w).file, k).entries| == |Lookup(p.file, k).entries|
  {
    if p.workers[w].Busy? && !p.workers[w].stage.Finished? {
      var j, s, q := p.workers[w].job, p.workers[w].stage, PoolStep(jobs, p, w);
      assert InFlight(jobs, Settle(f), Settle(p.file), j, s);
      AdvanceIsLocal(jobs[j], s, Settle(p.file));
      AdvanceSettles(jobs[j], s, p.file);
      SameOnly(Settle(p.file), Settle(q.file), jobs[j].target.id, k);
      LookupSettle(p.file, k);
      LookupSettle(q.file, k);
    }
  }

  /** A target that was not handed out yet finds as many entries as at the start. */
  lemma {:induction false} UntakenLength(jobs: seq<Job>, f: File, p: Pool, j: nat)
    requires DistinctTrimmedIds(jobs) && Good(f) && Shadowed(jobs, f, p) && p.next <= j < |jobs|
    ensures |Lookup(p.file, jobs[j].target.id).entries| == |Lookup(f, jobs[j].target.id).entries|
  {
    var k := jobs[j].target.id;
    assert Only(Settle(p.file), k) == Only(Settle(f), k);
    assert Lookup(Only(Settle(p.file), k), k) == Lookup(Settle(p.file), k);
    assert Lookup(Only(Settle(f), k), k) == Lookup(Settle(f), k);
    LookupSettle(p.file, k);
    LookupSettle(f, k);
  }

  /** The target allocates when it is opened alone. */
  predicate AllocatesAlone(jobs: seq<Job>, f: File, j: nat)
    requires j < |jobs|
  {
    Allocates(jobs[j], Lookup(f, jobs[j].target.id).entries != [])
  }

  lemma {:induction false} StepStaysSettled(jobs: seq<Job>, f: File, p: Pool, w: nat)
    requires DistinctTrimmedIds(jobs) && Shadowed(jobs, f, p) && Enabled(jobs, p, w)
    requires Settled(p.file) || (p.workers[w].Busy? && p.workers[w].stage.Allocating?)
    ensures Settled(PoolStep(jobs, p, w).file)
  {
    if p.workers[w].Busy? && !p.workers[w].stage.Finished? {
      var j, s := p.workers[w].job, p.workers[w].stage;
      assert InFlight(jobs, Settle(f), Settle(p.file), j, s);
      SettleSettles(p.file);
      AdvanceIsLocal(jobs[j], s, Settle(p.file));
      if Settled(p.file) { SettledIsSettle(p.file); } else { AllocateSettle(p.file, jobs[j].target.id); }
    }
  }

  // If some target allocates, the file is settled once that target is reported.

  ghost predicate InHand(jobs: seq<Job>, p: Pool, j: nat, v: nat)
    requires j < |jobs|
  {
    v < |p.workers| && p.workers[v].Busy? && p.workers[v].job == j && WillAllocate(jobs[j], p.workers[v].stage, p.file)
  }

  ghost predicate Pending(jobs: seq<Job>, p: Pool, j: nat)
    requires j < |jobs|
  {
    p.next <= j || exists v: nat :: InHand(jobs, p, j, v)
  }

  lemma {:induction false} TakePending(jobs: seq<Job>, f: File, p: Pool, w: nat, j: nat)
    requires DistinctTrimmedIds(jobs) && Good(f) && Shadowed(jobs, f, p) && Enabled(jobs, p, w)
    requires j < |jobs| && AllocatesAlone(jobs, f, j) && p.next <= j
    ensures Pending(jobs, PoolStep(jobs, p, w), j)
  {
    var q := PoolStep(jobs, p, w);
    if p.workers[w].Idle? && p.next == j {
      UntakenLength(jobs, f, p, j);
      assert InHand(jobs, q, j, w);
    }
  }

  lemma {:induction false} InHandPending(jobs: seq<Job>, f: File, p: Pool, w: nat, j: nat, v: nat)
    requires DistinctTrimmedIds(jobs) && Shadowed(jobs, f, p) && Enabled(jobs, p, w) && j < |jobs|
        && InHand(jobs, p, j, v)
    requires !(p.workers[w].Busy? && p.workers[w].stage.Allocating?)
    ensures Pending(jobs, PoolStep(jobs, p, w), j)
  {
    var q := PoolStep(jobs, p, w);
    if v == w {
      AdvanceTowardsAllocation(jobs[j], p.workers[w].stage, p.file);
      assert InHand(jobs, q, j, v);
    } else {
      if p.workers[w].Busy? { assert p.workers[w].job != j; }
      StepKeepsLength(jobs, f, p, w, jobs[j].target.id);
      OthersKeepAllocation(jobs[j], p.workers[v].stage, p.file, q.file);
      assert InHand(jobs, q, j, v);
    }
  }

  lemma {:induction false} StepPending(jobs: seq<Job>, f: File, p: Pool, w: nat, j: nat)
    requires DistinctTrimmedIds(jobs) && Good(f) && Shadowed(jobs, f, p) && Enabled(jobs, p, w)
    requires j < |jobs| && AllocatesAlone(jobs, f, j) && (Settled(p.file) || Pending(jobs, p, j))
    ensures Settled(PoolStep(jobs, p, w).file) || Pending(jobs, PoolStep(jobs, p, w), j)
  {
    if Settled(p.file) || (p.workers[w].Busy? && p.workers[w].stage.Allocating?) {
      StepStaysSettled(jobs, f, p, w);
    } else if p.next <= j {
      TakePending(jobs, f, p, w, j);
    } else {
      var v: nat :| InHand(jobs, p, j, v);
      InHandPending(jobs, f, p, w, j, v);
    }
  }

  lemma {:induction false} RunPending(jobs: seq<Job>, f: File, concurrency: nat, run: seq<Pool>, i: nat, j: nat)
    requires DistinctTrimmedIds(jobs) && Good(f) && IsRun(jobs, f, concurrency, run) && i < |run|
    requires j < |jobs| && AllocatesAlone(jobs, f, j)
    ensures Settled(run[i].file) || Pending(jobs, run[i], j)
  {
    if i > 0 {
      RunPending(jobs, f, concurrency, run, i - 1, j);
      RunShadowed(jobs, f, concurrency, run, i - 1);
      var w := LastStep(jobs, f, concurrency, run, i);
      StepPending(jobs, f, run[i - 1], w, j);
    }
  }

  // If no target allocates, every workspace stays as it was or becomes short.

  ghost predicate NoneAllocates(jobs: seq<Job>, f: File) {
    forall j :: 0 <= j < |jobs| ==> !AllocatesAlone(jobs, f, j)
  }

  ghost predicate Calm(jobs: seq<Job>, f: File, p: Pool) {
    && Quiet(f, p.file)
    && forall v :: 0 <= v < |p.workers| && p.workers[v].Busy? && p.workers[v].job < |jobs| ==>
         !WillAllocate(jobs[p.workers[v].job], p.workers[v].stage, p.file)
  }

  lemma {:induction false} StepCalm(jobs: seq<Job>, f: File, p: Pool, w: nat)
    requires DistinctTrimmedIds(jobs) && Good(f) && Shadowed(jobs, f, p) && Enabled(jobs, p, w)
    requires NoneAllocates(jobs, f) && Calm(jobs, f, p)
    ensures Calm(jobs, f, PoolStep(jobs, p, w))
  {
    var q := PoolStep(jobs, p, w);
    if p.workers[w].Busy? && !p.workers[w].stage.Finished? {
      AdvanceStaysQuiet(jobs[p.workers[w].job], p.workers[w].stage, f, p.file);
    }
    forall v | 0 <= v < |q.workers| && q.workers[v].Busy? && q.workers[v].job < |jobs|
      ensures !WillAllocate(jobs[q.workers[v].job], q.workers[v].stage, q.file)
    {
      WorkerCalm(jobs, f, p, w, v);
    }
  }

  lemma {:induction false} WorkerCalm(jobs: seq<Job>, f: File, p: Pool, w: nat, v: nat)
    requires DistinctTrimmedIds(jobs) && Good(f) && Shadowed(jobs, f, p) && Enabled(jobs, p, w)
    requires NoneAllocates(jobs, f) && Calm(jobs, f, p) && v < |p.workers|
    ensures var q := PoolStep(jobs, p, w);
            q.workers[v].Busy? && q.workers[v].job < |jobs| ==>
                !WillAllocate(jobs[q.workers[v].job], q.workers[v].stage, q.file)
  {
    var q := PoolStep(jobs, p, w);
    if v == w {
      if p.workers[w].Idle? {
        UntakenLength(jobs, f, p, p.next);
        assert !AllocatesAlone(jobs, f, p.next);
      } else if !p.workers[w].stage.Finished? {
        AdvanceTowardsAllocation(jobs[p.workers[w].job], p.workers[w].stage, p.file);
      }
    } else if p.workers[v].Busy? {
      var j := p.workers[v].job;
      if p.workers[w].Busy? { assert p.workers[w].job != j; }
      StepKeepsLength(jobs, f, p, w, jobs[j].target.id);
      OthersKeepAllocation(jobs[j], p.workers[v].stage, p.file, q.file);
    }
  }

  lemma {:induction false} RunCalm(jobs: seq<Job>, f: File, concurrency: nat, run: seq<Pool>, i: nat)
    requires DistinctTrimmedIds(jobs) && Good(f) && IsRun(jobs, f, concurrency, run) && i < |run|
        && NoneAllocates(jobs, f)
    ensures Calm(jobs, f, run[i])
  {
    if i > 0 {
      RunCalm(jobs, f, concurrency, run, i - 1);
      RunShadowed(jobs, f, concurrency, run, i - 1);
      var w := LastStep(jobs, f, concurrency, run, i);
      StepCalm(jobs, f, run[i - 1], w);
    }
  }

  // ----- Any two drained runs agree -----

  lemma {:induction false} ShortIsFixed(ws: WorkspaceMapping)
    requires WellNumbered(ws) && |ws.entries| <= 1
    ensures NormalizeWorkspace(ws) == ws
  {
    TidyIffFixed(ws);
  }

  lemma {:induction false} QuietAgree(f: File, g: File, h: File, k: string)
    requires WellFormed(g) && WellFormed(h) && Quiet(f, g) && Quiet(f, h) && Settle(g) == Settle(h)
    ensures Only(g, k) == Only(h, k)
  {
    assert k in g.workspaces <==> k in Settle(g).workspaces;
    assert k in h.workspaces <==> k in Settle(h).workspaces;
    if k in g.workspaces && (Only(g, k) != Only(f, k) || Only(h, k) != Only(f, k)) {
      assert NormalizeWorkspace(g.workspaces[k]) == Settle(g).workspaces[k] == NormalizeWorkspace(h.workspaces[k]);
      assert |g.workspaces[k].entries| == |h.workspaces[k].entries| <= 1;
      ShortIsFixed(g.workspaces[k]);
      ShortIsFixed(h.workspaces[k]);
    }
  }

  /** A drained run in which some target allocated has settled the file. */
  lemma {:induction false} DrainedIsSettled(jobs: seq<Job>, f: File, c: nat, run: seq<Pool>, j: nat)
    requires DistinctTrimmedIds(jobs) && Good(f) && IsRun(jobs, f, c, run) && Drained(jobs, run[|run| - 1])
    requires j < |jobs| && AllocatesAlone(jobs, f, j)
    ensures Settle(run[|run| - 1].file) == run[|run| - 1].file
  {
    RunPending(jobs, f, c, run, |run| - 1, j);
    SettledIsSettle(run[|run| - 1].file);
  }

  /** One in which none did has left it quiet. */
  lemma {:induction false} DrainedIsQuiet(jobs: seq<Job>, f: File, c: nat, run: seq<Pool>)
    requires DistinctTrimmedIds(jobs) && Good(f) && IsRun(jobs, f, c, run) && NoneAllocates(jobs, f)
    ensures WellFormed(run[|run| - 1].file) && Quiet(f, run[|run| - 1].file)
  {
    RunShadowed(jobs, f, c, run, |run| - 1);
    RunCalm(jobs, f, c, run, |run| - 1);
  }

  lemma {:induction false} QuietFilesAgree(f: File, g: File, h: File)
    requires WellFormed(g) && WellFormed(h) && Quiet(f, g) && Quiet(f, h) && Settle(g) == Settle(h)
    ensures g == h
  {
    forall k ensures Only(g, k) == Only(h, k) { QuietAgree(f, g, h, k); }
    SameFile(g, h);
  }

  lemma {:induction false} DrainedFilesAgree(jobs: seq<Job>, f: File, c: nat, run: seq<Pool>, d: nat, other: seq<Pool>)
    requires DistinctTrimmedIds(jobs) && Good(f)
    requires IsRun(jobs, f, c, run) && Drained(jobs, run[|run| - 1])
    requires IsRun(jobs, f, d, other) && Drained(jobs, other[|other| - 1])
    requires Settle(run[|run| - 1].file) == Settle(other[|other| - 1].file)
    ensures run[|run| - 1].file == other[|other| - 1].file
  {
    if NoneAllocates(jobs, f) {
      DrainedIsQuiet(jobs, f, c, run);
      DrainedIsQuiet(jobs, f, d, other);
      QuietFilesAgree(f, run[|run| - 1].file, other[|other| - 1].file);
    } else {
      var j :| 0 <= j < |jobs| && AllocatesAlone(jobs, f, j);
      DrainedIsSettled(jobs, f, c, run, j);
      DrainedIsSettled(jobs, f, d, other, j);
    }
  }

  lemma {:induction false} DrainedRunsAgree(jobs: seq<Job>, f: File, c: nat, run: seq<Pool>, d: nat, other: seq<Pool>)
    requires DistinctTrimmedIds(jobs) && Good(f)
    requires IsRun(jobs, f, c, run) && Drained(jobs, run[|run| - 1]) && IsRun(jobs, f, d, other)
        && Drained(jobs, other[|other| - 1])
    ensures InOrder(run[|run| - 1].out) == InOrder(other[|other| - 1].out)
        && run[|run| - 1].file == other[|other| - 1].file
  {
    SettleSettles(f);
    RunShadowed(jobs, f, c, run, |run| - 1);
    RunShadowed(jobs, f, d, other, |other| - 1);
    DrainedIsSequential(jobs, Settle(f), SettlePool(run[|run| - 1]));
    DrainedIsSequential(jobs, Settle(f), SettlePool(other[|other| - 1]));
    DrainedFilesAgree(jobs, f, c, run, d, other);
  }

  // ----- Building runs -----

  ghost predicate Reaches(jobs: seq<Job>, f: File, c: nat, p: Pool) {
    exists run :: IsRun(jobs, f, c, run) && run[|run| - 1] == p
  }

  lemma {:induction false} ReachesStart(jobs: seq<Job>, f: File, c: nat)
    ensures Reaches(jobs, f, c, StartPool(f, c))
  {
    assert IsRun(jobs, f, c, [StartPool(f, c)]);
  }

  lemma {:induction false} ReachesStep(jobs: seq<Job>, f: File, c: nat, p: Pool, w: nat)
    requires Reaches(jobs, f, c, p) && Enabled(jobs, p, w)
    ensures Reaches(jobs, f, c, PoolStep(jobs, p, w))
  {
    var run :| IsRun(jobs, f, c, run) && run[|run| - 1] == p;
    var longer := run + [PoolStep(jobs, p, w)];
    forall i: nat | i + 1 < |longer| ensures StepAt(jobs, longer, i) {
      if i + 1 < |run| {
        assert StepAt(jobs, run, i);
        assert longer[i] == run[i] && longer[i + 1] == run[i + 1];
      } else {
        assert longer[i] == p;
      }
    }
    assert IsRun(jobs, f, c, longer);
  }

  /** The pool after worker w has finished its call undisturbed. */
  function Completed(jobs: seq<Job>, p: Pool, w: nat): Pool
    requires w < |p.workers| && p.workers[w].Busy? && p.workers[w].job < |jobs|
  {
    var (o, g) := Complete(jobs[p.workers[w].job], p.workers[w].stage, p.file);
    p.(file := g, workers := p.workers[w := Idle], out := p.out + [Report(p.workers[w].job, o)])
  }

  lemma {:induction false} ReachesCompleted(jobs: seq<Job>, f: File, c: nat, p: Pool, w: nat)
    requires Reaches(jobs, f, c, p) && w < |p.workers| && p.workers[w].Busy? && p.workers[w].job < |jobs|
    ensures Reaches(jobs, f, c, Completed(jobs, p, w))
    decreases Rank(p.workers[w].stage)
  {
    var q := PoolStep(jobs, p, w);
    ReachesStep(jobs, f, c, p, w);
    if p.workers[w].stage.Finished? {
      assert q == Completed(jobs, p, w);
    } else {
      ReachesCompleted(jobs, f, c, q, w);
      assert q.workers[w := Idle] == p.workers[w := Idle];
      assert Completed(jobs, q, w) == Completed(jobs, p, w);
    }
  }

  function Reports(os: seq<Outcome>): (r: seq<Report>)
    ensures |r| == |os| && forall i :: 0 <= i < |os| ==> r[i] == Report(i, os[i])
  {
    seq(|os|, i requires 0 <= i < |os| => Report(i, os[i]))
  }

  /** The pool with one worker after n targets. */
  function OneByOne(jobs: seq<Job>, n: nat, f: File): Pool
    requires n <= |jobs|
  {
    Pool(OpenFirst(jobs, n, f).1, n, [Idle], Reports(OpenFirst(jobs, n, f).0))
  }

  lemma {:induction false} ReachesOneByOne(jobs: seq<Job>, n: nat, f: File)
    requires n <= |jobs|
    ensures Reaches(jobs, f, 1, OneByOne(jobs, n, f))
  {
    if n == 0 {
      ReachesStart(jobs, f, 1);
      assert StartPool(f, 1) == OneByOne(jobs, 0, f);
    } else {
      ReachesOneByOne(jobs, n - 1, f);
      NextOneByOne(jobs, n - 1, f);
      ReachesStep(jobs, f, 1, OneByOne(jobs, n - 1, f), 0);
      ReachesCompleted(jobs, f, 1, PoolStep(jobs, OneByOne(jobs, n - 1, f), 0), 0);
    }
  }

  lemma {:induction false} NextOneByOne(jobs: seq<Job>, n: nat, f: File)
    requires n < |jobs|
    ensures var p := OneByOne(jobs, n, f);
            && Enabled(jobs, p, 0)
            && var q := PoolStep(jobs, p, 0);
               && |q.workers| == 1 && q.workers[0] == Busy(n, Reading)
               && Completed(jobs, q, 0) == OneByOne(jobs, n + 1, f)
  {
    var p := OneByOne(jobs, n, f);
    var q := PoolStep(jobs, p, 0);
    assert q.workers == [Busy(n, Reading)] && q.workers[0 := Idle] == [Idle];
    var (os, g) := OpenFirst(jobs, n, f);
    var (o, h) := Complete(jobs[n], Reading, g);
    assert OpenFirst(jobs, n + 1, f) == (os + [o], h);
    assert Reports(os + [o]) == Reports(os) + [Report(n, o)];
  }

  lemma {:induction false} InOrderReports(os: seq<Outcome>)
    ensures InOrder(Reports(os)) == os
  {
    SortOfSorted(Reports(os), IndexLe);
  }

  /** Opening one by one is the run of a pool with one worker. */
  lemma {:induction false} OneWorkerRun(jobs: seq<Job>, f: File) returns (run: seq<Pool>)
    ensures IsRun(jobs, f, 1, run) && Drained(jobs, run[|run| - 1])
    ensures (InOrder(run[|run| - 1].out), run[|run| - 1].file) == OpenAll(jobs, f)
  {
    ReachesOneByOne(jobs, |jobs|, f);
    InOrderReports(OpenAll(jobs, f).0);
    run :| IsRun(jobs, f, 1, run) && run[|run| - 1] == OneByOne(jobs, |jobs|, f);
  }

  lemma {:induction false} LeastFirstSuffices(f: File)
    requires Good(f)
    ensures OrderIndependent(f)
  {
    forall jobs: seq<Job>, c: nat, run: seq<Pool> | DistinctTrimmedIds(jobs) && IsRun(jobs, f, c, run)
        && Drained(jobs, run[|run| - 1])
      ensures (InOrder(run[|run| - 1].out), run[|run| - 1].file) == OpenAll(jobs, f)
    {
      var other := OneWorkerRun(jobs, f);
      DrainedRunsAgree(jobs, f, c, run, 1, other);
    }
  }

  // ----- An entry that is less than the first makes the order matter -----

  /** Opened by reusing the first entry. */
  function Reuser(id: string): Job {
    Job(Target(id, "", ""), Replies(Done, Done, None, true, true, true, "", ""))
  }

  /** Allocates an ordinal, whatever it finds, and then fails. */
  function Allocator(id: string): Job {
    Job(Target(id, "", ""), Replies(NotFound, NotFound, Some("n"), false, true, true, "", ""))
  }

  lemma {:induction false} ReuserTakesFirst(id: string, f: File)
    requires Lookup(f, id).entries != []
    ensures var e := Lookup(f, id).entries[0];
            Complete(Reuser(id), Reading, f).0 == Opened(Item(id, "", e.cmuxId, e.ordinal, e.title, true))
  {
    var e := Lookup(f, id).entries[0];
    assert Advance(Reuser(id), Reading, f) == (Probing(e), f);
    assert Advance(Reuser(id), Probing(e), f) == (Reusing(e), f);
    assert Complete(Reuser(id), Probing(e), f) == Complete(Reuser(id), Reusing(e), f);
  }

  lemma {:induction false} AllocatorCreates(id: string, g: File, k: string)
    requires WellFormed(g) && Trim(id) == id != "" && k != id && k in g.workspaces
    ensures Lookup(Complete(Allocator(id), Creating, g).1, k) == NormalizeWorkspace(g.workspaces[k])
  {
    var job, h := Allocator(id), Allocate(g, id).1;
    assert Complete(job, Creating, g) == Complete(job, Allocating("n"), g);
    var s := Advance(job, Allocating("n"), g).0;
    assert Complete(job, Allocating("n"), g) == Complete(job, s, h);
    assert Complete(job, s, h).1 == h;
  }

  /** What it finds it clears. */
  lemma {:induction false} AllocatorClears(id: string, f: File) returns (g: File)
    requires WellFormed(f)
    ensures Complete(Allocator(id), Reading, f) == Complete(Allocator(id), Creating, g)
    ensures WellFormed(g) && forall k :: k != id && k in f.workspaces ==>
        k in g.workspaces && g.workspaces[k] == f.workspaces[k]
  {
    var job := Allocator(id);
    if Lookup(f, id).entries == [] {
      g := f;
      assert Complete(job, Reading, f) == Complete(job, Creating, f);
    } else {
      var e := Lookup(f, id).entries[0];
      g := Put(f, id, WorkspaceMapping(1, []));
      assert Complete(job, Reading, f) == Complete(job, Probing(e), f) == Complete(job, Clearing, f)
          == Complete(job, Creating, g);
    }
  }

  lemma {:induction false} AllocatorSorts(id: string, f: File, k: string)
    requires WellFormed(f) && Trim(id) == id != "" && k != id && k in f.workspaces
    ensures Lookup(Complete(Allocator(id), Reading, f).1, k) == NormalizeWorkspace(f.workspaces[k])
  {
    var g := AllocatorClears(id, f);
    AllocatorCreates(id, g, k);
  }

  /** The pool of two workers after both targets were taken, the second finished, then the first. */
  function SecondThenFirst(jobs: seq<Job>, f: File): Pool
    requires |jobs| == 2
  {
    var (o, g) := Complete(jobs[1], Reading, f);
    var (a, h) := Complete(jobs[0], Reading, g);
    Pool(h, 2, [Idle, Idle], [Report(1, o), Report(0, a)])
  }

  lemma {:induction false} ReachesSecondThenFirst(jobs: seq<Job>, f: File)
    requires |jobs| == 2
    ensures Reaches(jobs, f, 2, SecondThenFirst(jobs, f))
  {
    var p := StartPool(f, 2);
    ReachesStart(jobs, f, 2);
    ReachesStep(jobs, f, 2, p, 0);
    var p1 := PoolStep(jobs, p, 0);
    ReachesStep(jobs, f, 2, p1, 1);
    var p2 := PoolStep(jobs, p1, 1);
    assert p2 == Pool(f, 2, [Busy(0, Reading), Busy(1, Reading)], []);
    ReachesCompleted(jobs, f, 2, p2, 1);
    var (o, g) := Complete(jobs[1], Reading, f);
    var p3 := Pool(g, 2, [Busy(0, Reading), Idle], [Report(1, o)]);
    assert Completed(jobs, p2, 1) == p3;
    ReachesCompleted(jobs, f, 2, p3, 0);
    assert Completed(jobs, p3, 0) == SecondThenFirst(jobs, f);
  }

  lemma {:induction false} FirstOutcome(a: Report, b: Report)
    requires a.index == 1 && b.index == 0
    ensures InOrder([a, b])[0] == b.outcome
  {
    SortedReports([a, b]);
  }

  /** A target that reuses its first entry reuses another one after an allocation. */
  lemma {:induction false} OutcomesDiffer(f: File, k: string, id: string, e: Entry)
    requires WellFormed(f) && k in f.workspaces && Trim(id) == id != "" && k != id && e in f.workspaces[k].entries
    requires !EntryLe(f.workspaces[k].entries[0], e)
    ensures Complete(Reuser(k), Reading, Complete(Allocator(id), Reading, f).1).0 != Complete(Reuser(k), Reading, f).0
  {
    var ws, g := f.workspaces[k], Complete(Allocator(id), Reading, f).1;
    AllocatorSorts(id, f, k);
    NormalizeAgain(ws);
    ReuserTakesFirst(k, f);
    ReuserTakesFirst(k, g);
    LesserComesFirst(ws.entries, e);
  }

  lemma {:induction false} OtherId(k: string) returns (id: string)
    ensures Trim(id) == id != "" && id != k
  {
    assert Trim("b") == "b" && Trim("c") == "c";
    id := if k == "b" then "c" else "b";
  }

  lemma {:induction false} LesserEntryMatters(f: File, k: string, e: Entry)
    requires WellFormed(f) && k in f.workspaces && Trim(k) == k && e in f.workspaces[k].entries
    requires !EntryLe(f.workspaces[k].entries[0], e)
    ensures !OrderIndependent(f)
  {
    var id := OtherId(k);
    var jobs := [Reuser(k), Allocator(id)];
    OutcomesDiffer(f, k, id, e);
    ReachesSecondThenFirst(jobs, f);
    var p := SecondThenFirst(jobs, f);
    FirstOutcome(p.out[0], p.out[1]);
    OpenFirstOutcome(jobs, f);
    NotIndependent(jobs, f, 2, p);
  }

  lemma {:induction false} NotIndependent(jobs: seq<Job>, f: File, c: nat, p: Pool)
    requires DistinctTrimmedIds(jobs) && Reaches(jobs, f, c, p) && Drained(jobs, p) && jobs != [] && |p.out| > 0
    requires InOrder(p.out)[0] != OpenAll(jobs, f).0[0]
    ensures !OrderIndependent(f)
  {
    var run :| IsRun(jobs, f, c, run) && run[|run| - 1] == p;
  }

  lemma {:induction false} OpenFirstOutcome(jobs: seq<Job>, f: File)
    requires |jobs| == 2
    ensures OpenAll(jobs, f).0[0] == Complete(jobs[0], Reading, f).0
  {
    assert OpenFirst(jobs, 1, f).0 == [Complete(jobs[0], Reading, f).0];
  }

  /** For a loaded file, every pool ends as the targets one by one if and only if no workspace has an entry
      that is less than its first. */
  lemma {:induction false} OrderIndependentIff(f: File)
    requires WellFormed(f)
    ensures OrderIndependent(f) <==> FirstIsLeast(f)
  {
    if FirstIsLeast(f) {
      LeastFirstSuffices(f);
    } else {
      var k :| k in f.workspaces && Trim(k) == k && !LeastFirst(f.workspaces[k].entries);
      var e :| e in f.workspaces[k].entries && !EntryLe(f.workspaces[k].entries[0], e);
      LesserEntryMatters(f, k, e);
    }
  }

  /** Such files exist: with ordinals 0 and 1 on disk for the ids z and y, the file loads as z, y with equal
      ordinals, and the next normalization puts y first. */
  lemma {:induction false} OrderMattersWithoutOrdinals()
    ensures var disk := File(1, map["a" := WorkspaceMapping(0,
        [Entry("z", 0, "", "", ""), Entry("y", 1, "", "", "")])]);
            NormalizeFile(disk).Success? && WellFormed(NormalizeFile(disk).value)
                && !OrderIndependent(NormalizeFile(disk).value)
  {
    var z, y := Entry("z", 0, "", "", ""), Entry("y", 1, "", "", "");
    var disk := File(1, map["a" := WorkspaceMapping(0, [z, y])]);
    NormalizeFileEstablishes(disk);
    var f := NormalizeFile(disk).value;
    SortOfSorted([z, y], EntryLe);
    assert Renumber([z, y]) == [z.(ordinal := 1), y];
    assert f.workspaces["a"].entries == [z.(ordinal := 1), y];
    assert Trim("a") == "a" && !StrLe("z", "y");
    LesserEntryMatters(f, "a", y);
  }
}
