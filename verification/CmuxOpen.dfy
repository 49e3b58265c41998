/** Opening workspaces in cmux (internal/app/cmux/usecase.go): `openOne` as a step machine whose
    steps are the mutex-guarded sections and the client calls between them, and the worker pool
    that interleaves those steps for several targets over one shared mapping file. */
module CmuxOpen {
  import opened Text
  import opened Sorting
  import opened Subsequences
  import opened CmuxMap

  datatype Target = Target(id: string, path: string, title: string)

  datatype Reply = Done | NotFound | Broken

  /** What the client answers for one target, and the clock readings it uses. */
  datatype Replies = Replies(
    identify: Reply, selectExisting: Reply, create: Option<string>,
    renamed: bool, selected: bool, statusSet: bool, reuseNow: string, createNow: string)

  datatype Job = Job(target: Target, replies: Replies)

  datatype Item = Item(id: string, path: string, cmuxId: string, ordinal: int, title: string, reused: bool)

  datatype Outcome = Opened(item: Item) | OpenFailed(code: string)

  /** Where one `openOne` call stands; every stage is one guarded section or one block of client calls. */
  datatype Stage =
    | Reading
    | Probing(existing: Entry)
    | Clearing
    | Reusing(existing: Entry)
    | Creating
    | Allocating(cmuxId: string)
    | Naming(cmuxId: string, ordinal: int)
    | Committing(cmuxId: string, ordinal: int, title: string)
    | Finished(outcome: Outcome)

  function Rank(s: Stage): nat {
    match s
    case Reading => 7
    case Probing(_) => 6
    case Clearing => 5
    case Reusing(_) => 1
    case Creating => 4
    case Allocating(_) => 3
    case Naming(_, _) => 2
    case Committing(_, _, _) => 1
    case Finished(_) => 0
  }

  function Put(f: File, id: string, ws: WorkspaceMapping): File {
    f.(workspaces := f.workspaces[id := ws])
  }

  function Advance(job: Job, s: Stage, f: File): (r: (Stage, File))
    requires !s.Finished?
    ensures Rank(r.0) < Rank(s)
  {
    var t, c := job.target, job.replies;
    match s
    case Reading =>
      var entries := Lookup(f, t.id).entries;
      (if entries == [] then Creating else Probing(entries[0]), f)
    case Probing(e) =>
      (match c.identify
       case NotFound => Clearing
       case Broken => Finished(OpenFailed("cmux_identify_failed"))
       case Done =>
         match c.selectExisting
         case NotFound => Clearing
         case Broken => Finished(OpenFailed("cmux_select_failed"))
         case Done => Reusing(e),
       f)
    case Clearing =>
      (Creating, Put(f, t.id, WorkspaceMapping(1, [])))
    case Reusing(e) =>
      (Finished(Opened(Item(t.id, t.path, e.cmuxId, e.ordinal, e.title, true))),
       Put(f, t.id, Lookup(f, t.id).(entries := [e.(lastUsedAt := c.reuseNow)])))
    case Creating =>
      (if c.create.None? then Finished(OpenFailed("cmux_create_failed")) else Allocating(c.create.value), f)
    case Allocating(cmuxId) =>
      var (ordinal, g) := Allocate(f, t.id);
      (if ordinal.Failure? then Finished(OpenFailed("state_write_failed")) else Naming(cmuxId, ordinal.value), g)
    case Naming(cmuxId, ordinal) =>
      var title := FormatWorkspaceTitle(t.id, t.title);
      (if title.Failure? || !c.renamed then Finished(OpenFailed("cmux_rename_failed"))
       else if !c.selected then Finished(OpenFailed("cmux_select_failed"))
       else if !c.statusSet then Finished(OpenFailed("cmux_set_status_failed"))
       else Committing(cmuxId, ordinal, title.value), f)
    case Committing(cmuxId, ordinal, title) =>
      (Finished(Opened(Item(t.id, t.path, cmuxId, ordinal, title, false))),
       Put(f, t.id, Lookup(f, t.id).(entries := [Entry(cmuxId, ordinal, title, c.createNow, c.createNow)])))
  }

  /** The rest of an `openOne` call when nothing else touches the file. */
  function Complete(job: Job, s: Stage, f: File): (Outcome, File)
    decreases Rank(s)
  {
    if s.Finished? then (s.outcome, f)
    else
      var (s', g) := Advance(job, s, f);
      Complete(job, s', g)
  }

  /** Running the first n targets one after the other, failures included. */
  function OpenFirst(jobs: seq<Job>, n: nat, f: File): (r: (seq<Outcome>, File))
    requires n <= |jobs|
    ensures |r.0| == n
  {
    if n == 0 then ([], f)
    else
      var (os, g) := OpenFirst(jobs, n - 1, f);
      var (o, h) := Complete(jobs[n - 1], Reading, g);
      (os + [o], h)
  }

  function OpenAll(jobs: seq<Job>, f: File): (r: (seq<Outcome>, File))
    ensures |r.0| == |jobs|
  {
    OpenFirst(jobs, |jobs|, f)
  }

  // ----- A step touches only its own workspace -----

  ghost predicate Settled(f: File) {
    f.version == CURRENT_VERSION && forall id :: id in f.workspaces ==> Tidy(f.workspaces[id])
  }

  /** The part of the file that belongs to one workspace. */
  function Only(f: File, id: string): File {
    File(f.version, if id in f.workspaces then map[id := f.workspaces[id]] else map[])
  }

  ghost predicate SameElsewhere(f: File, g: File, id: string) {
    && g.version == f.version
    && (forall k :: k != id ==> (k in f.workspaces <==> k in g.workspaces))
    && (forall k :: k != id && k in f.workspaces ==> f.workspaces[k] == g.workspaces[k])
  }

  /** What a call in progress relies on in its own workspace. */
  ghost predicate StageOk(job: Job, s: Stage, f: File) {
    var ws := Lookup(f, job.target.id);
    match s
    case Probing(e) => e in ws.entries
    case Reusing(e) => e in ws.entries
    case Allocating(cmuxId) => job.replies.create == Some(cmuxId)
    case Naming(cmuxId, ordinal) => 1 <= ordinal < ws.nextOrdinal && job.replies.create == Some(cmuxId)
    case Committing(cmuxId, ordinal, _) => 1 <= ordinal < ws.nextOrdinal && job.replies.create == Some(cmuxId)
    case _ => true
  }

  lemma {:induction false} SettledIsFixed(f: File)
    requires Settled(f)
    ensures NormalizeFile(f) == Success(f)
  {
    forall id | id in f.workspaces ensures NormalizeWorkspace(f.workspaces[id]) == f.workspaces[id] {
      TidyIffFixed(f.workspaces[id]);
    }
    assert NormalizeFile(f).value.workspaces == f.workspaces;
  }

  lemma {:induction false} PutIsLocal(f: File, id: string, ws: WorkspaceMapping)
    requires Settled(f) && Tidy(ws)
    ensures SameElsewhere(f, Put(f, id, ws), id)
    ensures Settled(Put(f, id, ws))
    ensures Only(Put(f, id, ws), id) == Put(Only(f, id), id, ws)
    ensures Lookup(Put(f, id, ws), id) == ws
  {
    assert Only(Put(f, id, ws), id).workspaces == map[id := ws] == Put(Only(f, id), id, ws).workspaces;
  }

  /** On a settled file an allocation normalizes nothing: it only moves the counter of its own workspace. */
  lemma {:induction false} AllocateSettled(f: File, id: string)
    requires Settled(f) && Trim(id) == id != ""
    ensures var ws := Lookup(f, id);
            var ordinal := if ws.nextOrdinal < 1 then 1 else ws.nextOrdinal;
            Allocate(f, id) == (Success(ordinal), Put(f, id, ws.(nextOrdinal := ordinal + 1)))
  {
    SettledIsFixed(f);
  }

  lemma {:induction false} AllocateSettledBlank(f: File, id: string)
    requires Settled(f) && Trim(id) == ""
    ensures Allocate(f, id).0.Failure? && Allocate(f, id).1 == f
  {
    SettledIsFixed(f);
  }

  /** The step reads and writes only its own workspace, and keeps the file settled. */
  ghost predicate ActsLocally(job: Job, s: Stage, f: File)
    requires !s.Finished?
  {
    var id := job.target.id;
    var (s', g) := Advance(job, s, f);
    && SameElsewhere(f, g, id)
    && Settled(g) && StageOk(job, s', g)
    && Advance(job, s, Only(f, id)) == (s', Only(g, id))
  }

  lemma {:induction false} LookupOnly(f: File, id: string)
    ensures Lookup(Only(f, id), id) == Lookup(f, id)
  {
  }

  lemma {:induction false} ClearingIsLocal(job: Job, f: File)
    requires Settled(f)
    ensures ActsLocally(job, Clearing, f)
  {
    PutIsLocal(f, job.target.id, WorkspaceMapping(1, []));
  }

  lemma {:induction false} ReusingIsLocal(job: Job, e: Entry, f: File)
    requires Settled(f) && StageOk(job, Reusing(e), f)
    ensures ActsLocally(job, Reusing(e), f)
  {
    var id := job.target.id;
    LookupOnly(f, id);
    PutIsLocal(f, id, Lookup(f, id).(entries := [e.(lastUsedAt := job.replies.reuseNow)]));
  }

  lemma {:induction false} CommittingIsLocal(job: Job, cmuxId: string, ordinal: int, title: string, f: File)
    requires Settled(f) && StageOk(job, Committing(cmuxId, ordinal, title), f)
    ensures ActsLocally(job, Committing(cmuxId, ordinal, title), f)
  {
    var id, now := job.target.id, job.replies.createNow;
    LookupOnly(f, id);
    PutIsLocal(f, id, Lookup(f, id).(entries := [Entry(cmuxId, ordinal, title, now, now)]));
  }

  lemma {:induction false} AllocatingIsLocal(job: Job, cmuxId: string, f: File)
    requires Settled(f) && StageOk(job, Allocating(cmuxId), f) && Trim(job.target.id) == job.target.id
    ensures ActsLocally(job, Allocating(cmuxId), f)
  {
    var id := job.target.id;
    LookupOnly(f, id);
    if id == "" {
      AllocateSettledBlank(f, id);
      AllocateSettledBlank(Only(f, id), id);
    } else {
      AllocateIsLocal(f, id);
    }
  }

  lemma {:induction false} AllocateIsLocal(f: File, id: string)
    requires Settled(f) && Trim(id) == id != ""
    ensures var (r, g) := Allocate(f, id);
            && SameElsewhere(f, g, id) && Settled(g) && Allocate(Only(f, id), id) == (r, Only(g, id))
            && r.Success? && 1 <= r.value < Lookup(g, id).nextOrdinal
  {
    var ws := Lookup(f, id);
    LookupOnly(f, id);
    AllocateSettled(f, id);
    AllocateSettled(Only(f, id), id);
    PutIsLocal(f, id, ws.(nextOrdinal := if ws.nextOrdinal < 1 then 2 else ws.nextOrdinal + 1));
  }

  /** Independence: on a settled file a step reads and writes only its own workspace, and keeps the file settled. */
  lemma {:induction false} AdvanceIsLocal(job: Job, s: Stage, f: File)
    requires Settled(f) && !s.Finished? && StageOk(job, s, f)
    requires Trim(job.target.id) == job.target.id
    ensures var id := job.target.id;
            var (s', g) := Advance(job, s, f);
            && SameElsewhere(f, g, id)
            && Settled(g) && StageOk(job, s', g)
            && Advance(job, s, Only(f, id)) == (s', Only(g, id))
  {
    match s
    case Reading => LookupOnly(f, job.target.id);
    case Clearing => ClearingIsLocal(job, f);
    case Reusing(e) => ReusingIsLocal(job, e, f);
    case Allocating(cmuxId) => AllocatingIsLocal(job, cmuxId, f);
    case Committing(cmuxId, ordinal, title) => CommittingIsLocal(job, cmuxId, ordinal, title, f);
    case _ =>
  }

  lemma {:induction false} CompleteIsLocal(job: Job, s: Stage, f: File)
    requires Settled(f) && StageOk(job, s, f)
    requires Trim(job.target.id) == job.target.id
    ensures var id := job.target.id;
            var (o, g) := Complete(job, s, f);
            && SameElsewhere(f, g, id)
            && Settled(g)
            && Complete(job, s, Only(f, id)) == (o, Only(g, id))
    decreases Rank(s)
  {
    if !s.Finished? {
      AdvanceIsLocal(job, s, f);
      var (s', g) := Advance(job, s, f);
      CompleteIsLocal(job, s', g);
    }
  }

  function Owned(f: File, id: string): set<string> {
    var entries := Lookup(f, id).entries;
    set i | 0 <= i < |entries| :: entries[i].cmuxId
  }

  /** A finished call owns at most its old runtime ids and the one it created; a success owns exactly its own. */
  lemma {:induction false} CompleteOwns(job: Job, s: Stage, f: File)
    requires Settled(f) && StageOk(job, s, f) && !s.Finished?
    requires Trim(job.target.id) == job.target.id
    ensures var id := job.target.id;
            var (o, g) := Complete(job, s, f);
            && Owned(g, id) <= Owned(f, id) + (if job.replies.create.Some? then {job.replies.create.value} else {})
            && (o.Opened? ==>
                  && |Lookup(g, id).entries| == 1
                  && Lookup(g, id).entries[0].cmuxId == o.item.cmuxId
                  && Lookup(g, id).entries[0].ordinal == o.item.ordinal
                  && o.item.id == id)
    decreases Rank(s)
  {
    AdvanceIsLocal(job, s, f);
    var id := job.target.id;
    var (s', g) := Advance(job, s, f);
    var made := if job.replies.create.Some? then {job.replies.create.value} else {};
    assert Owned(g, id) <= Owned(f, id) + made by {
      if s.Allocating? {
        if id == "" { AllocateSettledBlank(f, id); } else { AllocateSettled(f, id); }
      }
    }
    if s'.Finished? {
      assert Complete(job, s, f) == (s'.outcome, g);
    } else {
      CompleteOwns(job, s', g);
    }
  }

  // ----- The worker pool -----

  datatype Worker = Idle | Busy(job: nat, stage: Stage)

  datatype Report = Report(index: nat, outcome: Outcome)

  /** The shared file, the next task to hand out, the workers, and the reports in completion order. */
  datatype Pool = Pool(file: File, next: nat, workers: seq<Worker>, out: seq<Report>)

  function StartPool(f: File, concurrency: nat): Pool {
    Pool(f, 0, seq(concurrency, _ => Idle), [])
  }

  predicate Enabled(jobs: seq<Job>, p: Pool, w: nat) {
    w < |p.workers| && (p.workers[w].Busy? || p.next < |jobs|) && (p.workers[w].Busy? ==> p.workers[w].job < |jobs|)
  }

  /** Worker w takes the next task, runs one section of its call, or reports its outcome. */
  function PoolStep(jobs: seq<Job>, p: Pool, w: nat): Pool
    requires Enabled(jobs, p, w)
  {
    match p.workers[w]
    case Idle => p.(next := p.next + 1, workers := p.workers[w := Busy(p.next, Reading)])
    case Busy(j, s) =>
      if s.Finished? then p.(workers := p.workers[w := Idle], out := p.out + [Report(j, s.outcome)])
      else
        var (s', g) := Advance(jobs[j], s, p.file);
        p.(file := g, workers := p.workers[w := Busy(j, s')])
  }

  predicate Drained(jobs: seq<Job>, p: Pool) {
    p.next >= |jobs| && forall w :: 0 <= w < |p.workers| ==> p.workers[w].Idle?
  }

  /** Any interleaving: each state follows from the one before by a step of some worker. */
  ghost predicate IsRun(jobs: seq<Job>, f: File, concurrency: nat, run: seq<Pool>) {
    && run != []
    && run[0] == StartPool(f, concurrency)
    && forall i: nat :: i + 1 < |run| ==> StepAt(jobs, run, i)
  }

  ghost predicate StepAt(jobs: seq<Job>, run: seq<Pool>, i: nat)
    requires i + 1 < |run|
  {
    exists w: nat :: Enabled(jobs, run[i], w) && run[i + 1] == PoolStep(jobs, run[i], w)
  }

  function BusyCount(ws: seq<Worker>): nat {
    if ws == [] then 0 else (if ws[0].Busy? then 1 else 0) + BusyCount(ws[1..])
  }

  lemma {:induction false} BusyCountUpdate(ws: seq<Worker>, w: nat, x: Worker)
    requires w < |ws|
    ensures BusyCount(ws[w := x]) == BusyCount(ws) - (if ws[w].Busy? then 1 else 0) + (if x.Busy? then 1 else 0)
  {
    if w == 0 {
      assert ws[w := x][1..] == ws[1..];
    } else {
      assert ws[w := x][1..] == ws[1..][w - 1 := x];
      BusyCountUpdate(ws[1..], w - 1, x);
    }
  }

  lemma {:induction false} BusyCountIdle(ws: seq<Worker>)
    requires forall w :: 0 <= w < |ws| ==> ws[w].Idle?
    ensures BusyCount(ws) == 0
  {
    if ws != [] { BusyCountIdle(ws[1..]); }
  }

  ghost predicate DistinctTrimmedIds(jobs: seq<Job>) {
    && (forall i :: 0 <= i < |jobs| ==> Trim(jobs[i].target.id) == jobs[i].target.id)
    && (forall i, j :: 0 <= i < j < |jobs| ==> jobs[i].target.id != jobs[j].target.id)
  }

  /** What target j ends with when it is alone with the initial file. */
  ghost function Alone(jobs: seq<Job>, f: File, j: nat): (Outcome, File)
    requires j < |jobs|
  {
    Complete(jobs[j], Reading, Only(f, jobs[j].target.id))
  }

  /** A job is in flight or reported at most once. */
  ghost predicate Accounted(jobs: seq<Job>, p: Pool) {
    && p.next <= |jobs|
    && |p.out| + BusyCount(p.workers) == p.next
    && (forall w :: 0 <= w < |p.workers| && p.workers[w].Busy? ==> p.workers[w].job < p.next)
    && (forall i :: 0 <= i < |p.out| ==> p.out[i].index < p.next)
    && (forall v, w :: 0 <= v < w < |p.workers| && p.workers[v].Busy? && p.workers[w].Busy? ==>
        p.workers[v].job != p.workers[w].job)
    && (forall i, j :: 0 <= i < j < |p.out| ==> p.out[i].index != p.out[j].index)
    && (forall w, i :: 0 <= w < |p.workers| && p.workers[w].Busy? && 0 <= i < |p.out| ==>
        p.workers[w].job != p.out[i].index)
  }

  /** Every job is on the path it would take alone, and untouched workspaces are as they were. */
  ghost predicate OnTrack(jobs: seq<Job>, f: File, p: Pool)
    requires p.next <= |jobs|
    requires forall w :: 0 <= w < |p.workers| && p.workers[w].Busy? ==> p.workers[w].job < p.next
    requires forall i :: 0 <= i < |p.out| ==> p.out[i].index < p.next
  {
    && Settled(p.file)
    && Untouched(jobs, p.next, f, p.file)
    && (forall w :: 0 <= w < |p.workers| && p.workers[w].Busy? ==>
        InFlight(jobs, f, p.file, p.workers[w].job, p.workers[w].stage))
    && (forall i :: 0 <= i < |p.out| ==> Reported(jobs, f, p.file, p.out[i].index, p.out[i].outcome))
  }

  /** Workspaces that are not among the first n targets are as they were. */
  ghost predicate Untouched(jobs: seq<Job>, n: nat, f: File, now: File)
    requires n <= |jobs|
  {
    forall k :: (forall j :: 0 <= j < n ==> jobs[j].target.id != k) ==> Only(now, k) == Only(f, k)
  }

  ghost predicate InFlight(jobs: seq<Job>, f: File, now: File, j: nat, s: Stage)
    requires j < |jobs|
  {
    StageOk(jobs[j], s, now) && Complete(jobs[j], s, Only(now, jobs[j].target.id)) == Alone(jobs, f, j)
  }

  ghost predicate Reported(jobs: seq<Job>, f: File, now: File, j: nat, o: Outcome)
    requires j < |jobs|
  {
    (o, Only(now, jobs[j].target.id)) == Alone(jobs, f, j)
  }

  ghost predicate PoolInv(jobs: seq<Job>, f: File, p: Pool) {
    Accounted(jobs, p) && OnTrack(jobs, f, p)
  }

  lemma {:induction false} StepAccounted(jobs: seq<Job>, p: Pool, w: nat)
    requires Accounted(jobs, p) && Enabled(jobs, p, w)
    ensures Accounted(jobs, PoolStep(jobs, p, w))
  {
    var q := PoolStep(jobs, p, w);
    BusyCountUpdate(p.workers, w, q.workers[w]);
  }

  lemma {:induction false} SameOnly(f: File, g: File, id: string, k: string)
    requires SameElsewhere(f, g, id) && k != id
    ensures Only(f, k) == Only(g, k) && Lookup(f, k) == Lookup(g, k)
  {
  }

  lemma {:induction false} TakeOnTrack(jobs: seq<Job>, f: File, p: Pool, w: nat)
    requires DistinctTrimmedIds(jobs) && PoolInv(jobs, f, p) && Enabled(jobs, p, w) && p.workers[w].Idle?
    ensures PoolInv(jobs, f, PoolStep(jobs, p, w))
  {
    StepAccounted(jobs, p, w);
    var q := PoolStep(jobs, p, w);
    assert Only(p.file, jobs[p.next].target.id) == Only(f, jobs[p.next].target.id);
    assert InFlight(jobs, f, q.file, p.next, Reading);
    forall v | 0 <= v < |q.workers| && q.workers[v].Busy?
      ensures InFlight(jobs, f, q.file, q.workers[v].job, q.workers[v].stage)
    {
      if v != w { assert q.workers[v] == p.workers[v]; }
    }
  }

  lemma {:induction false} ReportOnTrack(jobs: seq<Job>, f: File, p: Pool, w: nat)
    requires PoolInv(jobs, f, p) && Enabled(jobs, p, w) && p.workers[w].Busy? && p.workers[w].stage.Finished?
    ensures PoolInv(jobs, f, PoolStep(jobs, p, w))
  {
    StepAccounted(jobs, p, w);
    assert InFlight(jobs, f, p.file, p.workers[w].job, p.workers[w].stage);
  }

  lemma {:induction false} RunOnTrack(jobs: seq<Job>, f: File, p: Pool, w: nat)
    requires DistinctTrimmedIds(jobs) && PoolInv(jobs, f, p) && Enabled(jobs, p, w)
    requires p.workers[w].Busy? && !p.workers[w].stage.Finished?
    ensures PoolInv(jobs, f, PoolStep(jobs, p, w))
  {
    StepAccounted(jobs, p, w);
    var q := PoolStep(jobs, p, w);
    var j, s := p.workers[w].job, p.workers[w].stage;
    var id := jobs[j].target.id;
    assert InFlight(jobs, f, p.file, j, s);
    AdvanceIsLocal(jobs[j], s, p.file);
    assert InFlight(jobs, f, q.file, j, q.workers[w].stage);
    forall v | 0 <= v < |q.workers| && q.workers[v].Busy?
      ensures InFlight(jobs, f, q.file, q.workers[v].job, q.workers[v].stage)
    {
      if v != w {
        assert q.workers[v] == p.workers[v];
        SameOnly(p.file, q.file, id, jobs[q.workers[v].job].target.id);
      }
    }
    forall i | 0 <= i < |q.out| ensures Reported(jobs, f, q.file, q.out[i].index, q.out[i].outcome) {
      SameOnly(p.file, q.file, id, jobs[q.out[i].index].target.id);
    }
    assert Untouched(jobs, q.next, f, q.file) by {
      forall k | forall i :: 0 <= i < q.next ==> jobs[i].target.id != k ensures Only(q.file, k) == Only(f, k) {
        SameOnly(p.file, q.file, id, k);
      }
    }
  }

  lemma {:induction false} RunKeepsInv(jobs: seq<Job>, f: File, concurrency: nat, run: seq<Pool>, i: nat)
    requires DistinctTrimmedIds(jobs) && Settled(f) && IsRun(jobs, f, concurrency, run) && i < |run|
    ensures PoolInv(jobs, f, run[i])
  {
    if i == 0 {
      BusyCountIdle(run[0].workers);
    } else {
      RunKeepsInv(jobs, f, concurrency, run, i - 1);
      var p := run[i - 1];
      assert StepAt(jobs, run, i - 1);
      var w: nat :| Enabled(jobs, p, w) && run[i] == PoolStep(jobs, p, w);
      StepKeepsInv(jobs, f, p, w);
    }
  }

  lemma {:induction false} StepKeepsInv(jobs: seq<Job>, f: File, p: Pool, w: nat)
    requires DistinctTrimmedIds(jobs) && PoolInv(jobs, f, p) && Enabled(jobs, p, w)
    ensures PoolInv(jobs, f, PoolStep(jobs, p, w))
  {
    if p.workers[w].Idle? { TakeOnTrack(jobs, f, p, w); }
    else if p.workers[w].stage.Finished? { ReportOnTrack(jobs, f, p, w); }
    else { RunOnTrack(jobs, f, p, w); }
  }

  // ----- Collecting the reports -----

  predicate IndexLe(a: Report, b: Report) {
    a.index <= b.index
  }

  function Items(os: seq<Outcome>): seq<Item> {
    if os == [] then [] else (if os[0].Opened? then [os[0].item] else []) + Items(os[1..])
  }

  function Failures(jobs: seq<Job>, os: seq<Outcome>): seq<(string, string)>
    requires |jobs| == |os|
  {
    if os == [] then []
    else (if os[0].Opened? then [] else [(jobs[0].target.id, os[0].code)]) + Failures(jobs[1..], os[1..])
  }

  function ByIndex(out: seq<Report>): (s: seq<Report>)
    ensures |s| == |out|
  {
    SortBy(out, IndexLe)
  }

  lemma {:induction false} ByIndexMembers(out: seq<Report>, i: nat)
    requires i < |out|
    ensures ByIndex(out)[i] in out
  {
    SortMembers(out, IndexLe);
    assert ByIndex(out)[i] in ByIndex(out);
  }

  function InOrder(out: seq<Report>): (os: seq<Outcome>)
    ensures |os| == |out|
  {
    var s := ByIndex(out);
    seq(|s|, i requires 0 <= i < |s| => s[i].outcome)
  }

  lemma {:induction false} IncreasingFillsRange(s: seq<Report>, i: nat)
    requires forall i, j :: 0 <= i < j < |s| ==> s[i].index < s[j].index
    requires forall i :: 0 <= i < |s| ==> s[i].index < |s|
    requires i < |s|
    ensures s[i].index >= i
  {
    if i > 0 { IncreasingFillsRange(s, i - 1); }
  }

  lemma {:induction false} IncreasingStaysInRange(s: seq<Report>, i: nat)
    requires forall i, j :: 0 <= i < j < |s| ==> s[i].index < s[j].index
    requires forall i :: 0 <= i < |s| ==> s[i].index < |s|
    requires i < |s|
    ensures s[i].index <= i
    decreases |s| - i
  {
    if i + 1 < |s| { IncreasingStaysInRange(s, i + 1); }
  }

  lemma {:induction false} SortedStrictly(out: seq<Report>, i: nat, j: nat)
    requires forall i, j :: 0 <= i < j < |out| ==> out[i].index != out[j].index
    requires i < j < |out|
    ensures var s := ByIndex(out);
            s[i].index < s[j].index
  {
    var s := ByIndex(out);
    SortSorted(out, IndexLe);
    SortMembers(out, IndexLe);
    assert s[i] in s && s[j] in s;
    if s[i].index == s[j].index {
      OneReportPerIndex(out, s[i], s[j]);
      SortDistinct(out, IndexLe, i, j);
    }
  }

  /** Sorting distinct indices that fill a range puts each report at its own index. */
  lemma {:induction false} SortedReports(out: seq<Report>)
    requires forall i :: 0 <= i < |out| ==> out[i].index < |out|
    requires forall i, j :: 0 <= i < j < |out| ==> out[i].index != out[j].index
    ensures var s := ByIndex(out);
            forall i :: 0 <= i < |out| ==> s[i].index == i && s[i] in out
  {
    var s := ByIndex(out);
    forall i | 0 <= i < |s| ensures s[i] in out && s[i].index < |s| { ByIndexMembers(out, i); }
    forall i, j | 0 <= i < j < |s| ensures s[i].index < s[j].index { SortedStrictly(out, i, j); }
    forall i | 0 <= i < |s| ensures s[i].index == i {
      IncreasingFillsRange(s, i);
      IncreasingStaysInRange(s, i);
    }
  }

  lemma {:induction false} OneReportPerIndex(out: seq<Report>, a: Report, b: Report)
    requires forall i, j :: 0 <= i < j < |out| ==> out[i].index != out[j].index
    requires a in out && b in out && a.index == b.index
    ensures a == b
  {
    var i :| 0 <= i < |out| && out[i] == a;
    var j :| 0 <= j < |out| && out[j] == b;
    assert i == j;
  }

  // ----- Main results -----

  /** The state after n targets: each of them reported what it would report alone. */
  ghost predicate AloneUpTo(jobs: seq<Job>, n: nat, f: File, os: seq<Outcome>, g: File)
    requires n <= |jobs| && |os| == n
  {
    && Settled(g)
    && (forall j :: 0 <= j < n ==> Reported(jobs, f, g, j, os[j]))
    && Untouched(jobs, n, f, g)
  }

  lemma {:induction false} OpenNextAlone(
    jobs: seq<Job>, n: nat, f: File, os: seq<Outcome>, g: File, o: Outcome, h: File)
    requires DistinctTrimmedIds(jobs) && n < |jobs| && |os| == n && AloneUpTo(jobs, n, f, os, g)
    requires SameElsewhere(g, h, jobs[n].target.id) && Settled(h)
    requires (o, Only(h, jobs[n].target.id)) == Alone(jobs, g, n)
    ensures AloneUpTo(jobs, n + 1, f, os + [o], h)
  {
    var id := jobs[n].target.id;
    assert Only(g, id) == Only(f, id);
    forall j | 0 <= j < n ensures Reported(jobs, f, h, j, os[j]) {
      assert Reported(jobs, f, g, j, os[j]);
      SameOnly(g, h, id, jobs[j].target.id);
    }
    assert Reported(jobs, f, h, n, o);
    forall k | forall j :: 0 <= j < n + 1 ==> jobs[j].target.id != k ensures Only(h, k) == Only(f, k) {
      SameOnly(g, h, id, k);
    }
  }

  lemma {:induction false} OpenFirstAlone(jobs: seq<Job>, n: nat, f: File)
    requires DistinctTrimmedIds(jobs) && Settled(f) && n <= |jobs|
    ensures AloneUpTo(jobs, n, f, OpenFirst(jobs, n, f).0, OpenFirst(jobs, n, f).1)
  {
    if n > 0 {
      OpenFirstAlone(jobs, n - 1, f);
      var (os, g) := OpenFirst(jobs, n - 1, f);
      var (o, h) := Complete(jobs[n - 1], Reading, g);
      CompleteIsLocal(jobs[n - 1], Reading, g);
      OpenNextAlone(jobs, n - 1, f, os, g, o, h);
    }
  }

  lemma {:induction false} AloneDeterminesAll(
    jobs: seq<Job>, f: File, os: seq<Outcome>, g: File, os': seq<Outcome>, g': File)
    requires |os| == |os'| == |jobs|
    requires AloneUpTo(jobs, |jobs|, f, os, g) && AloneUpTo(jobs, |jobs|, f, os', g')
    ensures os == os' && g == g'
  {
    forall j | 0 <= j < |jobs| ensures os[j] == os'[j] && Only(g, jobs[j].target.id) == Only(g', jobs[j].target.id) {
      assert Reported(jobs, f, g, j, os[j]) && Reported(jobs, f, g', j, os'[j]);
    }
    forall k ensures Only(g, k) == Only(g', k) {
      if j :| 0 <= j < |jobs| && jobs[j].target.id == k {}
    }
    SameFile(g, g');
  }

  lemma {:induction false} SameFile(f: File, g: File)
    requires forall k :: Only(f, k) == Only(g, k)
    ensures f == g
  {
    assert Only(f, "").version == Only(g, "").version;
    forall k ensures k in f.workspaces <==> k in g.workspaces {
      assert Only(f, k) == Only(g, k);
      assert k in Only(f, k).workspaces <==> k in f.workspaces;
      assert k in Only(g, k).workspaces <==> k in g.workspaces;
    }
    forall k | k in f.workspaces ensures f.workspaces[k] == g.workspaces[k] {
      assert Only(f, k).workspaces[k] == Only(g, k).workspaces[k];
    }
  }

  /** Every interleaving of every worker pool that runs to the end leaves the mapping that running the
      targets one by one leaves, and reports their outcomes in target order. */
  lemma {:induction false} EveryInterleavingIsSequential(jobs: seq<Job>, f: File, concurrency: nat, run: seq<Pool>)
    requires DistinctTrimmedIds(jobs) && Settled(f)
    requires IsRun(jobs, f, concurrency, run) && Drained(jobs, run[|run| - 1])
    ensures var p := run[|run| - 1];
            (InOrder(p.out), p.file) == OpenAll(jobs, f)
  {
    RunKeepsInv(jobs, f, concurrency, run, |run| - 1);
    DrainedIsSequential(jobs, f, run[|run| - 1]);
  }

  /** A drained pool on track ends as the targets one by one. */
  lemma {:induction false} DrainedIsSequential(jobs: seq<Job>, f: File, p: Pool)
    requires DistinctTrimmedIds(jobs) && Settled(f) && PoolInv(jobs, f, p) && Drained(jobs, p)
    ensures (InOrder(p.out), p.file) == OpenAll(jobs, f)
  {
    BusyCountIdle(p.workers);
    SortedReports(p.out);
    assert |p.out| == |jobs|;
    var s := ByIndex(p.out);
    forall j | 0 <= j < |jobs| ensures Reported(jobs, f, p.file, j, InOrder(p.out)[j]) {
      assert s[j].index == j && s[j] in p.out;
      var i :| 0 <= i < |p.out| && p.out[i] == s[j];
      assert Reported(jobs, f, p.file, p.out[i].index, p.out[i].outcome);
    }
    OpenFirstAlone(jobs, |jobs|, f);
    AloneDeterminesAll(jobs, f, InOrder(p.out), p.file, OpenAll(jobs, f).0, OpenAll(jobs, f).1);
  }

  /** A pool with at least one worker is never stuck before it is drained. */
  lemma {:induction false} PoolNeverStuck(jobs: seq<Job>, p: Pool)
    requires Accounted(jobs, p) && |p.workers| > 0 && !Drained(jobs, p)
    ensures exists w: nat :: Enabled(jobs, p, w)
  {
    if w :| 0 <= w < |p.workers| && p.workers[w].Busy? {
      assert Enabled(jobs, p, w);
    } else {
      assert Enabled(jobs, p, 0);
    }
  }

  function WorkLeft(ws: seq<Worker>): nat {
    if ws == [] then 0 else (if ws[0].Busy? then Rank(ws[0].stage) + 1 else 0) + WorkLeft(ws[1..])
  }

  lemma {:induction false} WorkLeftUpdate(ws: seq<Worker>, w: nat, x: Worker)
    requires w < |ws|
    ensures WorkLeft(ws[w := x]) == WorkLeft(ws)
      - (if ws[w].Busy? then Rank(ws[w].stage) + 1 else 0) + (if x.Busy? then Rank(x.stage) + 1 else 0)
  {
    if w == 0 {
      assert ws[w := x][1..] == ws[1..];
    } else {
      assert ws[w := x][1..] == ws[1..][w - 1 := x];
      WorkLeftUpdate(ws[1..], w - 1, x);
    }
  }

  function Budget(jobs: seq<Job>, p: Pool): int {
    9 * (|jobs| - p.next) + WorkLeft(p.workers)
  }

  /** Every step uses up part of a budget that never goes below zero, so every run ends. */
  lemma {:induction false} PoolTerminates(jobs: seq<Job>, p: Pool, w: nat)
    requires p.next <= |jobs| && Enabled(jobs, p, w)
    ensures 0 <= Budget(jobs, PoolStep(jobs, p, w)) < Budget(jobs, p)
  {
    WorkLeftUpdate(p.workers, w, PoolStep(jobs, p, w).workers[w]);
  }

  ghost predicate Exclusive(f: File) {
    forall a, b :: a != b ==> Owned(f, a) !! Owned(f, b)
  }

  /** Created runtime ids are new to the file and different for every target. */
  ghost predicate FreshCreates(jobs: seq<Job>, f: File) {
    && (forall j, k :: 0 <= j < |jobs| && jobs[j].replies.create.Some? ==> jobs[j].replies.create.value !in Owned(f, k))
    && (forall i, j :: 0 <= i < j < |jobs| && jobs[i].replies.create.Some? ==>
        jobs[i].replies.create != jobs[j].replies.create)
  }

  /** A success holds exactly the one entry it reports. */
  ghost predicate HoldsItsEntry(job: Job, o: Outcome, g: File) {
    o.Opened? ==>
      var entries := Lookup(g, job.target.id).entries;
      && o.item.id == job.target.id
      && |entries| == 1
      && entries[0].cmuxId == o.item.cmuxId
      && entries[0].ordinal == o.item.ordinal
  }

  lemma {:induction false} AloneOwns(jobs: seq<Job>, f: File, g: File, j: nat, o: Outcome)
    requires j < |jobs| && Settled(f) && Reported(jobs, f, g, j, o)
    requires Trim(jobs[j].target.id) == jobs[j].target.id
    ensures OwnsAtMost(jobs[j], f, g) && HoldsItsEntry(jobs[j], o, g)
  {
    var id := jobs[j].target.id;
    var before := Only(f, id);
    CompleteOwns(jobs[j], Reading, before);
    assert Lookup(Only(g, id), id) == Lookup(g, id) && Lookup(before, id) == Lookup(f, id);
  }

  /** If created ids are fresh no runtime workspace ends up under two workspaces, and each success holds exactly
      its own entry. */
  lemma {:induction false} OpenAllOwnership(jobs: seq<Job>, f: File)
    requires DistinctTrimmedIds(jobs) && Settled(f)
    ensures var (os, g) := OpenAll(jobs, f);
            && (Exclusive(f) && FreshCreates(jobs, f) ==> Exclusive(g))
            && (forall j :: 0 <= j < |jobs| ==> HoldsItsEntry(jobs[j], os[j], g))
  {
    OpenFirstAlone(jobs, |jobs|, f);
    var (os, g) := OpenAll(jobs, f);
    forall j | 0 <= j < |jobs| ensures OwnsAtMost(jobs[j], f, g) && HoldsItsEntry(jobs[j], os[j], g) {
      assert Reported(jobs, f, g, j, os[j]);
      AloneOwns(jobs, f, g, j, os[j]);
    }
    if Exclusive(f) && FreshCreates(jobs, f) { StaysExclusive(jobs, f, g); }
  }

  lemma {:induction false} StaysExclusive(jobs: seq<Job>, f: File, g: File)
    requires DistinctTrimmedIds(jobs) && FreshCreates(jobs, f) && Exclusive(f)
    requires Untouched(jobs, |jobs|, f, g) && forall j :: 0 <= j < |jobs| ==> OwnsAtMost(jobs[j], f, g)
    ensures Exclusive(g)
  {
    forall a, b | a != b ensures Owned(g, a) !! Owned(g, b) {
      WhereOwned(jobs, f, g, a);
      WhereOwned(jobs, f, g, b);
    }
  }

  function Created(job: Job): set<string> {
    if job.replies.create.Some? then {job.replies.create.value} else {}
  }

  ghost predicate OwnsAtMost(job: Job, f: File, g: File) {
    Owned(g, job.target.id) <= Owned(f, job.target.id) + Created(job)
  }

  lemma {:induction false} WhereOwned(jobs: seq<Job>, f: File, g: File, k: string)
    requires forall j :: 0 <= j < |jobs| ==> OwnsAtMost(jobs[j], f, g)
    requires (forall j :: 0 <= j < |jobs| ==> jobs[j].target.id != k) ==> Only(g, k) == Only(f, k)
    ensures forall x :: x in Owned(g, k) ==>
              x in Owned(f, k) || exists j :: 0 <= j < |jobs| && jobs[j].target.id == k && x in Created(jobs[j])
  {
    if j :| 0 <= j < |jobs| && jobs[j].target.id == k {
      assert OwnsAtMost(jobs[j], f, g);
    } else {
      assert Lookup(Only(g, k), k) == Lookup(g, k) && Lookup(Only(f, k), k) == Lookup(f, k);
    }
  }

  function TargetIds(jobs: seq<Job>): seq<string> {
    if jobs == [] then [] else [jobs[0].target.id] + TargetIds(jobs[1..])
  }

  function ItemIds(items: seq<Item>): seq<string> {
    if items == [] then [] else [items[0].id] + ItemIds(items[1..])
  }

  function FailureIds(failures: seq<(string, string)>): seq<string> {
    if failures == [] then [] else [failures[0].0] + FailureIds(failures[1..])
  }

  ghost predicate NamesItsTarget(jobs: seq<Job>, os: seq<Outcome>) {
    |jobs| == |os| && forall j :: 0 <= j < |os| && os[j].Opened? ==> os[j].item.id == jobs[j].target.id
  }

  lemma {:induction false} FirstItem(os: seq<Outcome>)
    requires os != []
    ensures var rest := ItemIds(Items(os[1..])); ItemIds(Items(os)) == if os[0].Opened? then [os[0].item.id] + rest
        else rest
  {
    var items, rest := Items(os), Items(os[1..]);
    if os[0].Opened? {
      assert items == [os[0].item] + rest && items[1..] == rest;
    } else {
      assert items == [] + rest == rest;
    }
  }

  lemma {:induction false} FirstFailure(jobs: seq<Job>, os: seq<Outcome>)
    requires os != [] && |jobs| == |os|
    ensures var rest := FailureIds(Failures(jobs[1..], os[1..]));
            FailureIds(Failures(jobs, os)) == if os[0].Opened? then rest else [jobs[0].target.id] + rest
  {
    var failures, rest := Failures(jobs, os), Failures(jobs[1..], os[1..]);
    if os[0].Opened? {
      assert failures == [] + rest == rest;
    } else {
      assert failures == [(jobs[0].target.id, os[0].code)] + rest && failures[1..] == rest;
    }
  }

  lemma {:induction false} ReportsCover(jobs: seq<Job>, os: seq<Outcome>)
    requires NamesItsTarget(jobs, os)
    ensures multiset(ItemIds(Items(os))) + multiset(FailureIds(Failures(jobs, os))) == multiset(TargetIds(jobs))
  {
    if os != [] {
      ReportsCover(jobs[1..], os[1..]);
      FirstItem(os);
      FirstFailure(jobs, os);
    }
  }

  lemma {:induction false} ReportsInOrder(jobs: seq<Job>, os: seq<Outcome>)
    requires NamesItsTarget(jobs, os)
    ensures Greedy(ItemIds(Items(os)), TargetIds(jobs)) && Greedy(FailureIds(Failures(jobs, os)), TargetIds(jobs))
  {
    if os != [] {
      ReportsInOrder(jobs[1..], os[1..]);
      FirstItem(os);
      FirstFailure(jobs, os);
      var id, ids := [jobs[0].target.id], TargetIds(jobs[1..]);
      if os[0].Opened? {
        GreedyBoth(id, ItemIds(Items(os[1..])), ids);
        GreedyMore(FailureIds(Failures(jobs[1..], os[1..])), id, ids);
      } else {
        GreedyBoth(id, FailureIds(Failures(jobs[1..], os[1..])), ids);
        GreedyMore(ItemIds(Items(os[1..])), id, ids);
      }
    }
  }

  /** Results and failures together hold every target once, each list in target order. */
  lemma {:induction false} EveryTargetReportedOnce(jobs: seq<Job>, f: File)
    requires DistinctTrimmedIds(jobs) && Settled(f)
    ensures var os := OpenAll(jobs, f).0;
            && multiset(ItemIds(Items(os))) + multiset(FailureIds(Failures(jobs, os))) == multiset(TargetIds(jobs))
            && Subsequence(ItemIds(Items(os)), TargetIds(jobs))
            && Subsequence(FailureIds(Failures(jobs, os)), TargetIds(jobs))
  {
    var os := OpenAll(jobs, f).0;
    OpenAllOwnership(jobs, f);
    assert forall j :: 0 <= j < |os| && os[j].Opened? ==> HoldsItsEntry(jobs[j], os[j], OpenAll(jobs, f).1);
    ReportsCover(jobs, os);
    ReportsInOrder(jobs, os);
    GreedyIff(ItemIds(Items(os)), TargetIds(jobs));
    GreedyIff(FailureIds(Failures(jobs, os)), TargetIds(jobs));
  }

  /** A loaded file is settled when its ordinals on disk were one or more. */
  lemma {:induction false} LoadedIsSettled(disk: File)
    requires disk.version == 0 || disk.version == CURRENT_VERSION
    requires forall id, e :: id in disk.workspaces && e in disk.workspaces[id].entries ==> e.ordinal >= 1
    ensures NormalizeFile(disk).Success? && Settled(NormalizeFile(disk).value)
  {
    forall id | id in disk.workspaces
      ensures Tidy(NormalizeWorkspace(disk.workspaces[id]))
    {
      NumberedFilesAreIdempotent(disk.workspaces[id]);
      TidyIffFixed(NormalizeWorkspace(disk.workspaces[id]));
    }
  }

  // ----- What the replies lead to -----

  /** The first entry is reached: the target is switched to. */
  predicate Reuses(job: Job, f: File) {
    Lookup(f, job.target.id).entries != [] && job.replies.identify.Done? && job.replies.selectExisting.Done?
  }

  /** The first entry cannot be asked for, or not be selected, for another reason than its absence. */
  predicate Breaks(job: Job, f: File) {
    && Lookup(f, job.target.id).entries != []
    && (job.replies.identify.Broken? || (job.replies.identify.Done? && job.replies.selectExisting.Broken?))
  }

  /** No call on the way to a new entry fails. */
  predicate Creates(job: Job, f: File) {
    var c := job.replies;
    c.create.Some? && CanAllocate(job, f) && c.renamed && c.selected && c.statusSet
  }

  predicate CanAllocate(job: Job, f: File) {
    Trim(job.target.id) != "" && (f.version == 0 || f.version == CURRENT_VERSION)
  }

  function TitleText(t: Target): string {
    Trim(t.id) + " | " + (if Trim(t.title) == "" then "(untitled)" else Trim(t.title))
  }

  function CreationFailure(job: Job, f: File): string {
    if job.replies.create.None? then "cmux_create_failed"
    else if !CanAllocate(job, f) then "state_write_failed"
    else if !job.replies.renamed then "cmux_rename_failed"
    else if !job.replies.selected then "cmux_select_failed"
    else "cmux_set_status_failed"
  }

  /** The entry is kept as the only one, and only its time of use changes. */
  predicate Reused(job: Job, f: File, o: Outcome, g: File)
    requires Lookup(f, job.target.id).entries != []
  {
    var t, ws := job.target, Lookup(f, job.target.id);
    var e := ws.entries[0];
    && o == Opened(Item(t.id, t.path, e.cmuxId, e.ordinal, e.title, true))
    && g == f.(workspaces := f.workspaces[t.id := ws.(entries := [e.(lastUsedAt := job.replies.reuseNow)])])
  }

  /** Whatever was found is gone, and a success has committed one new entry, which it reports. */
  predicate CommitsAnew(job: Job, f: File, o: Outcome, g: File) {
    var t, c, before, after := job.target, job.replies, Lookup(f, job.target.id), Lookup(g, job.target.id);
    && (o.Opened? <==> Creates(job, f))
    && (o.OpenFailed? ==> o.code == CreationFailure(job, f) && after.entries == [])
    && (o.Opened? ==>
          && o.item == Item(t.id, t.path, c.create.value, o.item.ordinal, TitleText(t), false)
          && after.entries == [Entry(c.create.value, o.item.ordinal, TitleText(t), c.createNow, c.createNow)]
          && o.item.ordinal >= 1
          && (Trim(t.id) == t.id ==>
                && after.nextOrdinal == o.item.ordinal + 1
                && (if before.entries == [] then o.item.ordinal >= before.nextOrdinal else o.item.ordinal == 1)))
  }

  /** What a call answers and leaves, given what the client replies to it. */
  predicate Answers(job: Job, f: File, o: Outcome, g: File) {
    if Reuses(job, f) then Reused(job, f, o, g)
    else if Breaks(job, f) then
      g == f && o == OpenFailed(if job.replies.identify.Broken? then "cmux_identify_failed" else "cmux_select_failed")
    else CommitsAnew(job, f, o, g)
  }

  lemma {:induction false} NamingAnswers(job: Job, cmuxId: string, ordinal: int, f: File)
    requires Trim(job.target.id) != ""
    ensures var t, c := job.target, job.replies;
            var (o, g) := Complete(job, Naming(cmuxId, ordinal), f);
            if c.renamed && c.selected && c.statusSet then
              && o == Opened(Item(t.id, t.path, cmuxId, ordinal, TitleText(t), false))
              && var entry := Entry(cmuxId, ordinal, TitleText(t), c.createNow, c.createNow);
                 Lookup(g, t.id) == Lookup(f, t.id).(entries := [entry])
            else
              && o == OpenFailed(if !c.renamed then "cmux_rename_failed"
                                 else if !c.selected then "cmux_select_failed" else "cmux_set_status_failed")
              && g == f
  {
    var s := Advance(job, Naming(cmuxId, ordinal), f).0;
    assert Complete(job, Naming(cmuxId, ordinal), f) == Complete(job, s, f);
    if !s.Finished? {
      var (s', g) := Advance(job, s, f);
      assert Complete(job, s, f) == Complete(job, s', g);
    }
  }

  /** What an allocation does to a workspace without entries. */
  lemma {:induction false} AllocateEmpty(f: File, id: string)
    requires Lookup(f, id).entries == [] && (f.version == 0 || f.version == CURRENT_VERSION)
    ensures Lookup(Allocate(f, id).1, id).entries == []
    ensures var r := Allocate(f, id).0;
            && (r.Success? <==> Trim(id) != "")
            && (r.Success? ==> r.value >= 1)
            && (r.Success? && Trim(id) == id ==>
                  && r.value >= Lookup(f, id).nextOrdinal && Lookup(Allocate(f, id).1, id).nextOrdinal == r.value + 1
                  && (Lookup(f, id).nextOrdinal == 1 ==> r.value == 1))
  {
    AllocateEstablishes(f, id);
    if id in f.workspaces { assert SortBy(f.workspaces[id].entries, EntryLe) == []; }
    if Trim(id) != id { OtherKeyOnlyNormalized(f, id); }
  }

  lemma {:induction false} OtherKeyOnlyNormalized(f: File, id: string)
    requires Trim(id) != id && Lookup(f, id).entries == [] && (f.version == 0 || f.version == CURRENT_VERSION)
    ensures Lookup(Allocate(f, id).1, id).entries == []
  {
    AllocateEstablishes(f, id);
    assert Lookup(Allocate(f, id).1, id) == Lookup(NormalizeFile(f).value, id);
  }

  lemma {:induction false} CreatingAnswers(job: Job, f: File)
    requires Lookup(f, job.target.id).entries == []
    ensures var (o, g) := Complete(job, Creating, f); CommitsAnew(job, f, o, g)
  {
    var id, c := job.target.id, job.replies;
    if c.create.Some? {
      var (r, g) := Allocate(f, id);
      assert Complete(job, Creating, f) == Complete(job, Allocating(c.create.value), f);
      if CanAllocate(job, f) {
        AllocateEmpty(f, id);
        assert Complete(job, Allocating(c.create.value), f) == Complete(job, Naming(c.create.value, r.value), g);
        NamingAnswers(job, c.create.value, r.value, g);
      } else {
        RefusedAllocation(f, id);
      }
    }
  }

  lemma {:induction false} RefusedAllocation(f: File, id: string)
    requires Lookup(f, id).entries == [] && (Trim(id) == "" || !(f.version == 0 || f.version == CURRENT_VERSION))
    ensures Allocate(f, id).0.Failure? && Lookup(Allocate(f, id).1, id).entries == []
  {
    if f.version == 0 || f.version == 1 { AllocateEmpty(f, id); }
  }

  /** Clearing changes nothing of the answer but that the ordinals start again. */
  lemma {:induction false} ClearedAnswers(job: Job, f: File)
    requires Lookup(f, job.target.id).entries != []
    ensures var (o, g) := Complete(job, Clearing, f); CommitsAnew(job, f, o, g)
  {
    var cleared := Put(f, job.target.id, WorkspaceMapping(1, []));
    assert Complete(job, Clearing, f) == Complete(job, Creating, cleared);
    ClearedIsOne(job, cleared);
  }

  lemma {:induction false} ClearedIsOne(job: Job, f: File)
    requires Lookup(f, job.target.id) == WorkspaceMapping(1, [])
    ensures var (o, g) := Complete(job, Creating, f);
            CommitsAnew(job, f, o, g) && (o.Opened? && Trim(job.target.id) == job.target.id ==> o.item.ordinal == 1)
  {
    CreatingAnswers(job, f);
    var c := job.replies;
    if Creates(job, f) && Trim(job.target.id) == job.target.id {
      var (r, g) := Allocate(f, job.target.id);
      AllocateEmpty(f, job.target.id);
      assert Complete(job, Creating, f) == Complete(job, Allocating(c.create.value), f)
        == Complete(job, Naming(c.create.value, r.value), g);
      NamingAnswers(job, c.create.value, r.value, g);
    }
  }

  /** An uninterrupted call answers what its replies say. */
  lemma {:induction false} CompleteAnswers(job: Job, f: File)
    ensures var (o, g) := Complete(job, Reading, f); Answers(job, f, o, g)
  {
    var entries, c := Lookup(f, job.target.id).entries, job.replies;
    if entries == [] {
      assert Complete(job, Reading, f) == Complete(job, Creating, f);
      CreatingAnswers(job, f);
    } else {
      var e := entries[0];
      assert Complete(job, Reading, f) == Complete(job, Probing(e), f);
      if Reuses(job, f) {
        assert Complete(job, Probing(e), f) == Complete(job, Reusing(e), f);
      } else if !Breaks(job, f) {
        assert Complete(job, Probing(e), f) == Complete(job, Clearing, f);
        ClearedAnswers(job, f);
      }
    }
  }

  /** In every interleaving every target gets the answer that its own replies call for on its own part of the
      initial file, whatever the other workers do meanwhile. */
  lemma {:induction false} EveryTargetAnswered(jobs: seq<Job>, f: File, concurrency: nat, run: seq<Pool>, j: nat)
    requires DistinctTrimmedIds(jobs) && Settled(f) && j < |jobs|
    requires IsRun(jobs, f, concurrency, run) && Drained(jobs, run[|run| - 1])
    ensures var p, id := run[|run| - 1], jobs[j].target.id;
            |InOrder(p.out)| == |jobs| && Answers(jobs[j], Only(f, id), InOrder(p.out)[j], Only(p.file, id))
  {
    EveryInterleavingIsSequential(jobs, f, concurrency, run);
    OpenFirstAlone(jobs, |jobs|, f);
    CompleteAnswers(jobs[j], Only(f, jobs[j].target.id));
  }

  // ----- The calls as the program makes them -----

  /** One call on the shared file, uninterrupted: what the step machine gives, which is what the replies say.
      It is a reuse exactly when there is a first entry that can be asked for and selected, and commits a
      new entry exactly when there is none, or it is gone, and no later call fails. */
  method OpenOne(job: Job, mapping: MappingFile) returns (o: Outcome)
    modifies mapping
    ensures (o, mapping.View()) == Complete(job, Reading, old(mapping.View()))
    ensures Answers(job, old(mapping.View()), o, mapping.View())
    ensures o.Opened? && o.item.reused <==> Reuses(job, old(mapping.View()))
    ensures o.Opened? && !o.item.reused <==>
              && !Reuses(job, old(mapping.View())) && !Breaks(job, old(mapping.View()))
              && Creates(job, old(mapping.View()))
  {
    var t, c := job.target, job.replies;
    ghost var f := mapping.View();
    CompleteAnswers(job, f);
    var ws := if t.id in mapping.workspaces then mapping.workspaces[t.id] else UNMAPPED;
    if |ws.entries| > 0 {
      var existing := ws.entries[0];
      assert Complete(job, Reading, f) == Complete(job, Probing(existing), f);
      if c.identify.Done? {
        if c.selectExisting.Broken? {
          return OpenFailed("cmux_select_failed");
        }
        if c.selectExisting.Done? {
          mapping.workspaces := mapping.workspaces[t.id := ws.(entries := [existing.(lastUsedAt := c.reuseNow)])];
          assert Complete(job, Probing(existing), f) == Complete(job, Reusing(existing), f);
          return Opened(Item(t.id, t.path, existing.cmuxId, existing.ordinal, existing.title, true));
        }
      } else if c.identify.Broken? {
        return OpenFailed("cmux_identify_failed");
      }
      assert Complete(job, Probing(existing), f) == Complete(job, Clearing, f);
      mapping.workspaces := mapping.workspaces[t.id := ws.(entries := [], nextOrdinal := 1)];
      assert Complete(job, Clearing, f) == Complete(job, Creating, mapping.View());
    }
    assert Complete(job, Reading, f) == Complete(job, Creating, mapping.View());
    o := CreateAndCommit(job, mapping);
  }

  /** The second half of the call: create, allocate, name, commit. */
  method CreateAndCommit(job: Job, mapping: MappingFile) returns (o: Outcome)
    modifies mapping
    ensures (o, mapping.View()) == Complete(job, Creating, old(mapping.View()))
  {
    var t, c := job.target, job.replies;
    ghost var f := mapping.View();
    if c.create.None? {
      return OpenFailed("cmux_create_failed");
    }
    var cmuxId := c.create.value;
    assert Complete(job, Creating, f) == Complete(job, Allocating(cmuxId), f);
    var ordinal := mapping.AllocateOrdinal(t.id);
    if ordinal.Failure? {
      return OpenFailed("state_write_failed");
    }
    assert Complete(job, Allocating(cmuxId), f) == Complete(job, Naming(cmuxId, ordinal.value), mapping.View());
    var title := FormatWorkspaceTitle(t.id, t.title);
    if title.Failure? || !c.renamed {
      return OpenFailed("cmux_rename_failed");
    }
    if !c.selected {
      return OpenFailed("cmux_select_failed");
    }
    if !c.statusSet {
      return OpenFailed("cmux_set_status_failed");
    }
    assert Complete(job, Naming(cmuxId, ordinal.value), mapping.View())
        == Complete(job, Committing(cmuxId, ordinal.value, title.value), mapping.View());
    var ws := if t.id in mapping.workspaces then mapping.workspaces[t.id] else UNMAPPED;
    var entry := Entry(cmuxId, ordinal.value, title.value, c.createNow, c.createNow);
    mapping.workspaces := mapping.workspaces[t.id := ws.(entries := [entry])];
    return Opened(Item(t.id, t.path, cmuxId, ordinal.value, title.value, false));
  }

  lemma {:induction false} ItemsAppend(os: seq<Outcome>, o: Outcome)
    ensures Items(os + [o]) == Items(os) + (if o.Opened? then [o.item] else [])
  {
    if os != [] {
      assert (os + [o])[1..] == os[1..] + [o];
      ItemsAppend(os[1..], o);
    }
  }

  /** The sequential path stops at the first failure: what it leaves is a prefix of the full sequence. */
  method OpenSequential(
    jobs: seq<Job>, mapping: MappingFile) returns (items: seq<Item>, failure: Option<(string, string)>)
    modifies mapping
    ensures var n := |items| + (if failure.Some? then 1 else 0);
            && n <= |jobs| && (failure.None? ==> n == |jobs|)
            && var (os, g) := OpenFirst(jobs, n, old(mapping.View()));
               && mapping.View() == g && items == Items(os)
               && (failure.Some? ==> os[n - 1].OpenFailed? && failure.value == (jobs[n - 1].target.id, os[n - 1].code))
  {
    items := [];
    ghost var f := mapping.View();
    for i := 0 to |jobs|
      invariant |items| == i
      invariant mapping.View() == OpenFirst(jobs, i, f).1 && items == Items(OpenFirst(jobs, i, f).0)
    {
      var o := OpenOne(jobs[i], mapping);
      ItemsAppend(OpenFirst(jobs, i, f).0, o);
      if o.OpenFailed? {
        return items, Some((jobs[i].target.id, o.code));
      }
      items := items + [o.item];
    }
    failure := None;
  }
}
