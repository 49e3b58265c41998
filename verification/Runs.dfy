/** Whole runs of workspace commands: one directory for each id, status in step with the directory,
    and what must have happened before a purge. */
module Runs {
  import opened Text
  import opened World
  import opened AddRepo
  import opened Lifecycle

  datatype Command =
    | CreateCmd(id: string)
    | GuardCmd(id: string, enabled: bool)
    | AddRepoCmd(id: string)
    | CloseCmd(id: string)
    | ReopenCmd(id: string)
    | PurgeCmd(id: string)
    | OutsideEdit

  /** A command with its outcome; `lost` when one of its compensating calls failed. */
  datatype Event = Event(cmd: Command, outcome: Outcome, lost: bool)

  /** Metadata before and after adding repositories: only the restore list and the clock may differ. */
  ghost predicate SameButRepos(d: Dir, e: Dir) {
    && (d.meta.None? <==> e.meta.None?)
    && (d.meta.Some? ==>
          e.meta.value == d.meta.value.(repos := e.meta.value.repos, updatedAt := e.meta.value.updatedAt))
  }

  ghost predicate AddRepoStep(w: State, id: string, v: State) {
    && v.archive == w.archive && v.active.Keys == w.active.Keys
    && forall k :: k in w.active ==> SameButRepos(w.active[k], v.active[k])
  }

  /** Users and other programs edit files, branches and worktrees, not the metadata. */
  ghost predicate OutsideStep(w: State, v: State) {
    && v.active.Keys == w.active.Keys && v.archive.Keys == w.archive.Keys
    && (forall k :: k in w.active ==> v.active[k].meta == w.active[k].meta)
    && (forall k :: k in w.archive ==> v.archive[k].meta == w.archive[k].meta)
  }

  /** What a command does, and that it reports a compensation as done if none of its calls failed. */
  ghost predicate Step(locate: Locator, w: State, e: Event, v: State) {
    Effect(locate, w, e, v) && (!e.lost && !e.cmd.AddRepoCmd? ==> Compensated(e.outcome))
  }

  ghost predicate Effect(locate: Locator, w: State, e: Event, v: State) {
    match e.cmd
    case CreateCmd(id) => CreateStep(w, id, e.outcome, v)
    case GuardCmd(id, enabled) => GuardStep(w, id, enabled, e.outcome, v)
    case AddRepoCmd(id) => AddRepoStep(w, id, v)
    case CloseCmd(id) => CloseStep(locate, w, id, e.outcome, v)
    case ReopenCmd(id) => ReopenStep(w, id, e.outcome, v)
    case PurgeCmd(id) => PurgeStep(w, id, e.outcome, v)
    case OutsideEdit => OutsideStep(w, v)
  }

  /** A run from an empty root: states[i + 1] follows from states[i] by events[i]. */
  ghost predicate IsRun(locate: Locator, events: seq<Event>, states: seq<State>) {
    && |states| == |events| + 1
    && states[0].active == map[] && states[0].archive == map[]
    && forall i: nat :: i < |events| ==> StepAt(locate, events, states, i)
  }

  ghost predicate StepAt(locate: Locator, events: seq<Event>, states: seq<State>, i: nat)
    requires i < |events| && |states| == |events| + 1
  {
    Step(locate, states[i], events[i], states[i + 1])
  }

  /** The add-repo command is one such step, whatever it returns. */
  lemma {:induction false} AddedIsStep(w: State, id: string, plan: seq<PlanItem>, v: State)
    requires Added(w, id, plan, v)
    ensures AddRepoStep(w, id, v)
  {
    BuiltKeeps(w, id, FullPlan(plan), |plan|);
    var u := Built(w, id, FullPlan(plan), |plan|).value;
    forall k | k in w.active ensures SameButRepos(w.active[k], v.active[k]) {
      assert KeepsDir(w.active[k], u.active[k]);
    }
  }

  lemma {:induction false} KeptIsStep(w: State, id: string, v: State)
    requires Keeps(w, v)
    ensures AddRepoStep(w, id, v)
  {
    forall k | k in w.active ensures SameButRepos(w.active[k], v.active[k]) {
      assert KeepsDir(w.active[k], v.active[k]);
    }
  }

  /** Whatever the add-repo command answers, what its contract promises is such a step. */
  lemma {:induction false} AddReposIsStep(w: State, id: string, plan: seq<PlanItem>, ok: bool, v: State)
    requires ok ==> Added(w, id, FillAll(w, plan), v)
    requires !ok ==> Keeps(w, v)
    ensures AddRepoStep(w, id, v)
  {
    if ok { AddedIsStep(w, id, FillAll(w, plan), v); } else { KeptIsStep(w, id, v); }
  }

  // ----- One directory for each id -----

  ghost predicate Exclusive(w: State) {
    w.active.Keys !! w.archive.Keys
  }

  lemma {:induction false} StripKeepsKeys(w: State, id: string, plan: ClosePlan, v: State)
    requires Archived(w, id, plan, v) && id in w.active && id !in w.archive
    ensures v.active == w.active - {id}
    ensures v.archive.Keys == w.archive.Keys + {id} && SameBut(w.archive, v.archive, id)
    ensures v.archive[id].meta == Some(plan.updated) && v.archive[id].files == w.active[id].files
  {
    StripFrame(w, id, plan.aliases);
    var u := Strip(w, id, plan.aliases).value;
    assert v.active == w.active - {id};
  }

  lemma {:induction false} StepKeepsExclusive(locate: Locator, w: State, e: Event, v: State)
    requires Exclusive(w) && Step(locate, w, e, v)
    ensures Exclusive(v)
  {
    if e.cmd.CloseCmd? && Took(e.outcome) {
      var plan :| ReadyToClose(locate, w, e.cmd.id, plan) && Archived(w, e.cmd.id, plan, v);
      StripKeepsKeys(w, e.cmd.id, plan, v);
    }
  }

  /** At every command boundary of every run, whatever calls failed, no id is both active and archived. */
  lemma {:induction false} NeverInBoth(locate: Locator, events: seq<Event>, states: seq<State>, n: nat)
    requires IsRun(locate, events, states) && n <= |events|
    ensures Exclusive(states[n])
  {
    if n > 0 {
      NeverInBoth(locate, events, states, n - 1);
      assert StepAt(locate, events, states, n - 1);
      StepKeepsExclusive(locate, states[n - 1], events[n - 1], states[n]);
    }
  }

  // ----- Status in step with the directory -----

  ghost predicate Coherent(w: State) {
    && (forall k :: k in w.active && w.active[k].meta.Some? ==> w.active[k].meta.value.status == ACTIVE)
    && (forall k :: k in w.archive && w.archive[k].meta.Some? ==> w.archive[k].meta.value.status == ARCHIVED)
  }

  lemma {:induction false} CloseKeepsCoherent(locate: Locator, w: State, id: string, o: Outcome, v: State)
    requires Coherent(w) && CloseStep(locate, w, id, o, v) && Compensated(o)
    ensures Coherent(v)
  {
    if Took(o) {
      var plan :| ReadyToClose(locate, w, id, plan) && Archived(w, id, plan, v);
      StripKeepsKeys(w, id, plan, v);
    }
  }

  lemma {:induction false} ReopenKeepsCoherent(w: State, id: string, o: Outcome, v: State)
    requires Coherent(w) && ReopenStep(w, id, o, v) && Compensated(o)
    ensures Coherent(v)
  {
  }

  lemma {:induction false} AddRepoKeepsCoherent(w: State, id: string, v: State)
    requires Coherent(w) && AddRepoStep(w, id, v)
    ensures Coherent(v)
  {
    forall k | k in v.active && v.active[k].meta.Some? ensures v.active[k].meta.value.status == ACTIVE {
      assert SameButRepos(w.active[k], v.active[k]);
    }
  }

  lemma {:induction false} StepKeepsCoherent(locate: Locator, w: State, e: Event, v: State)
    requires Coherent(w) && Step(locate, w, e, v) && !e.lost
    ensures Coherent(v)
  {
    match e.cmd
    case CloseCmd(id) => CloseKeepsCoherent(locate, w, id, e.outcome, v);
    case ReopenCmd(id) => ReopenKeepsCoherent(w, id, e.outcome, v);
    case AddRepoCmd(id) => AddRepoKeepsCoherent(w, id, v);
    case _ =>
  }

  /** If no compensating call of a command failed, the status always names the directory, whatever other
      calls failed. */
  lemma {:induction false} StatusNamesDirectory(locate: Locator, events: seq<Event>, states: seq<State>, n: nat)
    requires IsRun(locate, events, states) && n <= |events|
    requires forall i :: 0 <= i < n ==> !events[i].lost
    ensures Coherent(states[n])
  {
    if n > 0 {
      StatusNamesDirectory(locate, events, states, n - 1);
      assert StepAt(locate, events, states, n - 1);
      StepKeepsCoherent(locate, states[n - 1], events[n - 1], states[n]);
    }
  }

  // ----- Purge safety -----

  /** Latest effective create, close, reopen or purge of the id was a close. */
  predicate ClosedLast(events: seq<Event>, n: nat, id: string)
    requires n <= |events|
  {
    if n == 0 then false
    else
      var e := events[n - 1];
      if !Took(e.outcome) then ClosedLast(events, n - 1, id)
      else
        match e.cmd
        case CloseCmd(k) => k == id || ClosedLast(events, n - 1, id)
        case CreateCmd(k) => k != id && ClosedLast(events, n - 1, id)
        case ReopenCmd(k) => k != id && ClosedLast(events, n - 1, id)
        case PurgeCmd(k) => k != id && ClosedLast(events, n - 1, id)
        case _ => ClosedLast(events, n - 1, id)
  }

  /** Latest effective create, lock or unlock of the id was an unlock. */
  predicate UnlockedLast(events: seq<Event>, n: nat, id: string)
    requires n <= |events|
  {
    if n == 0 then false
    else
      var e := events[n - 1];
      if !Took(e.outcome) then UnlockedLast(events, n - 1, id)
      else
        match e.cmd
        case CreateCmd(k) => k != id && UnlockedLast(events, n - 1, id)
        case GuardCmd(k, enabled) => if k == id then !enabled else UnlockedLast(events, n - 1, id)
        case _ => UnlockedLast(events, n - 1, id)
  }

  ghost predicate GuardOff(d: Dir) {
    d.meta.Some? && !GuardEnabled(d.meta.value)
  }

  /** What the history says about one id, given where its directory is and how its guard stands. */
  ghost predicate Fits(events: seq<Event>, n: nat, w: State, id: string)
    requires n <= |events|
  {
    && (id in w.archive ==> ClosedLast(events, n, id))
    && (id in w.active && GuardOff(w.active[id]) ==> UnlockedLast(events, n, id))
    && (id in w.archive && GuardOff(w.archive[id]) ==> UnlockedLast(events, n, id))
  }

  lemma {:induction false} MovesFit(locate: Locator, events: seq<Event>, n: nat, w: State, v: State, id: string)
    requires n < |events| && Exclusive(w) && Fits(events, n, w, id) && Step(locate, w, events[n], v)
    requires events[n].cmd.CloseCmd? || events[n].cmd.ReopenCmd?
    ensures Fits(events, n + 1, v, id)
  {
    var e := events[n];
    if e.cmd.CloseCmd? && Took(e.outcome) {
      var plan :| ReadyToClose(locate, w, e.cmd.id, plan) && Archived(w, e.cmd.id, plan, v);
      StripKeepsKeys(w, e.cmd.id, plan, v);
    }
  }

  lemma {:induction false} OthersFit(locate: Locator, events: seq<Event>, n: nat, w: State, v: State, id: string)
    requires n < |events| && Exclusive(w) && Fits(events, n, w, id) && Step(locate, w, events[n], v)
    requires !events[n].cmd.CloseCmd? && !events[n].cmd.ReopenCmd?
    ensures Fits(events, n + 1, v, id)
  {
    if events[n].cmd.AddRepoCmd? && id in v.active { assert SameButRepos(w.active[id], v.active[id]); }
  }

  lemma {:induction false} HistoryFits(locate: Locator, events: seq<Event>, states: seq<State>, n: nat, id: string)
    requires IsRun(locate, events, states) && n <= |events|
    ensures Fits(events, n, states[n], id)
  {
    if n > 0 {
      HistoryFits(locate, events, states, n - 1, id);
      NeverInBoth(locate, events, states, n - 1);
      assert StepAt(locate, events, states, n - 1);
      if events[n - 1].cmd.CloseCmd? || events[n - 1].cmd.ReopenCmd? {
        MovesFit(locate, events, n - 1, states[n - 1], states[n], id);
      } else {
        OthersFit(locate, events, n - 1, states[n - 1], states[n], id);
      }
    }
  }

  /** Event i is an effective close of the id, and nothing before n created, reopened or purged it since. */
  ghost predicate ClosedAt(events: seq<Event>, i: nat, n: nat, id: string)
    requires i < n <= |events|
  {
    && events[i].cmd == CloseCmd(id) && Took(events[i].outcome)
    && forall j :: i < j < n && Took(events[j].outcome) ==>
         events[j].cmd != CreateCmd(id) && events[j].cmd != ReopenCmd(id) && events[j].cmd != PurgeCmd(id)
  }

  ghost predicate UnlockedAt(events: seq<Event>, i: nat, n: nat, id: string)
    requires i < n <= |events|
  {
    && events[i].cmd == GuardCmd(id, false) && Took(events[i].outcome)
    && forall j :: i < j < n && Took(events[j].outcome) ==>
         events[j].cmd != CreateCmd(id) && events[j].cmd != GuardCmd(id, true)
  }

  lemma {:induction false} ClosedLastMeans(events: seq<Event>, n: nat, id: string) returns (i: nat)
    requires n <= |events| && ClosedLast(events, n, id)
    ensures i < n && ClosedAt(events, i, n, id)
  {
    var e := events[n - 1];
    if e.cmd == CloseCmd(id) && Took(e.outcome) {
      i := n - 1;
    } else {
      i := ClosedLastMeans(events, n - 1, id);
    }
  }

  lemma {:induction false} UnlockedLastMeans(events: seq<Event>, n: nat, id: string) returns (i: nat)
    requires n <= |events| && UnlockedLast(events, n, id)
    ensures i < n && UnlockedAt(events, i, n, id)
  {
    var e := events[n - 1];
    if e.cmd == GuardCmd(id, false) && Took(e.outcome) {
      i := n - 1;
    } else {
      i := UnlockedLastMeans(events, n - 1, id);
    }
  }

  /** Purge safety: a purge that removes a workspace comes after a close of it that no reopen or new
      create followed, and after an unlock that no lock or new create followed. */
  lemma {:induction false} PurgeSafety(locate: Locator, events: seq<Event>, states: seq<State>, n: nat)
    requires IsRun(locate, events, states) && n < |events|
    requires events[n].cmd.PurgeCmd? && Took(events[n].outcome)
    ensures exists i: nat :: i < n && ClosedAt(events, i, n, events[n].cmd.id)
    ensures exists i: nat :: i < n && UnlockedAt(events, i, n, events[n].cmd.id)
  {
    var id := events[n].cmd.id;
    HistoryFits(locate, events, states, n, id);
    assert StepAt(locate, events, states, n);
    var i := ClosedLastMeans(events, n, id);
    var j := UnlockedLastMeans(events, n, id);
  }

  // ----- The commands as the program runs them -----

  /** A command with its arguments, and what the calls outside the modelled disk answer. */
  datatype Request =
    | CreateReq(id: string, title: string, url: string, template: Option<map<string, string>>, baselineOk: bool,
        commitOk: bool)
    | GuardReq(id: string, enabled: bool)
    | AddRepoReq(id: string, plan: seq<PlanItem>)
    | CloseReq(id: string, commits: Commits)
    | ReopenReq(id: string, commits: Commits)
    | PurgeReq(id: string, commits: Commits)

  function CommandOf(r: Request): Command {
    match r
    case CreateReq(id, _, _, _, _, _) => CreateCmd(id)
    case GuardReq(id, enabled) => GuardCmd(id, enabled)
    case AddRepoReq(id, _) => AddRepoCmd(id)
    case CloseReq(id, _) => CloseCmd(id)
    case ReopenReq(id, _) => ReopenCmd(id)
    case PurgeReq(id, _) => PurgeCmd(id)
  }

  /** Every command, whatever calls fail, makes a step. */
  method Perform(disk: Disk, locate: Locator, up: string -> Upstream, r: Request, now: int) returns (o: Outcome)
    modifies disk
    ensures Step(locate, old(disk.state), Event(CommandOf(r), o, disk.lost > old(disk.lost)), disk.state)
    ensures disk.lost >= old(disk.lost)
  {
    match r
    case CreateReq(id, title, url, template, baselineOk, commitOk) =>
      o := Create(disk, id, title, url, now, template, baselineOk, commitOk);
    case GuardReq(id, enabled) =>
      o := LockOrUnlock(disk, id, enabled, now);
    case AddRepoReq(id, plan) =>
      o := PerformAddRepos(disk, locate, id, plan, now);
    case CloseReq(id, commits) =>
      o := Close(disk, locate, id, commits, now);
    case ReopenReq(id, commits) =>
      o := Reopen(disk, up, locate, id, commits, now);
    case PurgeReq(id, commits) =>
      o := Purge(disk, id, commits);
  }

  method PerformAddRepos(disk: Disk, locate: Locator, id: string, plan: seq<PlanItem>, now: int) returns (o: Outcome)
    modifies disk
    ensures Step(locate, old(disk.state), Event(CommandOf(AddRepoReq(id, plan)), o, disk.lost > old(disk.lost)),
                 disk.state)
    ensures disk.lost >= old(disk.lost)
  {
    o := AddReposStep(disk, id, plan, now);
  }

  method AddReposStep(disk: Disk, id: string, plan: seq<PlanItem>, now: int) returns (o: Outcome)
    modifies disk
    ensures AddRepoStep(old(disk.state), id, disk.state) && disk.lost >= old(disk.lost)
    ensures !FailsLate(o)
  {
    var ok, clean := AddRepos(disk, id, plan, now, [], []);
    AddReposIsStep(old(disk.state), id, plan, ok, disk.state);
    o := if ok then Ok else Failed(false, clean);
  }

  lemma {:induction false} RunGrows(locate: Locator, events: seq<Event>, states: seq<State>, e: Event, v: State)
    requires IsRun(locate, events, states) && Step(locate, states[|events|], e, v)
    ensures IsRun(locate, events + [e], states + [v])
  {
    var es, vs := events + [e], states + [v];
    forall i: nat | i < |es| ensures StepAt(locate, es, vs, i) {
      if i < |events| {
        assert StepAt(locate, events, states, i);
        assert vs[i] == states[i] && vs[i + 1] == states[i + 1] && es[i] == events[i];
      }
    }
  }

  /** Commands one after the other from an empty root, whatever calls fail: the history is a run, no id ends
      up in both directories, and if no compensating call failed every status names its directory. */
  method PerformAll(disk: Disk, locate: Locator, up: string -> Upstream, requests: seq<Request>, clock: nat -> int)
    returns (ghost events: seq<Event>, ghost states: seq<State>)
    requires disk.state.active == map[] && disk.state.archive == map[]
    modifies disk
    ensures IsRun(locate, events, states) && |events| == |requests| && states[|events|] == disk.state
    ensures forall i :: 0 <= i < |events| ==> events[i].cmd == CommandOf(requests[i])
    ensures disk.state.active.Keys !! disk.state.archive.Keys
    ensures disk.lost == old(disk.lost) ==> Coherent(disk.state)
  {
    events, states := [], [disk.state];
    for i := 0 to |requests|
      invariant |events| == i && IsRun(locate, events, states) && states[i] == disk.state
      invariant forall j :: 0 <= j < i ==> events[j].cmd == CommandOf(requests[j])
      invariant disk.lost >= old(disk.lost)
      invariant disk.lost == old(disk.lost) ==> forall j :: 0 <= j < i ==> !events[j].lost
    {
      ghost var lost := disk.lost;
      var o := Perform(disk, locate, up, requests[i], clock(i));
      ghost var e := Event(CommandOf(requests[i]), o, disk.lost > lost);
      RunGrows(locate, events, states, e, disk.state);
      events, states := events + [e], states + [disk.state];
    }
    NeverInBoth(locate, events, states, |events|);
    if disk.lost == old(disk.lost) { StatusNamesDirectory(locate, events, states, |events|); }
  }
}
