/** The add-repo lock file of a workspace (internal/cli/ws_add_repo.go) as a step system of processes
    that create, inspect, remove and release it, with crashes at any point. */
module AddRepoLock {
  import opened Text
  import opened Counting

  /** A lock file left by an older version, or one created by a process that may not have written its pid yet. */
  datatype LockFile = Legacy | MadeBy(pid: nat, written: bool)

  /** Where a process stands; the number counts the attempts it has used up. */
  datatype Phase =
    | Trying(attempt: nat)
    | Writing(attempt: nat)
    | Inspecting(attempt: nat)
    | Removing(attempt: nat)
    | Holding
    | Released
    | Refused

  datatype Process = Process(workspace: string, phase: Phase, alive: bool)

  datatype State = State(locks: map<string, LockFile>, processes: map<nat, Process>)

  /** Whether creating the file and writing the pid happen as one step, and whether reading the file and
      removing it do. The program makes separate calls for each. */
  datatype Grain = Grain(atomicCreate: bool, atomicInspect: bool)

  /** A process takes its next step (a pid write may fail), or dies. */
  datatype Move = Act(pid: nat, writeOk: bool) | Crash(pid: nat)

  const ATTEMPTS := 2

  function LockName(workspace: string): string {
    "ws-add-repo-" + workspace + ".lock"
  }

  lemma {:induction false} LockNamesDiffer(a: string, b: string)
    requires LockName(a) == LockName(b)
    ensures a == b
  {
    var n := |"ws-add-repo-"|;
    assert LockName(a)[n..n + |a|] == a;
    assert LockName(b)[n..n + |b|] == b;
  }

  predicate Alive(s: State, pid: nat) {
    pid in s.processes && s.processes[pid].alive
  }

  /** isWorkspaceAddRepoLockStale: no pid, or the pid of a dead process. */
  predicate Stale(s: State, f: LockFile) {
    f.Legacy? || !f.written || !Alive(s, f.pid)
  }

  function Put(s: State, pid: nat, phase: Phase, locks: map<string, LockFile>): State
    requires pid in s.processes
  {
    State(locks, s.processes[pid := s.processes[pid].(phase := phase)])
  }

  function Step(g: Grain, s: State, m: Move): State {
    if m.Crash? then
      if Alive(s, m.pid) then s.(processes := s.processes[m.pid := s.processes[m.pid].(alive := false)]) else s
    else if !Alive(s, m.pid) then s
    else
      var pid := m.pid;
      var lock := LockName(s.processes[pid].workspace);
      match s.processes[pid].phase
      case Trying(n) =>
        if n >= ATTEMPTS then Put(s, pid, Refused, s.locks)
        else if lock in s.locks then Put(s, pid, Inspecting(n), s.locks)
        else if !g.atomicCreate then Put(s, pid, Writing(n), s.locks[lock := MadeBy(pid, false)])
        else if m.writeOk then Put(s, pid, Holding, s.locks[lock := MadeBy(pid, true)])
        else Put(s, pid, Refused, s.locks)
      case Writing(n) =>
        if m.writeOk then
          // The pid goes into the file this process opened, wherever its name went since.
          var mine := lock in s.locks && s.locks[lock] == MadeBy(pid, false);
          Put(s, pid, Holding, if mine then s.locks[lock := MadeBy(pid, true)] else s.locks)
        else Put(s, pid, Refused, s.locks - {lock})
      case Inspecting(n) =>
        if lock in s.locks && !Stale(s, s.locks[lock]) then Put(s, pid, Refused, s.locks)
        else if g.atomicInspect then Put(s, pid, Trying(n + 1), s.locks - {lock})
        else Put(s, pid, Removing(n), s.locks)
      case Removing(n) => Put(s, pid, Trying(n + 1), s.locks - {lock})
      case Holding => Put(s, pid, Released, s.locks - {lock})
      case Released => s
      case Refused => s
  }

  function Run(g: Grain, s: State, moves: seq<Move>): State {
    if moves == [] then s else Step(g, Run(g, s, moves[..|moves| - 1]), moves[|moves| - 1])
  }

  /** Processes about to make their first attempt; lock files left over by processes that are gone. */
  ghost predicate Initial(s: State) {
    && (forall p :: p in s.processes ==> s.processes[p].phase == Trying(0) && s.processes[p].alive)
    && (forall k :: k in s.locks && s.locks[k].MadeBy? ==> s.locks[k].pid !in s.processes)
  }

  predicate Holds(s: State, pid: nat) {
    Alive(s, pid) && s.processes[pid].phase.Holding?
  }

  /** At most one live holder for each workspace. */
  ghost predicate Exclusive(s: State) {
    forall p, q :: Holds(s, p) && Holds(s, q) && s.processes[p].workspace == s.processes[q].workspace ==> p == q
  }

  // ----- Safety with atomic steps -----

  const ATOMIC := Grain(true, true)

  /** A live holder's lock file is there and names it; nobody is between two halves of a step. */
  ghost predicate Inv(s: State) {
    && (forall p :: Holds(s, p) ==>
          var lock := LockName(s.processes[p].workspace);
          lock in s.locks && s.locks[lock] == MadeBy(p, true))
    && (forall p :: p in s.processes ==> !s.processes[p].phase.Writing? && !s.processes[p].phase.Removing?)
    && (forall p :: p in s.processes && s.processes[p].phase.Trying? ==> s.processes[p].phase.attempt <= ATTEMPTS)
    && (forall p :: p in s.processes && s.processes[p].phase.Inspecting? ==> s.processes[p].phase.attempt < ATTEMPTS)
  }

  lemma {:induction false} StepKeepsInv(s: State, m: Move)
    requires Inv(s)
    ensures Inv(Step(ATOMIC, s, m))
  {
    var t := Step(ATOMIC, s, m);
    forall p | Holds(t, p)
      ensures LockName(t.processes[p].workspace) in t.locks
      ensures t.locks[LockName(t.processes[p].workspace)] == MadeBy(p, true)
    {
      if p != m.pid { assert Holds(s, p); }
      if m.Act? && p != m.pid && Alive(s, m.pid) && LockName(s.processes[p].workspace)
          == LockName(s.processes[m.pid].workspace) {
        assert !Holds(s, m.pid);
      }
    }
  }

  lemma {:induction false} RunKeepsInv(s: State, moves: seq<Move>)
    requires Initial(s)
    ensures Inv(Run(ATOMIC, s, moves))
  {
    if moves != [] {
      RunKeepsInv(s, moves[..|moves| - 1]);
      StepKeepsInv(Run(ATOMIC, s, moves[..|moves| - 1]), moves[|moves| - 1]);
    }
  }

  lemma {:induction false} InvExclusive(s: State)
    requires Inv(s)
    ensures Exclusive(s)
  {
  }

  /** A release deletes the lock file that the releasing process itself made. */
  lemma {:induction false} ReleaseIsOwn(s: State, moves: seq<Move>, pid: nat)
    requires Initial(s) && Holds(Run(ATOMIC, s, moves), pid)
    ensures var t := Run(ATOMIC, s, moves);
            var lock := LockName(t.processes[pid].workspace);
            && lock in t.locks && t.locks[lock] == MadeBy(pid, true)
            && Step(ATOMIC, t, Act(pid, true)).locks == t.locks - {lock}
  {
    RunKeepsInv(s, moves);
  }

  /** A lock file that a process of this run made is that of its workspace, and the process holds the lock or
      died holding it. */
  ghost predicate NoOrphans(s: State) {
    forall k :: k in s.locks && s.locks[k].MadeBy? && s.locks[k].pid in s.processes ==>
      var p := s.processes[s.locks[k].pid];
      p.phase.Holding? && LockName(p.workspace) == k && s.locks[k].written
  }

  lemma {:induction false} StepLeavesNoOrphans(s: State, m: Move)
    requires Inv(s) && NoOrphans(s)
    ensures NoOrphans(Step(ATOMIC, s, m))
  {
  }

  /** Over every run no process that released, was refused or could not write leaves a lock file behind. */
  lemma {:induction false} NothingIsLeftBehind(s: State, moves: seq<Move>)
    requires Initial(s)
    ensures NoOrphans(Run(ATOMIC, s, moves))
  {
    if moves != [] {
      NothingIsLeftBehind(s, moves[..|moves| - 1]);
      RunKeepsInv(s, moves[..|moves| - 1]);
      StepLeavesNoOrphans(Run(ATOMIC, s, moves[..|moves| - 1]), moves[|moves| - 1]);
    }
  }

  // ----- Acquisition ends -----

  function Left(phase: Phase): nat {
    match phase
    case Trying(n) => if n >= ATTEMPTS then 1 else 4 * (ATTEMPTS - n) + 1
    case Inspecting(n) => if n >= ATTEMPTS then 4 else 4 * (ATTEMPTS - n)
    case Removing(n) => if n >= ATTEMPTS then 3 else 4 * (ATTEMPTS - n) - 1
    case Writing(_) => 1
    case Holding => 0
    case Released => 0
    case Refused => 0
  }

  /** Whatever the others do, every own step of a live process that neither holds the lock nor gave up brings
      it closer to one of the two, so it ends after at most two attempts. */
  lemma {:induction false} AcquireEnds(g: Grain, s: State, pid: nat, writeOk: bool)
    requires Alive(s, pid) && !s.processes[pid].phase.Holding? && !s.processes[pid].phase.Released?
        && !s.processes[pid].phase.Refused?
    ensures Left(Step(g, s, Act(pid, writeOk)).processes[pid].phase) < Left(s.processes[pid].phase)
  {
  }

  /** The moves of the others leave its progress alone. */
  lemma {:induction false} OthersLeaveProgress(g: Grain, s: State, m: Move, pid: nat)
    requires pid in s.processes && m.pid != pid
    ensures pid in Step(g, s, m).processes && Step(g, s, m).processes[pid] == s.processes[pid]
  {
  }

  predicate Waiting(phase: Phase) {
    !phase.Holding? && !phase.Released? && !phase.Refused?
  }

  function OwnMove(pid: nat): Move -> bool {
    (m: Move) => m.Act? && m.pid == pid
  }

  /** In every run, however its steps are split and whatever the others do, a live process that still waits
      has made fewer than nine steps of its own: after at most two attempts it holds the lock or gave up. */
  lemma {:induction false} AcquireEndsInEveryRun(g: Grain, s: State, moves: seq<Move>, pid: nat)
    requires Initial(s) && pid in s.processes
    ensures var t := Run(g, s, moves);
            && pid in t.processes
            && (t.processes[pid].alive && Waiting(t.processes[pid].phase) ==>
                  Count(moves, OwnMove(pid)) + Left(t.processes[pid].phase) <= 4 * ATTEMPTS + 1
                      && Left(t.processes[pid].phase) > 0)
  {
    if moves != [] {
      var before, m := Run(g, s, moves[..|moves| - 1]), moves[|moves| - 1];
      AcquireEndsInEveryRun(g, s, moves[..|moves| - 1], pid);
      if m.pid != pid {
        OthersLeaveProgress(g, before, m, pid);
      } else if m.Act? && Alive(before, pid) && Waiting(before.processes[pid].phase) {
        AcquireEnds(g, before, pid, m.writeOk);
      }
    }
  }

  // ----- One process with a lock file in its way -----

  /** The process takes n steps and nobody else does anything. */
  function Alone(g: Grain, s: State, pid: nat, n: nat): State {
    if n == 0 then s else Step(g, Alone(g, s, pid, n - 1), Act(pid, true))
  }

  /** It is a run. */
  lemma {:induction false} AloneIsRun(g: Grain, s: State, pid: nat, n: nat) returns (moves: seq<Move>)
    ensures Run(g, s, moves) == Alone(g, s, pid, n) && |moves| == n
    ensures forall i :: 0 <= i < n ==> moves[i] == Act(pid, true)
  {
    if n == 0 {
      moves := [];
    } else {
      var front := AloneIsRun(g, s, pid, n - 1);
      moves := front + [Act(pid, true)];
      assert moves[..n - 1] == front;
    }
  }

  /** Nobody alive made this file, or it has no pid in it. */
  predicate Abandoned(s: State, f: LockFile) {
    f.Legacy? || !f.written || f.pid !in s.processes || !s.processes[f.pid].alive
  }

  /** From its first attempt on, a process alone with its lock gets it exactly if there is no file in its way
      or an abandoned one, whichever of its steps are split; then the file names it. Else it gives up and
      leaves the file. */
  lemma {:induction false} LoneProcessHoldsIff(g: Grain, s: State, pid: nat)
    requires Alive(s, pid) && s.processes[pid].phase == Trying(0)
    ensures var lock := LockName(s.processes[pid].workspace);
            var free := lock !in s.locks || Abandoned(s, s.locks[lock]);
            && (free ==> exists n :: n <= 5 && Holds(Alone(g, s, pid, n), pid)
                           && Alone(g, s, pid, n).locks == s.locks[lock := MadeBy(pid, true)])
            && (!free ==> Alone(g, s, pid, 2) == Put(s, pid, Refused, s.locks))
  {
    var lock := LockName(s.processes[pid].workspace);
    if lock !in s.locks {
      var n := FreeIsTaken(g, s, pid, s, 0, 0);
    } else if Abandoned(s, s.locks[lock]) {
      var k, t := AbandonedIsRemoved(g, s, pid);
      assert t.locks[lock := MadeBy(pid, true)] == s.locks[lock := MadeBy(pid, true)];
      var n := FreeIsTaken(g, s, pid, t, k, 1);
    } else {
      HeldIsLeft(g, s, pid);
    }
  }

  lemma {:induction false} HeldIsLeft(g: Grain, s: State, pid: nat)
    requires Alive(s, pid) && s.processes[pid].phase == Trying(0)
    requires var lock := LockName(s.processes[pid].workspace); lock in s.locks && !Abandoned(s, s.locks[lock])
    ensures Alone(g, s, pid, 2) == Put(s, pid, Refused, s.locks)
  {
    var f := s.locks[LockName(s.processes[pid].workspace)];
    var one := Put(s, pid, Inspecting(0), s.locks);
    assert Alone(g, s, pid, 0) == s;
    assert Alone(g, s, pid, 1) == one;
    assert Alive(one, f.pid);
    assert Alone(g, s, pid, 2) == Step(g, one, Act(pid, true)) == Put(one, pid, Refused, s.locks);
    assert one.processes[pid := one.processes[pid].(phase := Refused)]
        == s.processes[pid := s.processes[pid].(phase := Refused)];
  }

  lemma {:induction false} AbandonedIsRemoved(g: Grain, s: State, pid: nat) returns (k: nat, t: State)
    requires Alive(s, pid) && s.processes[pid].phase == Trying(0)
    requires var lock := LockName(s.processes[pid].workspace); lock in s.locks && Abandoned(s, s.locks[lock])
    ensures k <= 3 && t == Alone(g, s, pid, k)
    ensures t == Put(s, pid, Trying(1), s.locks - {LockName(s.processes[pid].workspace)})
  {
    var lock := LockName(s.processes[pid].workspace);
    var one := Put(s, pid, Inspecting(0), s.locks);
    assert Alone(g, s, pid, 0) == s;
    assert Alone(g, s, pid, 1) == one;
    assert s.locks[lock].MadeBy? ==> (Alive(one, s.locks[lock].pid) <==> Alive(s, s.locks[lock].pid));
    var two := Step(g, one, Act(pid, true));
    assert Alone(g, s, pid, 2) == two;
    if g.atomicInspect {
      k, t := 2, two;
    } else {
      assert two == Put(one, pid, Removing(0), s.locks);
      k, t := 3, Step(g, two, Act(pid, true));
      assert Alone(g, s, pid, 3) == t;
    }
  }

  lemma {:induction false} FreeIsTaken(g: Grain, s: State, pid: nat, t: State, k: nat, attempt: nat) returns (n: nat)
    requires t == Alone(g, s, pid, k) && Alive(t, pid) && t.processes[pid].phase == Trying(attempt)
    requires attempt < ATTEMPTS && LockName(t.processes[pid].workspace) !in t.locks
    ensures n <= k + 2 && Holds(Alone(g, s, pid, n), pid)
    ensures Alone(g, s, pid, n).locks == t.locks[LockName(t.processes[pid].workspace) := MadeBy(pid, true)]
  {
    var u := Step(g, t, Act(pid, true));
    assert Alone(g, s, pid, k + 1) == u;
    if g.atomicCreate {
      n := k + 1;
    } else {
      n := k + 2;
      assert Alone(g, s, pid, k + 2) == Step(g, u, Act(pid, true));
    }
  }

  // ----- Both atomicity assumptions are needed -----

  ghost predicate Safe(g: Grain) {
    forall s, moves :: Initial(s) ==> Exclusive(Run(g, s, moves))
  }

  lemma {:induction false} AtomicIsSafe()
    ensures Safe(ATOMIC)
  {
    forall s, moves | Initial(s) ensures Exclusive(Run(ATOMIC, s, moves)) {
      RunKeepsInv(s, moves);
      InvExclusive(Run(ATOMIC, s, moves));
    }
  }

  function At(locks: map<string, LockFile>, one: Phase, two: Phase): State {
    State(locks, map[1 := Process("w", one, true), 2 := Process("w", two, true)])
  }

  ghost predicate Reaches(g: Grain, s: State, t: State) {
    exists moves :: Run(g, s, moves) == t
  }

  lemma {:induction false} ReachesItself(g: Grain, s: State)
    ensures Reaches(g, s, s)
  {
    assert Run(g, s, []) == s;
  }

  lemma {:induction false} ReachesNext(g: Grain, s: State, t: State, m: Move, u: State)
    requires Reaches(g, s, t) && Step(g, t, m) == u
    ensures Reaches(g, s, u)
  {
    var moves :| Run(g, s, moves) == t;
    assert (moves + [m])[..|moves|] == moves;
    assert Run(g, s, moves + [m]) == u;
  }

  lemma {:induction false} BothHold(g: Grain, s: State, locks: map<string, LockFile>)
    requires Initial(s) && Reaches(g, s, At(locks, Holding, Holding))
    ensures !Safe(g)
  {
    var moves :| Run(g, s, moves) == At(locks, Holding, Holding);
    assert Holds(Run(g, s, moves), 1) && Holds(Run(g, s, moves), 2);
  }

  /** One step of a process over the lock file of its workspace. */
  lemma {:induction false} MoveOne(
    g: Grain, s: State, locks: map<string, LockFile>, one: Phase, two: Phase, locks': map<string, LockFile>,
    one': Phase)
    requires Reaches(g, s, At(locks, one, two))
    requires Step(g, At(locks, one, two), Act(1, true)) == At(locks', one', two)
    ensures Reaches(g, s, At(locks', one', two))
  {
    ReachesNext(g, s, At(locks, one, two), Act(1, true), At(locks', one', two));
  }

  lemma {:induction false} MoveTwo(
    g: Grain, s: State, locks: map<string, LockFile>, one: Phase, two: Phase, locks': map<string, LockFile>,
    two': Phase)
    requires Reaches(g, s, At(locks, one, two))
    requires Step(g, At(locks, one, two), Act(2, true)) == At(locks', one, two')
    ensures Reaches(g, s, At(locks', one, two'))
  {
    ReachesNext(g, s, At(locks, one, two), Act(2, true), At(locks', one, two'));
  }

  function Lone(f: LockFile): map<string, LockFile> {
    map[LockName("w") := f]
  }

  /** A file without its pid looks stale: process 2 removes the file that process 1 is about to write to. */
  lemma {:induction false} SplitCreateFirstHalf(g: Grain, s: State)
    requires !g.atomicCreate && s == At(map[], Trying(0), Trying(0))
    ensures Reaches(g, s, At(map[], Writing(0), Trying(1)))
  {
    var f := Lone(MadeBy(1, false));
    ReachesItself(g, s);
    MoveOne(g, s, map[], Trying(0), Trying(0), f, Writing(0));
    MoveTwo(g, s, f, Writing(0), Trying(0), f, Inspecting(0));
    assert f - {LockName("w")} == map[];
    if g.atomicInspect {
      MoveTwo(g, s, f, Writing(0), Inspecting(0), map[], Trying(1));
    } else {
      MoveTwo(g, s, f, Writing(0), Inspecting(0), f, Removing(0));
      MoveTwo(g, s, f, Writing(0), Removing(0), map[], Trying(1));
    }
  }

  lemma {:induction false} SplitCreateIsUnsafe(g: Grain)
    requires !g.atomicCreate
    ensures !Safe(g)
  {
    var s := At(map[], Trying(0), Trying(0));
    SplitCreateFirstHalf(g, s);
    MoveTwo(g, s, map[], Writing(0), Trying(1), Lone(MadeBy(2, false)), Writing(1));
    MoveTwo(g, s, Lone(MadeBy(2, false)), Writing(0), Writing(1), Lone(MadeBy(2, true)), Holding);
    MoveOne(g, s, Lone(MadeBy(2, true)), Writing(0), Holding, Lone(MadeBy(2, true)), Holding);
    BothHold(g, s, Lone(MadeBy(2, true)));
  }

  /** Two processes find the same stale file; the second removes the first one's new lock. */
  lemma {:induction false} SplitInspectFirstHalf(g: Grain, s: State)
    requires g.atomicCreate && !g.atomicInspect && s == At(Lone(Legacy), Trying(0), Trying(0))
    ensures Reaches(g, s, At(Lone(Legacy), Removing(0), Removing(0)))
  {
    ReachesItself(g, s);
    MoveOne(g, s, Lone(Legacy), Trying(0), Trying(0), Lone(Legacy), Inspecting(0));
    MoveOne(g, s, Lone(Legacy), Inspecting(0), Trying(0), Lone(Legacy), Removing(0));
    MoveTwo(g, s, Lone(Legacy), Removing(0), Trying(0), Lone(Legacy), Inspecting(0));
    MoveTwo(g, s, Lone(Legacy), Removing(0), Inspecting(0), Lone(Legacy), Removing(0));
  }

  lemma {:induction false} SplitInspectIsUnsafe(g: Grain)
    requires g.atomicCreate && !g.atomicInspect
    ensures !Safe(g)
  {
    var s := At(Lone(Legacy), Trying(0), Trying(0));
    SplitInspectFirstHalf(g, s);
    assert Lone(Legacy) - {LockName("w")} == map[] == Lone(MadeBy(1, true)) - {LockName("w")};
    MoveOne(g, s, Lone(Legacy), Removing(0), Removing(0), map[], Trying(1));
    MoveOne(g, s, map[], Trying(1), Removing(0), Lone(MadeBy(1, true)), Holding);
    MoveTwo(g, s, Lone(MadeBy(1, true)), Holding, Removing(0), map[], Trying(1));
    MoveTwo(g, s, map[], Holding, Trying(1), Lone(MadeBy(2, true)), Holding);
    BothHold(g, s, Lone(MadeBy(2, true)));
  }

  /** Mutual exclusion holds in every run exactly when both pairs of calls are atomic. */
  lemma {:induction false} ExclusiveIffAtomic(g: Grain)
    ensures Safe(g) <==> g.atomicCreate && g.atomicInspect
  {
    if g.atomicCreate && g.atomicInspect {
      AtomicIsSafe();
    } else if !g.atomicCreate {
      SplitCreateIsUnsafe(g);
    } else {
      SplitInspectIsUnsafe(g);
    }
  }
}
