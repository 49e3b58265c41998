/** The in-progress latch over runs of commands (internal/cli/workspace_workstate.go, internal/cli/ws_list.go). */
module WorkStateRuns {
  import opened Text
  import opened WorkState

  datatype CacheEntry = CacheEntry(state: WorkState, firstDerivedAt: int)

  type Cache = map<string, CacheEntry>

  datatype State = State(cache: Cache, baselines: map<string, BaselineFile>)

  /** One active workspace as a listing meets it; no view when its repos directory cannot be read. */
  datatype Row = Row(id: string, view: Option<View>, now: int)

  /** A command as far as the two state files go, with what failed. A refresh or a removal writes the
      baseline first and then clears the cache entry. */
  datatype Event =
    | Listing(rows: seq<Row>, saveOk: bool)
    | Refresh(id: string, baseline: Option<Baseline>, saveOk: bool, clearOk: bool)
    | Forget(id: string, removeOk: bool, clearOk: bool)

  predicate Latched(cache: Cache, id: string) {
    id in cache && cache[id].state == InProgress
  }

  function BaselineOf(s: State, id: string): BaselineFile {
    if id in s.baselines then s.baselines[id] else Absent
  }

  /** The row's view, read now, is derived to be in progress. */
  predicate DerivesInProgress(s: State, row: Row) {
    row.view.Some? && !Untouched(BaselineOf(s, row.id), row.view.value)
  }

  // ----- One listing -----

  datatype Listed = Listed(states: seq<WorkState>, cache: Cache, dirty: bool)

  /** The first n rows of a listing; None when one of them cannot be read. */
  function ListRows(s: State, rows: seq<Row>, n: nat): Option<Listed>
    requires n <= |rows|
  {
    if n == 0 then Some(Listed([], s.cache, false))
    else
      var row := rows[n - 1];
      match ListRows(s, rows, n - 1)
      case None => None
      case Some(before) =>
        if row.view.None? then None
        else if Latched(before.cache, row.id) then Some(before.(states := before.states + [InProgress]))
        else if !DerivesInProgress(s, row) then Some(before.(states := before.states + [Todo]))
        else Some(Listed(before.states + [InProgress], before.cache[row.id := CacheEntry(InProgress, row.now)], true))
  }

  lemma {:induction false} UnreadableRow(s: State, rows: seq<Row>, k: nat, n: nat)
    requires k < n <= |rows| && rows[k].view.None?
    ensures ListRows(s, rows, n).None?
  {
    if k < n - 1 { UnreadableRow(s, rows, k, n - 1); }
  }

  /** The state of one row and the cache after it. */
  method ResolveState(s: State, row: Row, cache: Cache) returns (state: WorkState, updated: Cache, changed: bool)
    requires row.view.Some?
    ensures state == if Latched(cache, row.id) || DerivesInProgress(s, row) then InProgress else Todo
    ensures changed <==> !Latched(cache, row.id) && DerivesInProgress(s, row)
    ensures updated == if changed then cache[row.id := CacheEntry(InProgress, row.now)] else cache
  {
    if Latched(cache, row.id) {
      return InProgress, cache, false;
    }
    var derived := DeriveState(BaselineOf(s, row.id), row.view.value);
    state := if derived.Failure? then InProgress else derived.value;
    if state != InProgress {
      return state, cache, false;
    }
    return InProgress, cache[row.id := CacheEntry(InProgress, row.now)], true;
  }

  /** The listing command: the cache is read once, extended row by row, and saved at the end if it changed. */
  method ListActive(s: State, rows: seq<Row>, saveOk: bool) returns (states: Option<seq<WorkState>>, after: State)
    ensures states.Some? <==> Completes(s, Listing(rows, saveOk))
    ensures states.Some? ==> states.value == ListRows(s, rows, |rows|).value.states
    ensures after == Step(s, Listing(rows, saveOk))
  {
    var cache, listed, dirty := s.cache, [], false;
    for i := 0 to |rows|
      invariant ListRows(s, rows, i) == Some(Listed(listed, cache, dirty))
      invariant !dirty ==> cache == s.cache
    {
      if rows[i].view.None? {
        UnreadableRow(s, rows, i, |rows|);
        return None, s;
      }
      var state, updated, changed := ResolveState(s, rows[i], cache);
      listed, cache, dirty := listed + [state], updated, dirty || changed;
    }
    if dirty && !saveOk {
      return None, s;
    }
    return Some(listed), if dirty then s.(cache := cache) else s;
  }

  // ----- Runs -----

  predicate Completes(s: State, e: Event) {
    match e
    case Listing(rows, saveOk) =>
      var listed := ListRows(s, rows, |rows|);
      listed.Some? && (listed.value.dirty ==> saveOk)
    case Refresh(_, baseline, saveOk, clearOk) => baseline.Some? && saveOk && clearOk
    case Forget(_, removeOk, clearOk) => removeOk && clearOk
  }

  function Step(s: State, e: Event): State {
    match e
    case Listing(rows, _) => if Completes(s, e) then s.(cache := ListRows(s, rows, |rows|).value.cache) else s
    case Refresh(id, baseline, saveOk, clearOk) =>
      if baseline.None? || !saveOk then s
      else State(if clearOk then s.cache - {id} else s.cache, s.baselines[id := Present(baseline.value)])
    case Forget(id, removeOk, clearOk) =>
      if !removeOk then s
      else State(if clearOk then s.cache - {id} else s.cache, s.baselines - {id})
  }

  /** The state after the first n commands. */
  function After(s: State, es: seq<Event>, n: nat): State
    requires n <= |es|
  {
    if n == 0 then s else Step(After(s, es, n - 1), es[n - 1])
  }

  /** A refresh or a removal of the workspace that went through. */
  predicate Resets(e: Event, id: string) {
    match e
    case Listing(_, _) => false
    case Refresh(i, baseline, saveOk, clearOk) => i == id && baseline.Some? && saveOk && clearOk
    case Forget(i, removeOk, clearOk) => i == id && removeOk && clearOk
  }

  ghost predicate SomeRowDerives(s: State, rows: seq<Row>, n: nat, id: string)
    requires n <= |rows|
  {
    exists i :: 0 <= i < n && rows[i].id == id && DerivesInProgress(s, rows[i])
  }

  /** Command k is a completed listing that derives the workspace to be in progress. */
  ghost predicate DerivedAt(init: State, es: seq<Event>, k: nat, id: string)
    requires k < |es|
  {
    var s := After(init, es, k);
    es[k].Listing? && Completes(s, es[k]) && SomeRowDerives(s, es[k].rows, |es[k].rows|, id)
  }

  /** Some listing among the first n commands, after the last reset among them, derives it. */
  ghost predicate DerivedSince(init: State, es: seq<Event>, n: nat, id: string)
    requires n <= |es|
  {
    exists k :: 0 <= k < n && DerivedAt(init, es, k, id) && forall j :: k < j < n ==> !Resets(es[j], id)
  }

  lemma {:induction false} ListingLatches(s: State, rows: seq<Row>, n: nat, id: string)
    requires n <= |rows| && ListRows(s, rows, n).Some?
    ensures Latched(ListRows(s, rows, n).value.cache, id) <==> Latched(s.cache, id) || SomeRowDerives(s, rows, n, id)
  {
    if n > 0 {
      ListingLatches(s, rows, n - 1, id);
    }
  }

  lemma {:induction false} StepLatches(s: State, e: Event, id: string)
    ensures Latched(Step(s, e).cache, id) <==>
            || (Latched(s.cache, id) && !Resets(e, id))
            || (e.Listing? && Completes(s, e) && SomeRowDerives(s, e.rows, |e.rows|, id))
  {
    if e.Listing? && Completes(s, e) { ListingLatches(s, e.rows, |e.rows|, id); }
  }

  lemma {:induction false} SinceNext(init: State, es: seq<Event>, n: nat, id: string)
    requires n < |es|
    ensures DerivedSince(init, es, n + 1, id) <==>
            (DerivedSince(init, es, n, id) && !Resets(es[n], id)) || DerivedAt(init, es, n, id)
  {
    if DerivedSince(init, es, n, id) && !Resets(es[n], id) {
      var k :| 0 <= k < n && DerivedAt(init, es, k, id) && forall j :: k < j < n ==> !Resets(es[j], id);
      assert forall j :: k < j < n + 1 ==> !Resets(es[j], id);
    }
    if DerivedSince(init, es, n + 1, id) && !DerivedAt(init, es, n, id) {
      var k :| 0 <= k < n + 1 && DerivedAt(init, es, k, id) && forall j :: k < j < n + 1 ==> !Resets(es[j], id);
      assert k < n;
    }
  }

  /** Over every run, the cache latches a workspace exactly when a listing since its last reset derived it
      to be in progress. */
  lemma {:induction false} LatchedIffDerived(init: State, es: seq<Event>, n: nat, id: string)
    requires n <= |es| && !Latched(init.cache, id)
    ensures Latched(After(init, es, n).cache, id) <==> DerivedSince(init, es, n, id)
  {
    if n > 0 {
      LatchedIffDerived(init, es, n - 1, id);
      StepLatches(After(init, es, n - 1), es[n - 1], id);
      SinceNext(init, es, n - 1, id);
    }
  }

  lemma {:induction false} RowState(s: State, rows: seq<Row>, n: nat, i: nat)
    requires i < n <= |rows| && ListRows(s, rows, n).Some?
    ensures var listed := ListRows(s, rows, n).value.states;
            && |listed| == n
            && (listed[i] == InProgress <==> Latched(s.cache, rows[i].id) || SomeRowDerives(s, rows, i + 1, rows[i].id))
  {
    if i < n - 1 {
      RowState(s, rows, n - 1, i);
    } else {
      RowCount(s, rows, n - 1);
      ListingLatches(s, rows, n - 1, rows[i].id);
    }
  }

  lemma {:induction false} RowCount(s: State, rows: seq<Row>, n: nat)
    requires n <= |rows| && ListRows(s, rows, n).Some?
    ensures |ListRows(s, rows, n).value.states| == n
  {
    if n > 0 { RowCount(s, rows, n - 1); }
  }

  /** The listed state is the plain definition: in progress exactly when this listing, or one since the
      workspace was last refreshed or removed, derives it to be in progress. */
  lemma {:induction false} ListedIffDerived(init: State, es: seq<Event>, n: nat, i: nat)
    requires n < |es| && es[n].Listing? && Completes(After(init, es, n), es[n]) && i < |es[n].rows|
    requires !Latched(init.cache, es[n].rows[i].id)
    requires forall j :: 0 <= j < |es[n].rows| && j != i ==> es[n].rows[j].id != es[n].rows[i].id
    ensures var s := After(init, es, n); var rows := es[n].rows;
            var listed := ListRows(s, rows, |rows|).value.states;
            && |listed| == |rows|
            && (listed[i] == InProgress <==> DerivedSince(init, es, n, rows[i].id) || DerivesInProgress(s, rows[i]))
  {
    var s, rows := After(init, es, n), es[n].rows;
    RowState(s, rows, |rows|, i);
    LatchedIffDerived(init, es, n, rows[i].id);
  }

  lemma {:induction false} ListingKeepsTime(s: State, rows: seq<Row>, n: nat, id: string)
    requires n <= |rows| && ListRows(s, rows, n).Some? && Latched(s.cache, id)
    ensures id in ListRows(s, rows, n).value.cache && ListRows(s, rows, n).value.cache[id] == s.cache[id]
  {
    if n > 0 { ListingKeepsTime(s, rows, n - 1, id); }
  }

  lemma {:induction false} StepKeepsTime(s: State, e: Event, id: string)
    requires Latched(s.cache, id) && !Resets(e, id)
    ensures id in Step(s, e).cache && Step(s, e).cache[id] == s.cache[id]
  {
    if e.Listing? && Completes(s, e) { ListingKeepsTime(s, e.rows, |e.rows|, id); }
  }

  /** Over every run, a latched entry keeps the time of its first derivation until the workspace is refreshed
      or removed. */
  lemma {:induction false} FirstTimeIsKept(init: State, es: seq<Event>, m: nat, n: nat, id: string)
    requires m <= n <= |es| && Latched(After(init, es, m).cache, id)
    requires forall j :: m <= j < n ==> !Resets(es[j], id)
    ensures var s, t := After(init, es, m), After(init, es, n); id in t.cache && t.cache[id] == s.cache[id]
  {
    if m < n {
      FirstTimeIsKept(init, es, m, n - 1, id);
      StepKeepsTime(After(init, es, n - 1), es[n - 1], id);
    }
  }

  /** The first row of the workspace that derives it, among the first n. */
  ghost predicate FirstDeriving(s: State, rows: seq<Row>, n: nat, id: string, k: nat)
    requires n <= |rows|
  {
    k < n && rows[k].id == id && DerivesInProgress(s, rows[k]) && !SomeRowDerives(s, rows, k, id)
  }

  /** A workspace that a listing latches anew carries the time of the first row that derived it. */
  lemma {:induction false} LatchedAtFirst(s: State, rows: seq<Row>, n: nat, id: string, k: nat)
    requires n <= |rows| && ListRows(s, rows, n).Some? && !Latched(s.cache, id) && FirstDeriving(s, rows, n, id, k)
    ensures var cache := ListRows(s, rows, n).value.cache;
            id in cache && cache[id] == CacheEntry(InProgress, rows[k].now)
  {
    if k < n - 1 {
      LatchedAtFirst(s, rows, n - 1, id, k);
    } else {
      ListingLatches(s, rows, n - 1, id);
    }
  }

  /** The baseline that the command stores for the workspace, none if it leaves the one that is there. */
  function Written(e: Event, id: string): Option<BaselineFile> {
    match e
    case Listing(_, _) => None
    case Refresh(i, baseline, saveOk, _) =>
      if i == id && saveOk && baseline.Some? then Some(Present(baseline.value)) else None
    case Forget(i, removeOk, _) => if i == id && removeOk then Some(Absent) else None
  }

  ghost predicate WrittenLast(es: seq<Event>, k: nat, n: nat, id: string, file: BaselineFile)
    requires n <= |es|
  {
    k < n && Written(es[k], id) == Some(file) && forall j :: k < j < n ==> Written(es[j], id).None?
  }

  /** Over every run, the baseline of a workspace is the one that the latest command to write it wrote, and the
      first one if none did, whether or not the cache could be cleared. */
  lemma {:induction false} BaselineIsLatest(init: State, es: seq<Event>, n: nat, id: string)
    requires n <= |es|
    ensures var file := BaselineOf(After(init, es, n), id);
            || (file == BaselineOf(init, id) && forall j :: 0 <= j < n ==> Written(es[j], id).None?)
            || exists k :: WrittenLast(es, k, n, id, file)
  {
    if n > 0 {
      BaselineIsLatest(init, es, n - 1, id);
      var file, m := BaselineOf(After(init, es, n), id), n - 1;
      if Written(es[m], id).Some? {
        assert WrittenLast(es, m, n, id, file);
      } else {
        assert file == BaselineOf(After(init, es, m), id);
        if k :| WrittenLast(es, k, m, id, file) {
          assert WrittenLast(es, k, n, id, file);
        }
      }
    }
  }
}
