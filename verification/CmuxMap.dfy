/** The cmux mapping file: normalization and ordinal allocation
    (internal/cmuxmap/store.go, internal/cmuxmap/title_policy.go). */
module CmuxMap {
  import opened Text
  import opened Sorting

  const CURRENT_VERSION := 1
  const UNTITLED_WORKSPACE := "(untitled)"

  datatype Entry = Entry(cmuxId: string, ordinal: int, title: string, createdAt: string, lastUsedAt: string)
  datatype WorkspaceMapping = WorkspaceMapping(nextOrdinal: int, entries: seq<Entry>)
  datatype File = File(version: int, workspaces: map<string, WorkspaceMapping>)

  /** The value a Go map lookup gives for an absent workspace. */
  const UNMAPPED := WorkspaceMapping(0, [])

  function Lookup(f: File, id: string): WorkspaceMapping {
    if id in f.workspaces then f.workspaces[id] else UNMAPPED
  }

  predicate EntryLe(a: Entry, b: Entry) {
    a.ordinal < b.ordinal || (a.ordinal == b.ordinal && StrLe(a.cmuxId, b.cmuxId))
  }

  lemma {:induction false} EntryLeIsTotalPreorder()
    ensures TotalPreorder(EntryLe)
  {
    forall a: Entry, b: Entry ensures EntryLe(a, b) || EntryLe(b, a) { StrLeTotal(a.cmuxId, b.cmuxId); }
    forall a: Entry, b: Entry, c: Entry | EntryLe(a, b) && EntryLe(b, c) ensures EntryLe(a, c) {
      if a.ordinal == b.ordinal == c.ordinal { StrLeTrans(a.cmuxId, b.cmuxId, c.cmuxId); }
    }
  }

  /** An ordinal below one is replaced by the one-based position. */
  function Renumbered(e: Entry, position: nat): Entry {
    if e.ordinal < 1 then e.(ordinal := position + 1) else e
  }

  function Renumber(s: seq<Entry>): (r: seq<Entry>)
    ensures |r| == |s|
    ensures forall i :: 0 <= i < |s| ==> r[i] == Renumbered(s[i], i)
  {
    seq(|s|, i requires 0 <= i < |s| => Renumbered(s[i], i))
  }

  function MaxOrdinal(s: seq<Entry>): nat
  {
    if s == [] then 0
    else
      var m := MaxOrdinal(s[..|s| - 1]);
      if s[|s| - 1].ordinal > m then s[|s| - 1].ordinal else m
  }

  lemma {:induction false} MaxOrdinalIsMax(s: seq<Entry>)
    ensures forall e :: e in s ==> e.ordinal <= MaxOrdinal(s)
    ensures MaxOrdinal(s) == 0 || exists e :: e in s && e.ordinal == MaxOrdinal(s)
  {
    if s != [] {
      MaxOrdinalIsMax(s[..|s| - 1]);
      assert s == s[..|s| - 1] + [s[|s| - 1]];
      assert s[|s| - 1] in s;
    }
  }

  function NextAfter(next: int, max: nat): int {
    var floor := if next < 1 then 1 else next;
    if floor <= max then max + 1 else floor
  }

  function NormalizeWorkspace(ws: WorkspaceMapping): WorkspaceMapping {
    var entries := Renumber(SortBy(ws.entries, EntryLe));
    WorkspaceMapping(NextAfter(ws.nextOrdinal, MaxOrdinal(entries)), entries)
  }

  function NormalizeFile(f: File): Result<File> {
    if f.version != 0 && f.version != CURRENT_VERSION then Failure("unsupported cmux mapping version")
    else Success(File(CURRENT_VERSION, map id | id in f.workspaces :: NormalizeWorkspace(f.workspaces[id])))
  }

  /** What every reader of a normalized workspace may rely on. */
  ghost predicate WellNumbered(ws: WorkspaceMapping) {
    && (forall e :: e in ws.entries ==> 1 <= e.ordinal < ws.nextOrdinal)
    && 1 <= ws.nextOrdinal
  }

  function RuntimeIds(s: seq<Entry>): (r: seq<string>)
    ensures |r| == |s| && forall i :: 0 <= i < |s| ==> r[i] == s[i].cmuxId
  {
    seq(|s|, i requires 0 <= i < |s| => s[i].cmuxId)
  }

  lemma {:induction false} InsertKeepsIds(x: Entry, s: seq<Entry>)
    ensures multiset(RuntimeIds(InsertBy(x, s, EntryLe))) == multiset([x.cmuxId]) + multiset(RuntimeIds(s))
  {
    var r := InsertBy(x, s, EntryLe);
    if s == [] {
      assert RuntimeIds(r) == [x.cmuxId];
    } else if EntryLe(x, s[0]) {
      assert RuntimeIds(r) == [x.cmuxId] + RuntimeIds(s);
    } else {
      InsertKeepsIds(x, s[1..]);
      assert RuntimeIds(r) == [s[0].cmuxId] + RuntimeIds(InsertBy(x, s[1..], EntryLe));
      assert RuntimeIds(s) == [s[0].cmuxId] + RuntimeIds(s[1..]);
    }
  }

  lemma {:induction false} SortKeepsIds(s: seq<Entry>)
    ensures multiset(RuntimeIds(SortBy(s, EntryLe))) == multiset(RuntimeIds(s))
  {
    if s != [] {
      SortKeepsIds(s[1..]);
      InsertKeepsIds(s[0], SortBy(s[1..], EntryLe));
      assert RuntimeIds(s) == [s[0].cmuxId] + RuntimeIds(s[1..]);
    }
  }

  /** Normalization numbers every entry from one, keeps the next ordinal above all of them,
      and neither adds, drops nor moves a runtime workspace id. */
  lemma {:induction false} NormalizeEstablishes(ws: WorkspaceMapping)
    ensures WellNumbered(NormalizeWorkspace(ws))
    ensures multiset(RuntimeIds(NormalizeWorkspace(ws).entries)) == multiset(RuntimeIds(ws.entries))
    ensures NormalizeWorkspace(ws).nextOrdinal >= ws.nextOrdinal
  {
    var sorted := SortBy(ws.entries, EntryLe);
    SortKeepsIds(ws.entries);
    MaxOrdinalIsMax(Renumber(sorted));
    assert RuntimeIds(Renumber(sorted)) == RuntimeIds(sorted);
  }

  /** The entries in order, each with its ordinal or, if that is below one, its one-based position. */
  ghost predicate Numbers(s: seq<Entry>, entries: seq<Entry>) {
    && Sorted(s, EntryLe) && |entries| == |s|
    && forall i :: 0 <= i < |s| ==> entries[i] == s[i].(ordinal := if s[i].ordinal >= 1 then s[i].ordinal else i + 1)
  }

  /** A next ordinal: at least one, above every ordinal, and not below the one before. */
  ghost predicate CanBeNext(x: int, ws: WorkspaceMapping, entries: seq<Entry>) {
    x >= 1 && x >= ws.nextOrdinal && forall e :: e in entries ==> e.ordinal < x
  }

  /** Normalization sorts and numbers the entries and changes nothing else of them; the next ordinal is the
      least that it can be. */
  lemma {:induction false} NormalizeMeans(ws: WorkspaceMapping)
    ensures var n := NormalizeWorkspace(ws);
            && (exists s :: multiset(s) == multiset(ws.entries) && Numbers(s, n.entries))
            && CanBeNext(n.nextOrdinal, ws, n.entries)
            && forall x :: CanBeNext(x, ws, n.entries) ==> n.nextOrdinal <= x
  {
    var s := SortBy(ws.entries, EntryLe);
    SortMultiset(ws.entries, EntryLe);
    SortedIsNumbered(ws.entries);
    MaxOrdinalIsMax(Renumber(s));
  }

  lemma {:induction false} SortedIsNumbered(entries: seq<Entry>)
    ensures Numbers(SortBy(entries, EntryLe), Renumber(SortBy(entries, EntryLe)))
  {
    EntryLeIsTotalPreorder();
    SortSorted(entries, EntryLe);
  }

  /** How many entries of a sorted list normalization has to renumber. */
  function Unnumbered(s: seq<Entry>): (k: nat)
    requires Sorted(s, EntryLe)
    ensures k <= |s|
    ensures forall i :: 0 <= i < k ==> s[i].ordinal < 1
    ensures forall i :: k <= i < |s| ==> s[i].ordinal >= 1
  {
    if s == [] || s[0].ordinal >= 1 then 0
    else
      var k := Unnumbered(s[1..]);
      assert forall i :: 0 < i < |s| ==> s[i] == s[1..][i - 1];
      1 + k
  }

  /** The renumbered block ends at or below the first entry that kept its ordinal. */
  ghost predicate JoinsInOrder(entries: seq<Entry>) {
    EntryLeIsTotalPreorder();
    SortSorted(entries, EntryLe);
    var s := SortBy(entries, EntryLe);
    var k := Unnumbered(s);
    0 < k < |s| ==> EntryLe(s[k - 1].(ordinal := k), s[k])
  }

  lemma {:induction false} EntryLeTrans(a: Entry, b: Entry, c: Entry)
    requires EntryLe(a, b) && EntryLe(b, c)
    ensures EntryLe(a, c)
  {
    if a.ordinal == b.ordinal == c.ordinal { StrLeTrans(a.cmuxId, b.cmuxId, c.cmuxId); }
  }

  /** A renumbered entry and a kept one, given that the two blocks join in order. */
  lemma {:induction false} AcrossTheJoin(s: seq<Entry>, k: nat, i: nat, j: nat)
    requires i < k <= j < |s| && (forall n :: 0 <= n < k ==> s[n].ordinal < 1)
    requires EntryLe(s[k - 1].(ordinal := k), s[k]) && (k < j ==> EntryLe(s[k], s[j]))
    ensures EntryLe(Renumbered(s[i], i), s[j])
  {
    var first, last := Renumbered(s[i], i), s[k - 1].(ordinal := k);
    assert first.ordinal == i + 1;
    if i < k - 1 {
      assert EntryLe(first, last);
      EntryLeTrans(first, last, s[k]);
    }
    if k < j { EntryLeTrans(first, s[k], s[j]); }
  }

  /** Renumbered entries before the join, kept ones after it, and the join itself. */
  lemma {:induction false} RenumberedPair(s: seq<Entry>, k: nat, i: nat, j: nat)
    requires Sorted(s, EntryLe) && k == Unnumbered(s) && i < j < |s|
    requires 0 < k < |s| ==> EntryLe(s[k - 1].(ordinal := k), s[k])
    ensures EntryLe(Renumber(s)[i], Renumber(s)[j])
  {
    var r := Renumber(s);
    if j < k {
      assert r[i].ordinal == i + 1 && r[j].ordinal == j + 1;
    } else if k <= i {
      assert r[i] == s[i] && r[j] == s[j];
    } else {
      assert r[j] == s[j];
      AcrossTheJoin(s, k, i, j);
    }
  }

  lemma {:induction false} RenumberSortedIff(entries: seq<Entry>)
    ensures Sorted(Renumber(SortBy(entries, EntryLe)), EntryLe) <==> JoinsInOrder(entries)
  {
    EntryLeIsTotalPreorder();
    SortSorted(entries, EntryLe);
    var s := SortBy(entries, EntryLe);
    var k, r := Unnumbered(s), Renumber(s);
    if JoinsInOrder(entries) {
      forall i, j | 0 <= i < j < |r| ensures EntryLe(r[i], r[j]) { RenumberedPair(s, k, i, j); }
    } else {
      assert r[k - 1] == s[k - 1].(ordinal := k) && r[k] == s[k];
    }
  }

  /** A second pass only sorts. */
  lemma {:induction false} NormalizeAgain(ws: WorkspaceMapping)
    requires WellNumbered(ws)
    ensures NormalizeWorkspace(ws) == ws.(entries := SortBy(ws.entries, EntryLe))
  {
    var s := SortBy(ws.entries, EntryLe);
    SortMembers(ws.entries, EntryLe);
    assert forall i :: 0 <= i < |s| ==> s[i] in ws.entries;
    assert Renumber(s) == s;
    MaxOrdinalIsMax(s);
  }

  /** Normalizing twice is normalizing once exactly when the renumbered entries join the kept ones in order. */
  lemma {:induction false} NormalizeIdempotentIff(ws: WorkspaceMapping)
    ensures NormalizeWorkspace(NormalizeWorkspace(ws)) == NormalizeWorkspace(ws) <==> JoinsInOrder(ws.entries)
  {
    var once := NormalizeWorkspace(ws);
    NormalizeEstablishes(ws);
    NormalizeAgain(once);
    RenumberSortedIff(ws.entries);
    EntryLeIsTotalPreorder();
    SortSorted(once.entries, EntryLe);
    if JoinsInOrder(ws.entries) {
      SortOfSorted(once.entries, EntryLe);
    }
  }

  /** A workspace that normalization leaves alone. */
  ghost predicate Tidy(ws: WorkspaceMapping) {
    WellNumbered(ws) && Sorted(ws.entries, EntryLe)
  }

  lemma {:induction false} TidyIffFixed(ws: WorkspaceMapping)
    ensures Tidy(ws) <==> NormalizeWorkspace(ws) == ws
  {
    if Tidy(ws) {
      NormalizeAgain(ws);
      SortOfSorted(ws.entries, EntryLe);
    } else if NormalizeWorkspace(ws) == ws {
      NormalizeEstablishes(ws);
      NormalizeAgain(ws);
      EntryLeIsTotalPreorder();
      SortSorted(ws.entries, EntryLe);
    }
  }

  /** Files whose ordinals are already one or more are in that case. */
  lemma {:induction false} NumberedFilesAreIdempotent(ws: WorkspaceMapping)
    requires forall e :: e in ws.entries ==> e.ordinal >= 1
    ensures NormalizeWorkspace(NormalizeWorkspace(ws)) == NormalizeWorkspace(ws)
  {
    NormalizeIdempotentIff(ws);
    SortMembers(ws.entries, EntryLe);
    EntryLeIsTotalPreorder();
    SortSorted(ws.entries, EntryLe);
    var s := SortBy(ws.entries, EntryLe);
    var k := Unnumbered(s);
    if k > 0 { assert s[0] in s; }
  }

  /** Ordinals 0, 0, 1: one pass leaves 1, 2, 1, which the next pass reorders. */
  lemma {:induction false} NormalizeNotIdempotentExample()
    ensures var ws := WorkspaceMapping(0, [Entry("a", 0, "", "", ""), Entry("b", 0, "", "", ""),
        Entry("c", 1, "", "", "")]);
            NormalizeWorkspace(NormalizeWorkspace(ws)) != NormalizeWorkspace(ws)
  {
    var a, b, c := Entry("a", 0, "", "", ""), Entry("b", 0, "", "", ""), Entry("c", 1, "", "", "");
    var ws := WorkspaceMapping(0, [a, b, c]);
    assert Sorted([a, b, c], EntryLe);
    SortOfSorted([a, b, c], EntryLe);
    var s := [a, b, c];
    EntryLeIsTotalPreorder();
    assert Unnumbered(s) == 2;
    assert s[1].(ordinal := 2).ordinal > s[2].ordinal;
    NormalizeIdempotentIff(ws);
  }

  // ----- Ordinal allocation -----

  /** The file is normalized even when the id is then rejected. */
  function Allocate(f: File, rawId: string): (Result<int>, File) {
    match NormalizeFile(f)
    case Failure(e) => (Failure(e), f)
    case Success(n) =>
      var id := Trim(rawId);
      if id == "" then (Failure("workspace id is required"), n)
      else
        var ws := Lookup(n, id);
        var ordinal := if ws.nextOrdinal < 1 then 1 else ws.nextOrdinal;
        (Success(ordinal), n.(workspaces := n.workspaces[id := ws.(nextOrdinal := ordinal + 1)]))
  }

  ghost predicate WellFormed(f: File) {
    f.version == CURRENT_VERSION && forall id :: id in f.workspaces ==> WellNumbered(f.workspaces[id])
  }

  lemma {:induction false} NextExceedsEntries(ws: WorkspaceMapping)
    ensures forall e :: e in ws.entries ==> e.ordinal < NormalizeWorkspace(ws).nextOrdinal
  {
    NormalizeEstablishes(ws);
    SortMembers(ws.entries, EntryLe);
    var s := SortBy(ws.entries, EntryLe);
    forall e | e in ws.entries ensures e.ordinal < NormalizeWorkspace(ws).nextOrdinal {
      var i :| 0 <= i < |s| && s[i] == e;
      assert Renumber(s)[i] in Renumber(s);
    }
  }

  lemma {:induction false} NormalizeFileEstablishes(f: File)
    requires f.version == 0 || f.version == CURRENT_VERSION
    ensures NormalizeFile(f).Success? && WellFormed(NormalizeFile(f).value)
    ensures forall id :: Lookup(NormalizeFile(f).value, id).nextOrdinal >= Lookup(f, id).nextOrdinal
    ensures forall id, e :: e in Lookup(f, id).entries ==> e.ordinal < Lookup(NormalizeFile(f).value, id).nextOrdinal
  {
    forall id | id in f.workspaces
      ensures WellNumbered(NormalizeWorkspace(f.workspaces[id]))
      ensures NormalizeWorkspace(f.workspaces[id]).nextOrdinal >= f.workspaces[id].nextOrdinal
      ensures forall e :: e in f.workspaces[id].entries ==> e.ordinal < NormalizeWorkspace(f.workspaces[id]).nextOrdinal
    {
      NormalizeEstablishes(f.workspaces[id]);
      NextExceedsEntries(f.workspaces[id]);
    }
  }

  /** One allocation: the new ordinal is above every ordinal the workspace had before and has after;
      other workspaces only get normalized. */
  lemma {:induction false} AllocateEstablishes(f: File, rawId: string)
    requires f.version == 0 || f.version == CURRENT_VERSION
    ensures WellFormed(Allocate(f, rawId).1)
    ensures Allocate(f, rawId).0.Success? <==> Trim(rawId) != ""
    ensures var (r, g) := Allocate(f, rawId);
            var id := Trim(rawId);
            r.Success? ==>
              && r.value >= 1
              && r.value >= Lookup(f, id).nextOrdinal
              && Lookup(g, id).nextOrdinal == r.value + 1
              && (forall e :: e in Lookup(f, id).entries + Lookup(g, id).entries ==> e.ordinal < r.value)
    ensures forall id :: id == "" || id != Trim(rawId) ==>
              Lookup(Allocate(f, rawId).1, id) == Lookup(NormalizeFile(f).value, id)
  {
    NormalizeFileEstablishes(f);
    var n := NormalizeFile(f).value;
    var id := Trim(rawId);
    if id in n.workspaces { assert WellNumbered(n.workspaces[id]); }
  }

  /** The ordinals handed out by a run of allocations, failures included. */
  function AllocateAll(f: File, ids: seq<string>): (rs: seq<Result<int>>)
    ensures |rs| == |ids|
    decreases |ids|
  {
    if ids == [] then []
    else
      var (r, g) := Allocate(f, ids[0]);
      [r] + AllocateAll(g, ids[1..])
  }

  lemma {:induction false} AllocationsStayAbove(f: File, ids: seq<string>, id: string, floor: int)
    requires f.version == 0 || f.version == CURRENT_VERSION
    requires floor <= Lookup(f, id).nextOrdinal || floor <= 1
    ensures forall i :: 0 <= i < |ids| && Trim(ids[i]) == id != "" ==>
              AllocateAll(f, ids)[i].Success? && AllocateAll(f, ids)[i].value >= floor
    decreases |ids|
  {
    if ids != [] {
      NormalizeFileEstablishes(f);
      AllocateEstablishes(f, ids[0]);
      AllocationsStayAbove(Allocate(f, ids[0]).1, ids[1..], id, floor);
    }
  }

  /** Over any run of allocations, the ordinals of one workspace exceed those present at the start... */
  lemma {:induction false} AllocationsExceedStart(f: File, ids: seq<string>, id: string, e: Entry)
    requires f.version == 0 || f.version == CURRENT_VERSION
    requires e in Lookup(f, id).entries
    ensures forall i :: 0 <= i < |ids| && Trim(ids[i]) == id != "" ==>
              AllocateAll(f, ids)[i].Success? && e.ordinal < AllocateAll(f, ids)[i].value
  {
    if ids != [] {
      FirstAllocationExceedsStart(f, ids[0], id, e);
      AllocationsStayAbove(Allocate(f, ids[0]).1, ids[1..], id, e.ordinal + 1);
    }
  }

  lemma {:induction false} FirstAllocationExceedsStart(f: File, rawId: string, id: string, e: Entry)
    requires f.version == 0 || f.version == CURRENT_VERSION
    requires e in Lookup(f, id).entries
    ensures e.ordinal < Lookup(Allocate(f, rawId).1, id).nextOrdinal
    ensures Trim(rawId) == id != "" ==> Allocate(f, rawId).0.Success? && e.ordinal < Allocate(f, rawId).0.value
    ensures Allocate(f, rawId).1.version == CURRENT_VERSION
  {
    NormalizeFileEstablishes(f);
    AllocateEstablishes(f, rawId);
  }

  /** What the first allocation gives, and that the later ones for the same workspace exceed it. */
  lemma {:induction false} AfterFirst(f: File, ids: seq<string>)
    requires ids != [] && (f.version == 0 || f.version == CURRENT_VERSION)
    ensures var (r, g) := Allocate(f, ids[0]);
            && AllocateAll(f, ids) == [r] + AllocateAll(g, ids[1..]) && g.version == CURRENT_VERSION
            && (Trim(ids[0]) != "" ==>
                  && r.Success?
                  && forall i :: 0 <= i < |ids| - 1 && Trim(ids[1..][i]) == Trim(ids[0]) ==>
                       AllocateAll(g, ids[1..])[i].Success? && AllocateAll(g, ids[1..])[i].value > r.value)
  {
    var (r, g) := Allocate(f, ids[0]);
    AllocateEstablishes(f, ids[0]);
    if Trim(ids[0]) != "" { AllocationsStayAbove(g, ids[1..], Trim(ids[0]), r.value + 1); }
  }

  /** ... and strictly increase. */
  lemma {:induction false} AllocationsIncrease(f: File, ids: seq<string>, i: nat, j: nat)
    requires f.version == 0 || f.version == CURRENT_VERSION
    requires i < j < |ids| && Trim(ids[i]) == Trim(ids[j]) != ""
    ensures AllocateAll(f, ids)[i].Success? && AllocateAll(f, ids)[j].Success?
    ensures AllocateAll(f, ids)[i].value < AllocateAll(f, ids)[j].value
    decreases |ids|
  {
    AfterFirst(f, ids);
    var (r, g) := Allocate(f, ids[0]);
    var all, rest := AllocateAll(f, ids), AllocateAll(g, ids[1..]);
    assert all[j] == rest[j - 1] && ids[j] == ids[1..][j - 1];
    if i > 0 {
      assert all[i] == rest[i - 1] && ids[i] == ids[1..][i - 1];
      AllocationsIncrease(g, ids[1..], i - 1, j - 1);
    } else {
      assert all[0] == r && Trim(ids[1..][j - 1]) == Trim(ids[0]);
    }
  }

  function FormatWorkspaceTitle(rawId: string, rawTitle: string): Result<string> {
    var id := Trim(rawId);
    if id == "" then Failure("workspace id is required")
    else
      var title := Trim(rawTitle);
      Success(id + " | " + (if title == "" then UNTITLED_WORKSPACE else title))
  }

  // ----- The file as the program updates it -----

  /** The inner loop of normalize: positions replace missing ordinals, and the largest ordinal is tracked. */
  method NumberEntries(sorted: seq<Entry>) returns (entries: seq<Entry>, maxOrdinal: int)
    ensures entries == Renumber(sorted)
    ensures maxOrdinal == MaxOrdinal(entries)
  {
    entries, maxOrdinal := sorted, 0;
    var i := 0;
    while i < |entries|
      invariant 0 <= i <= |entries| == |sorted|
      invariant forall k :: 0 <= k < i ==> entries[k] == Renumbered(sorted[k], k)
      invariant forall k :: i <= k < |sorted| ==> entries[k] == sorted[k]
      invariant maxOrdinal == MaxOrdinal(entries[..i])
    {
      ghost var before := entries[..i];
      if entries[i].ordinal < 1 {
        entries := entries[i := entries[i].(ordinal := i + 1)];
      }
      if entries[i].ordinal > maxOrdinal {
        maxOrdinal := entries[i].ordinal;
      }
      i := i + 1;
      assert entries[..i][..i - 1] == before;
    }
    assert entries[..i] == entries;
  }

  method NormalizeOne(ws: WorkspaceMapping) returns (r: WorkspaceMapping)
    ensures r == NormalizeWorkspace(ws)
  {
    var entries, maxOrdinal := NumberEntries(SortBy(ws.entries, EntryLe));
    var next := ws.nextOrdinal;
    if next < 1 {
      next := 1;
    }
    if next <= maxOrdinal {
      next := maxOrdinal + 1;
    }
    r := WorkspaceMapping(next, entries);
  }

  function NormalizeAllBut(m: map<string, WorkspaceMapping>, todo: set<string>): map<string, WorkspaceMapping> {
    map id | id in m :: if id in todo then m[id] else NormalizeWorkspace(m[id])
  }

  lemma {:induction false} NormalizeAllButStep(m: map<string, WorkspaceMapping>, todo: set<string>, id: string)
    requires id in todo && id in m
    ensures NormalizeAllBut(m, todo)[id] == m[id]
    ensures NormalizeAllBut(m, todo - {id}) == NormalizeAllBut(m, todo)[id := NormalizeWorkspace(m[id])]
  {
  }

  /** The loop of normalize over the file's workspaces, in any order. */
  method NormalizeEach(m: map<string, WorkspaceMapping>) returns (r: map<string, WorkspaceMapping>)
    ensures r == NormalizeAllBut(m, {})
  {
    r := m;
    var todo := m.Keys;
    while todo != {}
      invariant todo <= m.Keys
      invariant r == NormalizeAllBut(m, todo)
      decreases |todo|
    {
      var id :| id in todo;
      NormalizeAllButStep(m, todo, id);
      var ws := NormalizeOne(r[id]);
      r := r[id := ws];
      todo := todo - {id};
    }
  }

  class MappingFile {
    var version: int
    var workspaces: map<string, WorkspaceMapping>

    constructor (f: File)
      ensures View() == f
    {
      version := f.version;
      workspaces := f.workspaces;
    }

    ghost function View(): File
      reads this
    {
      File(version, workspaces)
    }

    method Normalize() returns (r: Result<()>)
      modifies this
      ensures r.Success? <==> NormalizeFile(old(View())).Success?
      ensures View() == if r.Success? then NormalizeFile(old(View())).value else old(View())
    {
      if version == 0 {
        version := CURRENT_VERSION;
      }
      if version != CURRENT_VERSION {
        return Failure("unsupported cmux mapping version");
      }
      workspaces := NormalizeEach(workspaces);
      return Success(());
    }

    method AllocateOrdinal(rawId: string) returns (r: Result<int>)
      modifies this
      ensures (r, View()) == Allocate(old(View()), rawId)
    {
      var normalized := Normalize();
      if normalized.Failure? {
        return Failure("unsupported cmux mapping version");
      }
      var id := Trim(rawId);
      if id == "" {
        return Failure("workspace id is required");
      }
      var ws := if id in workspaces then workspaces[id] else UNMAPPED;
      if ws.nextOrdinal < 1 {
        ws := ws.(nextOrdinal := 1);
      }
      var ordinal := ws.nextOrdinal;
      workspaces := workspaces[id := ws.(nextOrdinal := ordinal + 1)];
      return Success(ordinal);
    }
  }
}
