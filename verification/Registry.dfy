/** The registry of roots and their context names (internal/stateregistry/registry.go). */
module Registry {
  import opened Text
  import opened Sorting
  import opened Folds

  datatype Entry = Entry(name: string, root: string, firstSeen: int, lastUsed: int)

  /** The updates; roots are cleaned absolute paths and times are unix seconds. */
  datatype Op =
    | Touch(root: string, now: int)
    | SetName(root: string, name: string, now: int)
    | Rename(oldName: string, newName: string, now: int)
    | Remove(name: string)

  predicate RootLe(a: Entry, b: Entry) {
    StrLe(a.root, b.root)
  }

  lemma {:induction false} RootLeIsTotalPreorder()
    ensures TotalPreorder(RootLe)
  {
    forall a: Entry, b: Entry ensures RootLe(a, b) || RootLe(b, a) { StrLeTotal(a.root, b.root); }
    forall a: Entry, b: Entry, c: Entry | RootLe(a, b) && RootLe(b, c) ensures RootLe(a, c) {
      StrLeTrans(a.root, b.root, c.root);
    }
  }

  /** The position of the first entry from k on that satisfies the test, or the length. */
  function Find(s: seq<Entry>, test: Entry -> bool, k: nat): (i: nat)
    requires k <= |s|
    ensures k <= i <= |s|
    ensures i < |s| ==> test(s[i])
    ensures forall j :: k <= j < i ==> !test(s[j])
    decreases |s| - k
  {
    if k == |s| || test(s[k]) then k else Find(s, test, k + 1)
  }

  function FindRoot(s: seq<Entry>, root: string): nat {
    Find(s, (e: Entry) => e.root == root, 0)
  }

  function FindName(s: seq<Entry>, name: string): nat {
    Find(s, (e: Entry) => Trim(e.name) == name, 0)
  }

  function Seen(e: Entry, now: int): Entry {
    e.(firstSeen := if e.firstSeen <= 0 then now else e.firstSeen, lastUsed := if e.lastUsed < now then now
        else e.lastUsed)
  }

  function Used(e: Entry, now: int): Entry {
    e.(lastUsed := if e.lastUsed < now then now else e.lastUsed)
  }

  /** The name is carried by an entry other than the one at position i. */
  predicate TakenElsewhere(s: seq<Entry>, name: string, i: nat) {
    exists j :: 0 <= j < |s| && j != i && Trim(s[j].name) == name
  }

  /** One update: the answer for the caller and the new list. A refused update leaves the list alone. */
  function Apply(s: seq<Entry>, op: Op): (Result<string>, seq<Entry>) {
    match op
    case Touch(root, now) =>
      var i := FindRoot(s, root);
      (Success(root), SortBy(if i < |s| then s[i := Seen(s[i], now)] else s + [Entry("", root, now, now)], RootLe))
    case SetName(root, rawName, now) =>
      var name := Trim(rawName);
      var i := FindRoot(s, root);
      if name == "" then (Failure("context name is required"), s)
      else if TakenElsewhere(s, name, i) then (Failure("context name already exists"), s)
      else
        (Success(root),
         SortBy(if i < |s| then s[i := Seen(s[i], now).(name := name)] else s + [Entry(name, root, now, now)], RootLe))
    case Rename(rawOld, rawNew, now) =>
      var oldName, newName := Trim(rawOld), Trim(rawNew);
      var i := FindName(s, oldName);
      if oldName == "" || newName == "" then (Failure("old and new context names are required"), s)
      else if oldName == newName then (Failure("new context name must be different"), s)
      else if i == |s| then (Failure("context not found"), s)
      else if TakenElsewhere(s, newName, i) then (Failure("context name already exists"), s)
      else
        var sorted := SortBy(s[i := Used(s[i], now).(name := newName)], RootLe);
        (Success(sorted[i].root), sorted)
    case Remove(rawName) =>
      var name := Trim(rawName);
      var i := FindName(s, name);
      if name == "" then (Failure("context name is required"), s)
      else if i == |s| then (Failure("context not found"), s)
      else (Success(s[i].root), s[..i] + s[i + 1..])
  }

  function ResolveRoot(s: seq<Entry>, name: string): Option<string> {
    var i := FindName(s, name);
    if i < |s| then Some(s[i].root) else None
  }

  function ResolveName(s: seq<Entry>, root: string): Option<string> {
    var i := FindRoot(s, root);
    if i < |s| && Trim(s[i].name) != "" then Some(Trim(s[i].name)) else None
  }

  // ----- The invariant -----

  ghost predicate StrictlySorted(s: seq<Entry>) {
    forall i, j :: 0 <= i < j < |s| ==> StrLe(s[i].root, s[j].root) && s[i].root != s[j].root
  }

  ghost predicate UniqueNames(s: seq<Entry>) {
    forall i, j :: 0 <= i < j < |s| && Trim(s[i].name) != "" ==> Trim(s[i].name) != Trim(s[j].name)
  }

  ghost predicate Valid(s: seq<Entry>) {
    StrictlySorted(s) && UniqueNames(s)
  }

  lemma {:induction false} UpdateStaysSorted(s: seq<Entry>, i: nat, e: Entry)
    requires StrictlySorted(s) && i < |s| && e.root == s[i].root
    ensures SortBy(s[i := e], RootLe) == s[i := e] && StrictlySorted(s[i := e])
  {
    SortOfSorted(s[i := e], RootLe);
  }

  lemma {:induction false} UpdateStaysUnique(s: seq<Entry>, i: nat, e: Entry)
    requires UniqueNames(s) && i < |s| && (Trim(e.name) == Trim(s[i].name) || !TakenElsewhere(s, Trim(e.name), i))
    ensures UniqueNames(s[i := e])
  {
    var t := s[i := e];
    forall j, k | 0 <= j < k < |t| && Trim(t[j].name) != "" ensures Trim(t[j].name) != Trim(t[k].name) {
      if j == i && Trim(e.name) != Trim(s[i].name) { assert Trim(s[k].name) != Trim(e.name); }
      if k == i && Trim(e.name) != Trim(s[i].name) { assert Trim(s[j].name) != Trim(e.name); }
    }
  }

  ghost predicate DistinctRoots(u: seq<Entry>) {
    forall a, b :: 0 <= a < b < |u| ==> u[a].root != u[b].root
  }

  lemma {:induction false} SortedByRoot(u: seq<Entry>, i: nat, j: nat)
    requires i < j < |u|
    ensures StrLe(SortBy(u, RootLe)[i].root, SortBy(u, RootLe)[j].root)
  {
    RootLeIsTotalPreorder();
    SortSorted(u, RootLe);
    assert RootLe(SortBy(u, RootLe)[i], SortBy(u, RootLe)[j]);
  }

  /** Different places of the sorted list hold different members of the list. */
  lemma {:induction false} DifferentMembers(u: seq<Entry>, i: nat, j: nat)
    requires DistinctRoots(u) && i < j < |u|
    ensures var t := SortBy(u, RootLe); t[i] in u && t[j] in u && t[i] != t[j]
  {
    var t := SortBy(u, RootLe);
    SortMembers(u, RootLe);
    assert t[i] in t && t[j] in t;
    SortDistinct(u, RootLe, i, j);
  }

  lemma {:induction false} RootsStayDistinct(u: seq<Entry>, i: nat, j: nat)
    requires DistinctRoots(u) && i < j < |u|
    ensures SortBy(u, RootLe)[i].root != SortBy(u, RootLe)[j].root
  {
    var t := SortBy(u, RootLe);
    DifferentMembers(u, i, j);
    if t[i].root == t[j].root { OneEntryPerRoot(u, t[i], t[j]); }
  }

  lemma {:induction false} SortedStrictly(u: seq<Entry>)
    requires DistinctRoots(u)
    ensures StrictlySorted(SortBy(u, RootLe))
  {
    var t := SortBy(u, RootLe);
    forall i, j | 0 <= i < j < |t| ensures StrLe(t[i].root, t[j].root) && t[i].root != t[j].root {
      SortedByRoot(u, i, j);
      RootsStayDistinct(u, i, j);
    }
  }

  lemma {:induction false} OneEntryPerRoot(s: seq<Entry>, a: Entry, b: Entry)
    requires DistinctRoots(s) && a in s && b in s && a.root == b.root
    ensures a == b
  {
    var i :| 0 <= i < |s| && s[i] == a;
    var j :| 0 <= j < |s| && s[j] == b;
    assert i == j;
  }

  /** Two different members of a list with unique names have different names. */
  lemma {:induction false} OneEntryPerName(s: seq<Entry>, a: Entry, b: Entry)
    requires UniqueNames(s) && a in s && b in s && a != b && Trim(a.name) != ""
    ensures Trim(a.name) != Trim(b.name)
  {
    var i :| 0 <= i < |s| && s[i] == a;
    var j :| 0 <= j < |s| && s[j] == b;
    if j < i && Trim(b.name) != "" { assert Trim(s[j].name) != Trim(s[i].name); }
  }

  lemma {:induction false} AppendStaysUnique(s: seq<Entry>, e: Entry)
    requires UniqueNames(s) && (Trim(e.name) == "" || !TakenElsewhere(s, Trim(e.name), |s|))
    ensures UniqueNames(s + [e])
  {
    var t := s + [e];
    forall i, j | 0 <= i < j < |t| && Trim(t[i].name) != "" ensures Trim(t[i].name) != Trim(t[j].name) {
      assert t[i] == s[i];
    }
  }

  lemma {:induction false} SortedUnique(u: seq<Entry>)
    requires DistinctRoots(u) && UniqueNames(u)
    ensures UniqueNames(SortBy(u, RootLe))
  {
    var t := SortBy(u, RootLe);
    forall i, j | 0 <= i < j < |t| && Trim(t[i].name) != "" ensures Trim(t[i].name) != Trim(t[j].name) {
      DifferentMembers(u, i, j);
      OneEntryPerName(u, t[i], t[j]);
    }
  }

  lemma {:induction false} UpdateStaysValid(s: seq<Entry>, i: nat, e: Entry)
    requires Valid(s) && i < |s| && e.root == s[i].root
    requires Trim(e.name) == Trim(s[i].name) || !TakenElsewhere(s, Trim(e.name), i)
    ensures Valid(SortBy(s[i := e], RootLe))
  {
    UpdateStaysSorted(s, i, e);
    UpdateStaysUnique(s, i, e);
  }

  lemma {:induction false} InsertStaysValid(s: seq<Entry>, e: Entry)
    requires Valid(s) && (forall j :: 0 <= j < |s| ==> s[j].root != e.root)
    requires Trim(e.name) == "" || !TakenElsewhere(s, Trim(e.name), |s|)
    ensures Valid(SortBy(s + [e], RootLe))
  {
    assert DistinctRoots(s + [e]);
    SortedStrictly(s + [e]);
    AppendStaysUnique(s, e);
    SortedUnique(s + [e]);
  }

  lemma {:induction false} DeleteStaysValid(s: seq<Entry>, i: nat)
    requires Valid(s) && i < |s|
    ensures Valid(s[..i] + s[i + 1..])
  {
    var t := s[..i] + s[i + 1..];
    assert forall k :: 0 <= k < |t| ==> t[k] == if k < i then s[k] else s[k + 1];
  }

  lemma {:induction false} TouchKeepsValid(s: seq<Entry>, root: string, now: int)
    requires Valid(s)
    ensures Valid(Apply(s, Touch(root, now)).1)
  {
    var i := FindRoot(s, root);
    if i < |s| { UpdateStaysValid(s, i, Seen(s[i], now)); } else { InsertStaysValid(s, Entry("", root, now, now)); }
  }

  lemma {:induction false} SetNameKeepsValid(s: seq<Entry>, root: string, rawName: string, now: int)
    requires Valid(s)
    ensures Valid(Apply(s, SetName(root, rawName, now)).1)
  {
    var name, i := Trim(rawName), FindRoot(s, root);
    if name != "" && !TakenElsewhere(s, name, i) {
      TrimAgain(rawName);
      if i < |s| {
        UpdateStaysValid(s, i, Seen(s[i], now).(name := name));
      } else {
        InsertStaysValid(s, Entry(name, root, now, now));
      }
    }
  }

  lemma {:induction false} RenameKeepsValid(s: seq<Entry>, rawOld: string, rawNew: string, now: int)
    requires Valid(s)
    ensures Valid(Apply(s, Rename(rawOld, rawNew, now)).1)
  {
    var i, newName := FindName(s, Trim(rawOld)), Trim(rawNew);
    if i < |s| && !TakenElsewhere(s, newName, i) {
      TrimAgain(rawNew);
      UpdateStaysValid(s, i, Used(s[i], now).(name := newName));
    }
  }

  /** Every update keeps the list strictly sorted by root, with unique names. */
  lemma {:induction false} ApplyKeepsValid(s: seq<Entry>, op: Op)
    requires Valid(s)
    ensures Valid(Apply(s, op).1)
  {
    match op
    case Touch(root, now) => TouchKeepsValid(s, root, now);
    case SetName(root, rawName, now) => SetNameKeepsValid(s, root, rawName, now);
    case Rename(rawOld, rawNew, now) => RenameKeepsValid(s, rawOld, rawNew, now);
    case Remove(rawName) =>
      var i := FindName(s, Trim(rawName));
      if i < |s| { DeleteStaysValid(s, i); }
  }

  lemma {:induction false} TrimAgain(s: string)
    ensures Trim(Trim(s)) == Trim(s)
  {
    TrimIsTrimmed(s);
    TrimOfTrimmed(Trim(s));
  }

  function Step(s: seq<Entry>, op: Op): seq<Entry> {
    Apply(s, op).1
  }

  /** The lists of a run of updates from an empty file. */
  function Lists(ops: seq<Op>): (r: seq<seq<Entry>>)
    ensures |r| == |ops| + 1
  {
    Trace(Step, [], ops)
  }

  /** Every registry reachable from an empty file is valid. */
  lemma {:induction false} ReachableIsValid(ops: seq<Op>, n: nat)
    requires n <= |ops|
    ensures Valid(Lists(ops)[n])
  {
    forall s, op | Valid(s) ensures Valid(Step(s, op)) { ApplyKeepsValid(s, op); }
    TraceKeeps(Step, [], ops, Valid, n);
  }

  /** In a valid registry looking a name up and looking a root up are inverse. */
  lemma {:induction false} LookupsAreInverse(s: seq<Entry>, name: string, root: string)
    requires Valid(s) && name != ""
    ensures ResolveRoot(s, name) == Some(root) <==> ResolveName(s, root) == Some(name)
  {
    var i, j := FindName(s, name), FindRoot(s, root);
    if i < |s| && s[i].root == root { assert i == j; }
    if j < |s| && Trim(s[j].name) == name { assert i == j; }
  }

  /** Rename reads the root after sorting again, and still answers the root that carried the old name,
      which then carries the new one. */
  lemma {:induction false} RenameAnswersTheRoot(s: seq<Entry>, rawOld: string, rawNew: string, now: int)
    requires Valid(s)
    ensures var (r, t) := Apply(s, Rename(rawOld, rawNew, now));
            r.Success? ==>
              && ResolveRoot(s, Trim(rawOld)) == Some(r.value)
              && ResolveRoot(t, Trim(rawNew)) == Some(r.value)
              && ResolveRoot(t, Trim(rawOld)) == None
  {
    var oldName, newName := Trim(rawOld), Trim(rawNew);
    var i := FindName(s, oldName);
    if Apply(s, Rename(rawOld, rawNew, now)).0.Success? {
      var e := Used(s[i], now).(name := newName);
      UpdateStaysSorted(s, i, e);
      TrimAgain(rawNew);
      var t := s[i := e];
      assert Apply(s, Rename(rawOld, rawNew, now)).1 == t;
      assert Trim(t[i].name) == newName;
      assert FindName(t, newName) == i;
      forall j | 0 <= j < |t| ensures Trim(t[j].name) != oldName {
        if j < i { assert Trim(s[j].name) != oldName; }
      }
    }
  }

  /** A name is accepted exactly if it is not blank and no other root carries it; the root then answers to
      it, used at that time or later, and keeps the time it was first seen. */
  lemma {:induction false} NamedIsRecorded(s: seq<Entry>, root: string, rawName: string, now: int)
    requires Valid(s)
    ensures var (r, t) := Apply(s, SetName(root, rawName, now));
            var name, i := Trim(rawName), FindRoot(t, root);
            && (r.Success? <==> name != "" && forall a :: a in s && a.root != root ==> Trim(a.name) != name)
            && (r.Failure? ==> t == s)
            && (r.Success? ==>
                  && r.value == root && ResolveRoot(t, name) == Some(root) && ResolveName(t, root) == Some(name)
                  && i < |t| && t[i].name == name && t[i].lastUsed >= now
                  && forall a :: a in s && a.root == root && a.firstSeen > 0 ==> t[i].firstSeen == a.firstSeen)
  {
    var (r, t) := Apply(s, SetName(root, rawName, now));
    var name, j := Trim(rawName), FindRoot(s, root);
    TakenByAnotherRoot(s, root, name);
    if r.Success? {
      ApplyKeepsValid(s, SetName(root, rawName, now));
      TrimAgain(rawName);
      var e := if j < |s| then Seen(s[j], now).(name := name) else Entry(name, root, now, now);
      var i := StoredAt(s, j, e);
      assert FindRoot(t, root) == i;
      LookupsAreInverse(t, name, root);
      forall a | a in s && a.root == root ensures j < |s| && a == s[j] {
        var k :| 0 <= k < |s| && s[k] == a;
        assert j <= k;
        OneEntryPerRoot(s, a, s[j]);
      }
    }
  }

  lemma {:induction false} TakenByAnotherRoot(s: seq<Entry>, root: string, name: string)
    requires Valid(s)
    ensures TakenElsewhere(s, name, FindRoot(s, root)) <==> exists a :: a in s && a.root != root && Trim(a.name) == name
  {
    var i := FindRoot(s, root);
    if TakenElsewhere(s, name, i) {
      var j :| 0 <= j < |s| && j != i && Trim(s[j].name) == name;
      assert s[j] in s && s[j].root != root;
    }
  }

  /** The entry that is written, in place or at the end, has a place in the sorted list. */
  lemma {:induction false} StoredAt(s: seq<Entry>, j: nat, e: Entry) returns (i: nat)
    requires Valid(s) && j <= |s| && (j < |s| ==> e.root == s[j].root)
    ensures var t := SortBy(if j < |s| then s[j := e] else s + [e], RootLe); i < |t| && t[i] == e
  {
    var u := if j < |s| then s[j := e] else s + [e];
    SortMembers(u, RootLe);
    assert u[j] == e;
    assert e in SortBy(u, RootLe);
    i :| 0 <= i < |SortBy(u, RootLe)| && SortBy(u, RootLe)[i] == e;
  }

  /** A name is given up exactly if some root carries it; that root is then no longer in the registry. */
  lemma {:induction false} RemovedIsForgotten(s: seq<Entry>, rawName: string)
    requires Valid(s)
    ensures var (r, t) := Apply(s, Remove(rawName));
            var name := Trim(rawName);
            && (r.Success? <==> name != "" && ResolveRoot(s, name).Some?)
            && (r.Failure? ==> t == s)
            && (r.Success? ==>
                  && ResolveRoot(s, name) == Some(r.value) && ResolveRoot(t, name) == None
                  && forall e :: e in t ==> e.root != r.value)
  {
    var (r, t) := Apply(s, Remove(rawName));
    if r.Success? {
      var i := FindName(s, Trim(rawName));
      forall k | 0 <= k < |t| ensures t[k].root != r.value && Trim(t[k].name) != Trim(rawName) {
        assert t[k] == s[if k < i then k else k + 1];
      }
    }
  }

  /** A name is changed exactly if some root carries the old one and none the new one. */
  lemma {:induction false} RenamesIff(s: seq<Entry>, rawOld: string, rawNew: string, now: int)
    requires Valid(s)
    ensures var (r, t) := Apply(s, Rename(rawOld, rawNew, now));
            && (r.Success? <==>
                  && Trim(rawOld) != "" && Trim(rawNew) != "" && Trim(rawOld) != Trim(rawNew)
                  && ResolveRoot(s, Trim(rawOld)).Some? && ResolveRoot(s, Trim(rawNew)).None?)
            && (r.Failure? ==> t == s)
  {
    var i := FindName(s, Trim(rawOld));
    if ResolveRoot(s, Trim(rawNew)).Some? && Trim(rawOld) != Trim(rawNew) {
      var j := FindName(s, Trim(rawNew));
      assert i < |s| ==> j != i;
    }
  }

  /** What an update leaves of the entry of a root: a surviving entry is never used less recently. */
  lemma {:induction false} LastUsedNeverDecreases(s: seq<Entry>, op: Op, a: Entry, b: Entry)
    requires Valid(s) && a in s && b in Apply(s, op).1 && a.root == b.root
    ensures a.lastUsed <= b.lastUsed
  {
    var t := Apply(s, op).1;
    match op
    case Touch(root, now) =>
      var i := FindRoot(s, root);
      if i < |s| {
        UpdateStaysSorted(s, i, Seen(s[i], now));
        SameOrUpdated(s, i, Seen(s[i], now), a, b);
      } else {
        AddedOrSame(s, Entry("", root, now, now), a, b);
      }
    case SetName(root, rawName, now) =>
      var name, i := Trim(rawName), FindRoot(s, root);
      if name == "" || TakenElsewhere(s, name, i) {
        OneEntryPerRoot(s, a, b);
      } else if i < |s| {
        UpdateStaysSorted(s, i, Seen(s[i], now).(name := name));
        SameOrUpdated(s, i, Seen(s[i], now).(name := name), a, b);
      } else {
        AddedOrSame(s, Entry(name, root, now, now), a, b);
      }
    case Rename(rawOld, rawNew, now) =>
      var i := FindName(s, Trim(rawOld));
      if Apply(s, op).0.Success? {
        UpdateStaysSorted(s, i, Used(s[i], now).(name := Trim(rawNew)));
        SameOrUpdated(s, i, Used(s[i], now).(name := Trim(rawNew)), a, b);
      } else {
        OneEntryPerRoot(s, a, b);
      }
    case Remove(_) =>
      assert b in s;
      OneEntryPerRoot(s, a, b);
  }

  ghost predicate HasRoot(s: seq<Entry>, root: string) {
    exists i :: 0 <= i < |s| && s[i].root == root
  }

  ghost predicate KeepsTimes(s: seq<Entry>, t: seq<Entry>) {
    forall a, b :: a in s && b in t && a.root == b.root ==> a.lastUsed <= b.lastUsed
  }

  lemma {:induction false} ApplyKeepsTimes(s: seq<Entry>, op: Op)
    requires Valid(s)
    ensures KeepsTimes(s, Apply(s, op).1)
  {
    forall a, b | a in s && b in Apply(s, op).1 && a.root == b.root ensures a.lastUsed <= b.lastUsed {
      LastUsedNeverDecreases(s, op, a, b);
    }
  }

  lemma {:induction false} RunKeepsTimes(ops: seq<Op>, n: nat)
    requires n < |ops|
    ensures KeepsTimes(Lists(ops)[n], Lists(ops)[n + 1])
  {
    forall s, op | Valid(s) ensures Valid(Step(s, op)) && KeepsTimes(s, Step(s, op)) {
      ApplyKeepsValid(s, op);
      ApplyKeepsTimes(s, op);
    }
    TraceRelates(Step, [], ops, Valid, KeepsTimes, n);
  }

  /** Lists that follow each other keep the times of a root that stays. */
  lemma {:induction false} TimesKept(lists: seq<seq<Entry>>, m: nat, n: nat, a: Entry, b: Entry)
    requires m <= n < |lists| && a in lists[m] && b in lists[n] && a.root == b.root
    requires forall k :: 0 <= k < |lists| ==> DistinctRoots(lists[k])
    requires forall k :: 0 < k < |lists| ==> KeepsTimes(lists[k - 1], lists[k])
    requires forall k :: m <= k <= n ==> HasRoot(lists[k], a.root)
    ensures a.lastUsed <= b.lastUsed
  {
    if m == n {
      OneEntryPerRoot(lists[n], a, b);
    } else {
      var s := lists[n - 1];
      assert HasRoot(s, a.root);
      var i :| 0 <= i < |s| && s[i].root == a.root;
      TimesKept(lists, m, n - 1, a, s[i]);
      assert KeepsTimes(lists[n - 1], lists[n]);
      assert s[i] in s;
    }
  }

  /** Over every run from an empty file, while a root stays in the registry its last-used time never decreases. */
  lemma {:induction false} LastUsedNeverDecreasesInRuns(ops: seq<Op>, m: nat, n: nat, a: Entry, b: Entry)
    requires m <= n <= |ops| && a in Lists(ops)[m] && b in Lists(ops)[n] && a.root == b.root
    requires forall k :: m <= k <= n ==> HasRoot(Lists(ops)[k], a.root)
    ensures a.lastUsed <= b.lastUsed
  {
    ListsKeepTimes(ops);
    TimesKept(Lists(ops), m, n, a, b);
  }

  lemma {:induction false} ListsKeepTimes(ops: seq<Op>)
    ensures forall k :: 0 <= k <= |ops| ==> DistinctRoots(Lists(ops)[k])
    ensures forall k :: 0 < k <= |ops| ==> KeepsTimes(Lists(ops)[k - 1], Lists(ops)[k])
  {
    forall k | 0 <= k <= |ops| ensures DistinctRoots(Lists(ops)[k]) { ReachableIsValid(ops, k); }
    forall k | 0 < k <= |ops| ensures KeepsTimes(Lists(ops)[k - 1], Lists(ops)[k]) { RunKeepsTimes(ops, k - 1); }
  }

  /** The root that a successful update is about: the one it answers. Entries of other roots neither change,
      appear nor disappear. */
  lemma {:induction false} OthersUnchanged(s: seq<Entry>, op: Op, e: Entry)
    requires Valid(s) && Apply(s, op).0.Success? && e.root != Apply(s, op).0.value
    ensures e in Apply(s, op).1 <==> e in s
  {
    match op
    case Touch(root, now) =>
      var i := FindRoot(s, root);
      if i < |s| { OthersAfterUpdate(s, i, Seen(s[i], now), e); }
          else { OthersAfterInsert(s, Entry("", root, now, now), e); }
    case SetName(root, rawName, now) =>
      var name, i := Trim(rawName), FindRoot(s, root);
      if i < |s| { OthersAfterUpdate(s, i, Seen(s[i], now).(name := name), e); }
          else { OthersAfterInsert(s, Entry(name, root, now, now), e); }
    case Rename(rawOld, rawNew, now) =>
      var i := FindName(s, Trim(rawOld));
      OthersAfterUpdate(s, i, Used(s[i], now).(name := Trim(rawNew)), e);
    case Remove(rawName) =>
      OthersAfterDelete(s, FindName(s, Trim(rawName)), e);
  }

  lemma {:induction false} OthersAfterUpdate(s: seq<Entry>, i: nat, e: Entry, other: Entry)
    requires Valid(s) && i < |s| && e.root == s[i].root
    ensures SortBy(s[i := e], RootLe)[i].root == s[i].root
    ensures other.root != s[i].root ==> (other in SortBy(s[i := e], RootLe) <==> other in s)
  {
    UpdateStaysSorted(s, i, e);
    if other in s && other.root != s[i].root {
      var j :| 0 <= j < |s| && s[j] == other;
      assert s[i := e][j] == other;
    }
  }

  lemma {:induction false} OthersAfterInsert(s: seq<Entry>, e: Entry, other: Entry)
    requires other.root != e.root
    ensures other in SortBy(s + [e], RootLe) <==> other in s
  {
    SortMembers(s + [e], RootLe);
  }

  lemma {:induction false} OthersAfterDelete(s: seq<Entry>, i: nat, other: Entry)
    requires i < |s| && other.root != s[i].root
    ensures other in s[..i] + s[i + 1..] <==> other in s
  {
    assert s == s[..i] + [s[i]] + s[i + 1..];
  }

  /** A touched root is in the registry, used at that time or later, and keeps a first-seen time and a
      name that it had. */
  lemma {:induction false} TouchedIsRecorded(s: seq<Entry>, root: string, now: int)
    requires Valid(s)
    ensures var t := Apply(s, Touch(root, now)).1;
            var i := FindRoot(t, root);
            && i < |t| && t[i].lastUsed >= now
            && (forall a :: a in s && a.root == root ==>
                t[i].name == a.name && (a.firstSeen > 0 ==> t[i].firstSeen == a.firstSeen))
            && ((forall a :: a in s ==> a.root != root) ==> t[i] == Entry("", root, now, now))
  {
    var t, j := Apply(s, Touch(root, now)).1, FindRoot(s, root);
    ApplyKeepsValid(s, Touch(root, now));
    if j < |s| {
      UpdateStaysSorted(s, j, Seen(s[j], now));
      assert t[j].root == root;
      assert FindRoot(t, root) == j;
      forall a | a in s && a.root == root ensures a == s[j] { OneEntryPerRoot(s, a, s[j]); }
    } else {
      var e := Entry("", root, now, now);
      SortMembers(s + [e], RootLe);
      assert e in s + [e];
      var k :| 0 <= k < |t| && t[k] == e;
      assert FindRoot(t, root) == k;
    }
  }

  lemma {:induction false} SameOrUpdated(s: seq<Entry>, i: nat, e: Entry, a: Entry, b: Entry)
    requires Valid(s) && i < |s| && e.root == s[i].root && a in s && b in s[i := e] && a.root == b.root
    ensures a == b || (a == s[i] && b == e)
  {
    var j :| 0 <= j < |s| && s[j] == a;
    var k :| 0 <= k < |s| && s[i := e][k] == b;
    assert j == k;
  }

  lemma {:induction false} AddedOrSame(s: seq<Entry>, e: Entry, a: Entry, b: Entry)
    requires Valid(s) && (forall j :: 0 <= j < |s| ==> s[j].root != e.root)
    requires a in s && b in SortBy(s + [e], RootLe) && a.root == b.root
    ensures a == b
  {
    SortMembers(s + [e], RootLe);
    OneEntryPerRoot(s + [e], a, b);
  }

  // ----- The registry file as the program updates it -----

  class RegistryFile {
    var entries: seq<Entry>

    constructor ()
      ensures entries == []
    {
      entries := [];
    }

    /** The search loops: the first entry that passes, or -1. */
    static method IndexOf(s: seq<Entry>, test: Entry -> bool) returns (i: int)
      ensures i == (if Find(s, test, 0) < |s| then Find(s, test, 0) else -1)
    {
      for k := 0 to |s|
        invariant Find(s, test, 0) == Find(s, test, k)
      {
        if test(s[k]) {
          return k;
        }
      }
      return -1;
    }

    static method IsTakenElsewhere(s: seq<Entry>, name: string, i: int) returns (taken: bool)
      requires -1 <= i < |s|
      ensures taken <==> TakenElsewhere(s, name, if i < 0 then |s| else i)
    {
      for k := 0 to |s|
        invariant forall j :: 0 <= j < k && j != i ==> Trim(s[j].name) != name
      {
        if Trim(s[k].name) == name && k != i {
          return true;
        }
      }
      return false;
    }

    /** Sort and write back; a failed write leaves the file as it was. */
    method Write(updated: seq<Entry>, writeOk: bool)
      modifies this
      ensures entries == if writeOk then updated else old(entries)
    {
      if writeOk {
        entries := updated;
      }
    }

    method Touch(root: string, now: int, writeOk: bool) returns (r: Result<string>)
      modifies this
      ensures writeOk ==> (r, entries) == Apply(old(entries), Op.Touch(root, now))
      ensures !writeOk ==> r.Failure? && entries == old(entries)
    {
      var s := entries;
      var i := IndexOf(s, (e: Entry) => e.root == root);
      if i >= 0 {
        s := s[i := Seen(s[i], now)];
      } else {
        s := s + [Entry("", root, now, now)];
      }
      Write(SortBy(s, RootLe), writeOk);
      r := if writeOk then Success(root) else Failure("write root registry");
    }

    method SetContextName(root: string, rawName: string, now: int, writeOk: bool) returns (r: Result<string>)
      modifies this
      ensures writeOk ==> (r, entries) == Apply(old(entries), SetName(root, rawName, now))
      ensures !writeOk ==> r.Failure? && entries == old(entries)
    {
      var name := Trim(rawName);
      if name == "" {
        return Failure("context name is required");
      }
      var s := entries;
      var i := IndexOf(s, (e: Entry) => e.root == root);
      var taken := IsTakenElsewhere(s, name, i);
      if taken {
        return Failure("context name already exists");
      }
      if i >= 0 {
        s := s[i := Seen(s[i], now).(name := name)];
      } else {
        s := s + [Entry(name, root, now, now)];
      }
      Write(SortBy(s, RootLe), writeOk);
      r := if writeOk then Success(root) else Failure("write root registry");
    }

    method RenameContextName(rawOld: string, rawNew: string, now: int, writeOk: bool) returns (r: Result<string>)
      modifies this
      ensures writeOk ==> (r, entries) == Apply(old(entries), Rename(rawOld, rawNew, now))
      ensures !writeOk ==> r.Failure? && entries == old(entries)
    {
      var oldName, newName := Trim(rawOld), Trim(rawNew);
      if oldName == "" || newName == "" {
        return Failure("old and new context names are required");
      }
      if oldName == newName {
        return Failure("new context name must be different");
      }
      var i := IndexOf(entries, (e: Entry) => Trim(e.name) == oldName);
      if i < 0 {
        return Failure("context not found");
      }
      var taken := IsTakenElsewhere(entries, newName, i);
      if taken {
        return Failure("context name already exists");
      }
      var sorted := SortBy(entries[i := Used(entries[i], now).(name := newName)], RootLe);
      Write(sorted, writeOk);
      r := if writeOk then Success(sorted[i].root) else Failure("write root registry");
    }

    method RemoveContextName(rawName: string, writeOk: bool) returns (r: Result<string>)
      modifies this
      ensures writeOk ==> (r, entries) == Apply(old(entries), Remove(rawName))
      ensures !writeOk ==> r.Failure? && entries == old(entries)
    {
      var name := Trim(rawName);
      if name == "" {
        return Failure("context name is required");
      }
      var i := IndexOf(entries, (e: Entry) => Trim(e.name) == name);
      if i < 0 {
        return Failure("context not found");
      }
      var root := entries[i].root;
      Write(entries[..i] + entries[i + 1..], writeOk);
      r := if writeOk then Success(root) else Failure("write root registry");
    }
  }
}
