/** The library sorts used by the program: a stable sort given by its comparison. */
module Sorting {

  function InsertBy<T>(x: T, s: seq<T>, le: (T, T) -> bool): (r: seq<T>)
    ensures |r| == |s| + 1
  {
    if s == [] then [x]
    else if le(x, s[0]) then [x] + s
    else [s[0]] + InsertBy(x, s[1..], le)
  }

  /** Elements that compare equal keep their order, as in Go's stable sorts. */
  function SortBy<T>(s: seq<T>, le: (T, T) -> bool): (r: seq<T>)
    ensures |r| == |s|
  {
    if s == [] then [] else InsertBy(s[0], SortBy(s[1..], le), le)
  }

  lemma {:induction false} InsertMultiset<T>(x: T, s: seq<T>, le: (T, T) -> bool)
    ensures multiset(InsertBy(x, s, le)) == multiset([x]) + multiset(s)
  {
    if s != [] {
      assert s == [s[0]] + s[1..];
      InsertMultiset(x, s[1..], le);
    }
  }

  lemma {:induction false} SortMultiset<T>(s: seq<T>, le: (T, T) -> bool)
    ensures multiset(SortBy(s, le)) == multiset(s)
  {
    if s != [] {
      assert s == [s[0]] + s[1..];
      SortMultiset(s[1..], le);
      InsertMultiset(s[0], SortBy(s[1..], le), le);
    }
  }

  ghost predicate TotalPreorder<T(!new)>(le: (T, T) -> bool) {
    && (forall a, b :: le(a, b) || le(b, a))
    && (forall a, b, c :: le(a, b) && le(b, c) ==> le(a, c))
  }

  ghost predicate Sorted<T>(s: seq<T>, le: (T, T) -> bool) {
    forall i, j :: 0 <= i < j < |s| ==> le(s[i], s[j])
  }

  lemma {:induction false} InsertSorted<T(!new)>(x: T, s: seq<T>, le: (T, T) -> bool)
    requires TotalPreorder(le) && Sorted(s, le)
    ensures Sorted(InsertBy(x, s, le), le)
  {
    if s != [] && !le(x, s[0]) {
      InsertSorted(x, s[1..], le);
      InsertMultiset(x, s[1..], le);
      var t := InsertBy(x, s[1..], le);
      forall j | 0 <= j < |t| ensures le(s[0], t[j]) {
        assert t[j] in multiset(t);
        assert t[j] == x || t[j] in s[1..];
      }
    }
  }

  lemma {:induction false} SortSorted<T(!new)>(s: seq<T>, le: (T, T) -> bool)
    requires TotalPreorder(le)
    ensures Sorted(SortBy(s, le), le)
  {
    if s != [] {
      SortSorted(s[1..], le);
      InsertSorted(s[0], SortBy(s[1..], le), le);
    }
  }

  lemma {:induction false} SortOfSorted<T>(s: seq<T>, le: (T, T) -> bool)
    requires Sorted(s, le)
    ensures SortBy(s, le) == s
  {
    if s != [] {
      SortOfSorted(s[1..], le);
      if |s| > 1 { assert le(s[0], s[1]); }
    }
  }

  lemma {:induction false} SortMembers<T>(s: seq<T>, le: (T, T) -> bool)
    ensures forall x :: x in SortBy(s, le) <==> x in s
  {
    SortMultiset(s, le);
    forall x ensures x in SortBy(s, le) <==> x in s {
      assert x in SortBy(s, le) <==> x in multiset(SortBy(s, le));
      assert x in s <==> x in multiset(s);
    }
  }

  lemma {:induction false} OccursTwice<T>(s: seq<T>, i: nat, j: nat)
    requires i < j < |s| && s[i] == s[j]
    ensures multiset(s)[s[i]] >= 2
  {
    assert s == s[..i] + [s[i]] + s[i + 1..j] + [s[j]] + s[j + 1..];
  }

  lemma {:induction false} OccursOnce<T>(s: seq<T>, x: T)
    requires forall i, j :: 0 <= i < j < |s| ==> s[i] != s[j]
    ensures multiset(s)[x] <= 1
  {
    if s != [] {
      assert s == [s[0]] + s[1..];
      OccursOnce(s[1..], x);
      if x == s[0] { assert x !in s[1..]; }
    }
  }

  /** Sorting distinct elements gives distinct elements. */
  lemma {:induction false} SortDistinct<T>(s: seq<T>, le: (T, T) -> bool, i: nat, j: nat)
    requires forall i, j :: 0 <= i < j < |s| ==> s[i] != s[j]
    requires i < j < |s|
    ensures SortBy(s, le)[i] != SortBy(s, le)[j]
  {
    var t := SortBy(s, le);
    SortMultiset(s, le);
    if t[i] == t[j] {
      OccursTwice(t, i, j);
      OccursOnce(s, t[i]);
    }
  }
}
