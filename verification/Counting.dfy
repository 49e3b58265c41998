/** How many elements of a list satisfy a test. */
module Counting {

  function Count<T>(s: seq<T>, test: T -> bool): nat {
    if s == [] then 0 else Count(s[..|s| - 1], test) + (if test(s[|s| - 1]) then 1 else 0)
  }

  lemma {:induction false} CountAppend<T>(s: seq<T>, x: T, test: T -> bool)
    ensures Count(s + [x], test) == Count(s, test) + (if test(x) then 1 else 0)
  {
    assert (s + [x])[..|s|] == s;
  }

  lemma {:induction false} CountConcat<T>(a: seq<T>, b: seq<T>, test: T -> bool)
    ensures Count(a + b, test) == Count(a, test) + Count(b, test)
  {
    if b == [] {
      assert a + b == a;
    } else {
      CountConcat(a, b[..|b| - 1], test);
      assert a + b == (a + b[..|b| - 1]) + [b[|b| - 1]];
      CountAppend(a + b[..|b| - 1], b[|b| - 1], test);
    }
  }

  lemma {:induction false} CountSplit<T>(s: seq<T>, i: nat, test: T -> bool)
    requires i < |s|
    ensures Count(s, test) == Count(s[..i] + s[i + 1..], test) + (if test(s[i]) then 1 else 0)
  {
    var a, b, c := s[..i], s[i + 1..], s[..i + 1];
    assert c[..|c| - 1] == a;
    assert s == c + b;
    CountConcat(c, b, test);
    CountConcat(a, b, test);
  }

  lemma {:induction false} CountUpdate<T>(s: seq<T>, i: nat, x: T, test: T -> bool)
    requires i < |s|
    ensures Count(s[i := x], test) == Count(s, test) - (if test(s[i]) then 1 else 0) + (if test(x) then 1 else 0)
  {
    CountSplit(s, i, test);
    CountSplit(s[i := x], i, test);
  }

  lemma {:induction false} RemoveOne<T>(s: seq<T>, i: nat)
    requires i < |s|
    ensures multiset(s[..i] + s[i + 1..]) == multiset(s) - multiset{s[i]}
  {
    assert s == s[..i] + [s[i]] + s[i + 1..];
  }

  /** The count does not depend on the order. */
  lemma {:induction false} CountOfSameElements<T>(a: seq<T>, b: seq<T>, test: T -> bool)
    requires multiset(a) == multiset(b)
    ensures Count(a, test) == Count(b, test)
    decreases |a|
  {
    if a == [] {
      assert |multiset(b)| == |b|;
    } else {
      var x := a[|a| - 1];
      assert x in multiset(a);
      assert x in b;
      var i :| 0 <= i < |b| && b[i] == x;
      var c := b[..i] + b[i + 1..];
      RemoveOne(b, i);
      RemoveOne(a, |a| - 1);
      assert a[..|a| - 1] + a[|a|..] == a[..|a| - 1];
      CountOfSameElements(a[..|a| - 1], c, test);
      CountSplit(b, i, test);
    }
  }

  lemma {:induction false} CountPositive<T>(s: seq<T>, test: T -> bool)
    ensures Count(s, test) > 0 <==> exists i :: 0 <= i < |s| && test(s[i])
  {
    if s != [] { CountPositive(s[..|s| - 1], test); }
  }

  lemma {:induction false} CountFirst<T>(s: seq<T>, test: T -> bool)
    requires s != []
    ensures Count(s, test) == (if test(s[0]) then 1 else 0) + Count(s[1..], test)
  {
    assert s == [s[0]] + s[1..];
    CountConcat([s[0]], s[1..], test);
    assert [s[0]][..0] == [];
  }
}
