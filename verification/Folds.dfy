/** Loops that stop at the first element that has no result. */
module Folds {
  import opened Text

  /** Apply a partial step for the first n elements in turn. */
  function Fold<S, X>(step: (S, X) -> Option<S>, s: S, xs: seq<X>, n: nat): Option<S>
    requires n <= |xs|
  {
    if n == 0 then Some(s)
    else
      match Fold(step, s, xs, n - 1)
      case None => None
      case Some(t) => step(t, xs[n - 1])
  }

  lemma {:induction false} FoldPrefix<S, X>(step: (S, X) -> Option<S>, s: S, xs: seq<X>, k: nat, n: nat)
    requires k <= n <= |xs| && Fold(step, s, xs, n).Some?
    ensures Fold(step, s, xs, k).Some?
  {
    if k < n { FoldPrefix(step, s, xs, k, n - 1); }
  }

  lemma {:induction false} FoldNext<S, X>(step: (S, X) -> Option<S>, s: S, xs: seq<X>, n: nat, t: S)
    requires n < |xs| && Fold(step, s, xs, n) == Some(t)
    ensures Fold(step, s, xs, n + 1) == step(t, xs[n])
  {
  }

  /** What every step demands of its element holds of all of them. */
  lemma {:induction false} FoldDemands<S(!new), X(!new)>(
    step: (S, X) -> Option<S>, s: S, xs: seq<X>, ok: X -> bool, n: nat)
    requires n <= |xs| && Fold(step, s, xs, n).Some? && forall t, x :: step(t, x).Some? ==> ok(x)
    ensures forall i :: 0 <= i < n ==> ok(xs[i])
  {
    if n > 0 { FoldDemands(step, s, xs, ok, n - 1); }
  }

  function Names(aliases: seq<string>, n: nat): set<string>
    requires n <= |aliases|
  {
    if n == 0 then {} else Names(aliases, n - 1) + {aliases[n - 1]}
  }

  lemma {:induction false} NamesMembers(aliases: seq<string>, n: nat)
    requires n <= |aliases|
    ensures forall a :: a in Names(aliases, n) <==> a in aliases[..n]
  {
    if n > 0 {
      NamesMembers(aliases, n - 1);
      assert aliases[..n] == aliases[..n - 1] + [aliases[n - 1]];
    }
  }

  lemma {:induction false} FreshName(aliases: seq<string>, n: nat)
    requires n < |aliases| && forall i, j :: 0 <= i < j < |aliases| ==> aliases[i] != aliases[j]
    ensures aliases[n] !in Names(aliases, n)
  {
    NamesMembers(aliases, n);
  }

  /** Steps with distinct names, each possible and keeping a property of the set of names seen so far. */
  lemma {:induction false} FoldNames<S(!new), X>(
    step: (S, X) -> Option<S>, s: S, xs: seq<X>, names: seq<string>, part: (set<string>, S) -> bool, n: nat)
    requires n <= |xs| == |names| && part({}, s)
    requires forall i, j :: 0 <= i < j < |names| ==> names[i] != names[j]
    requires forall seen, t, i: nat :: i < |xs| && part(seen, t) && names[i] !in seen ==>
               step(t, xs[i]).Some? && part(seen + {names[i]}, step(t, xs[i]).value)
    ensures Fold(step, s, xs, n).Some? && part(Names(names, n), Fold(step, s, xs, n).value)
  {
    if n > 0 {
      FoldNames(step, s, xs, names, part, n - 1);
      FreshName(names, n - 1);
    }
  }

  /** The results for the first n names, if all of them have one. */
  function Collect<T>(f: string -> Option<T>, names: seq<string>, n: nat): (r: Option<seq<T>>)
    requires n <= |names|
    ensures r.Some? ==> |r.value| == n
  {
    if n == 0 then Some([])
    else
      var before, x := Collect(f, names, n - 1), f(names[n - 1]);
      if before.None? || x.None? then None else Some(before.value + [x.value])
  }

  lemma {:induction false} CollectPrefix<T>(f: string -> Option<T>, names: seq<string>, k: nat, n: nat)
    requires k <= n <= |names| && Collect(f, names, n).Some?
    ensures Collect(f, names, k).Some?
  {
    if k < n { CollectPrefix(f, names, k, n - 1); }
  }

  /** The loop itself: stop at the first name without a result. */
  method CollectAll<T>(f: string -> Option<T>, names: seq<string>) returns (r: Option<seq<T>>)
    ensures r == Collect(f, names, |names|)
  {
    var found: seq<T> := [];
    for i := 0 to |names|
      invariant Some(found) == Collect(f, names, i)
    {
      var x := f(names[i]);
      if x.None? {
        if Collect(f, names, |names|).Some? { CollectPrefix(f, names, i + 1, |names|); }
        return None;
      }
      found := found + [x.value];
    }
    return Some(found);
  }

  lemma {:induction false} CollectAt<T>(f: string -> Option<T>, names: seq<string>, n: nat, i: nat)
    requires i < n <= |names| && Collect(f, names, n).Some?
    ensures f(names[i]) == Some(Collect(f, names, n).value[i])
  {
    if i < n - 1 { CollectAt(f, names, n - 1, i); }
  }

  lemma {:induction false} CollectFails<T>(f: string -> Option<T>, names: seq<string>, n: nat)
    requires n <= |names| && Collect(f, names, n).None?
    ensures exists i :: 0 <= i < n && f(names[i]).None?
  {
    if Collect(f, names, n - 1).None? { CollectFails(f, names, n - 1); }
  }

  /** Whether the first n names are pairwise different. */
  predicate NoRepeat(names: seq<string>, n: nat)
    requires n <= |names|
  {
    n == 0 || (NoRepeat(names, n - 1) && names[n - 1] !in names[..n - 1])
  }

  lemma {:induction false} NoRepeatMeans(names: seq<string>, n: nat)
    requires n <= |names|
    ensures NoRepeat(names, n) <==> forall i, j :: 0 <= i < j < n ==> names[i] != names[j]
  {
    if n > 0 {
      NoRepeatMeans(names, n - 1);
      assert names[n - 1] in names[..n - 1] <==> exists i :: 0 <= i < n - 1 && names[i] == names[n - 1];
    }
  }

  // ----- Runs of a total step -----

  function Iterate<S, X>(step: (S, X) -> S, s: S, xs: seq<X>, n: nat): S
    requires n <= |xs|
  {
    if n == 0 then s else step(Iterate(step, s, xs, n - 1), xs[n - 1])
  }

  /** The states of a run, from the first one on. */
  function Trace<S, X>(step: (S, X) -> S, s: S, xs: seq<X>): (r: seq<S>)
    ensures |r| == |xs| + 1
  {
    seq(|xs| + 1, k requires 0 <= k <= |xs| => Iterate(step, s, xs, k))
  }

  /** What every step keeps holds in every state. */
  lemma {:induction false} TraceKeeps<S(!new), X(!new)>(step: (S, X) -> S, s: S, xs: seq<X>, holds: S -> bool, n: nat)
    requires n <= |xs| && holds(s) && forall t, x :: holds(t) ==> holds(step(t, x))
    ensures holds(Trace(step, s, xs)[n])
  {
    if n > 0 { TraceKeeps(step, s, xs, holds, n - 1); }
  }

  /** What every step relates holds between neighbouring states. */
  lemma {:induction false} TraceRelates<S(!new), X(!new)>(
    step: (S, X) -> S, s: S, xs: seq<X>, holds: S -> bool, rel: (S, S) -> bool, n: nat)
    requires n < |xs| && holds(s) && (forall t, x :: holds(t) ==> holds(step(t, x)) && rel(t, step(t, x)))
    ensures rel(Trace(step, s, xs)[n], Trace(step, s, xs)[n + 1])
  {
    TraceKeeps(step, s, xs, holds, n);
  }
}
