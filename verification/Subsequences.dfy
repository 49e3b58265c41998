/** Ordered subsequences: the plain definition and the search that takes each element at its first chance. */
module Subsequences {
  import opened Counting

  /** Positions in h, one after the other, that hold the elements of q. */
  ghost predicate Embeds<T>(p: seq<nat>, q: seq<T>, h: seq<T>) {
    && |p| == |q|
    && (forall i, j :: 0 <= i < j < |p| ==> p[i] < p[j])
    && (forall i :: 0 <= i < |p| ==> p[i] < |h| && h[p[i]] == q[i])
  }

  ghost predicate Subsequence<T>(q: seq<T>, h: seq<T>) {
    exists p :: Embeds(p, q, h)
  }

  /** Take each element of q at its first chance. */
  predicate Greedy<T(==)>(q: seq<T>, h: seq<T>) {
    q == [] || (h != [] && (if h[0] == q[0] then Greedy(q[1..], h[1..]) else Greedy(q, h[1..])))
  }

  function Shift(p: seq<nat>): (r: seq<nat>)
    ensures |r| == |p| && forall i :: 0 <= i < |p| ==> r[i] == p[i] + 1
  {
    seq(|p|, i requires 0 <= i < |p| => p[i] + 1)
  }

  function Unshift(p: seq<nat>): (r: seq<nat>)
    requires forall i :: 0 <= i < |p| ==> p[i] > 0
    ensures |r| == |p| && forall i :: 0 <= i < |p| ==> r[i] == p[i] - 1
  {
    seq(|p|, i requires 0 <= i < |p| => p[i] - 1)
  }

  lemma {:induction false} GreedyEmbeds<T>(q: seq<T>, h: seq<T>)
    requires Greedy(q, h)
    ensures Subsequence(q, h)
    decreases |h|
  {
    if q == [] {
      assert Embeds([], q, h);
    } else if h[0] == q[0] {
      GreedyEmbeds(q[1..], h[1..]);
      var p :| Embeds(p, q[1..], h[1..]);
      assert Embeds([0] + Shift(p), q, h);
    } else {
      GreedyEmbeds(q, h[1..]);
      var p :| Embeds(p, q, h[1..]);
      assert Embeds(Shift(p), q, h);
    }
  }

  lemma {:induction false} EmbedsGreedy<T>(p: seq<nat>, q: seq<T>, h: seq<T>)
    requires Embeds(p, q, h)
    ensures Greedy(q, h)
    decreases |h|
  {
    if q != [] {
      assert p[0] < |h|;
      if h[0] == q[0] {
        var rest := p[1..];
        assert forall i :: 0 <= i < |rest| ==> rest[i] == p[i + 1] > p[0];
        assert Embeds(Unshift(rest), q[1..], h[1..]);
        EmbedsGreedy(Unshift(rest), q[1..], h[1..]);
      } else {
        assert p[0] > 0;
        assert Embeds(Unshift(p), q, h[1..]);
        EmbedsGreedy(Unshift(p), q, h[1..]);
      }
    }
  }

  /** Taking the first chance never misses a subsequence. */
  lemma {:induction false} GreedyIff<T>(q: seq<T>, h: seq<T>)
    ensures Greedy(q, h) <==> Subsequence(q, h)
  {
    if Greedy(q, h) { GreedyEmbeds(q, h); }
    if Subsequence(q, h) {
      var p :| Embeds(p, q, h);
      EmbedsGreedy(p, q, h);
    }
  }

  /** A shorter query, with a part left out, still matches. */
  lemma {:induction false} GreedyDrop<T>(a: seq<T>, s: seq<T>, b: seq<T>, h: seq<T>)
    requires Greedy(a + s + b, h)
    ensures Greedy(a + b, h)
  {
    GreedyIff(a + s + b, h);
    var p :| Embeds(p, a + s + b, h);
    var r := p[..|a|] + p[|a| + |s|..];
    forall i | 0 <= i < |r| ensures r[i] < |h| && h[r[i]] == (a + b)[i] {
      if i >= |a| { assert r[i] == p[i + |s|] && (a + s + b)[i + |s|] == b[i - |a|]; }
          else { assert (a + s + b)[i] == a[i]; }
    }
    assert Embeds(r, a + b, h);
    GreedyIff(a + b, h);
  }

  lemma {:induction false} GreedySkip<T>(q: seq<T>, a: seq<T>, h: seq<T>)
    requires q == [] || q[0] !in a
    ensures Greedy(q, a + h) <==> Greedy(q, h)
  {
    if a == [] {
      assert a + h == h;
    } else {
      assert (a + h)[1..] == a[1..] + h;
      GreedySkip(q, a[1..], h);
    }
  }

  lemma {:induction false} GreedyBoth<T>(a: seq<T>, q: seq<T>, h: seq<T>)
    ensures Greedy(a + q, a + h) <==> Greedy(q, h)
  {
    if a == [] {
      assert a + q == q && a + h == h;
    } else {
      assert (a + q)[1..] == a[1..] + q && (a + h)[1..] == a[1..] + h;
      GreedyBoth(a[1..], q, h);
    }
  }

  lemma {:induction false} GreedyMore<T>(q: seq<T>, a: seq<T>, h: seq<T>)
    requires Greedy(q, h)
    ensures Greedy(q, a + h)
  {
    GreedyIff(q, h);
    var p :| Embeds(p, q, h);
    var r := seq(|p|, i requires 0 <= i < |p| => p[i] + |a|);
    assert Embeds(r, q, a + h);
    EmbedsGreedy(r, q, a + h);
  }

  lemma {:induction false} GreedyItself<T>(s: seq<T>)
    ensures Greedy(s, s)
  {
    GreedyBoth(s, [], []);
    assert s + [] == s;
  }

  /** Matches side by side make a match. */
  lemma {:induction false} GreedyConcat<T>(a: seq<T>, x: seq<T>, b: seq<T>, y: seq<T>)
    requires Greedy(a, x) && Greedy(b, y)
    ensures Greedy(a + b, x + y)
    decreases |x|
  {
    if a == [] {
      assert a + b == b;
      GreedyMore(b, x, y);
    } else {
      assert (x + y)[1..] == x[1..] + y;
      if x[0] == a[0] {
        assert (a + b)[1..] == a[1..] + b;
        GreedyConcat(a[1..], x[1..], b, y);
      } else {
        GreedyConcat(a, x[1..], b, y);
      }
    }
  }

  /** A subsequence has no more elements of a kind than the whole. */
  lemma {:induction false} GreedyCounts<T>(q: seq<T>, h: seq<T>, test: T -> bool)
    requires Greedy(q, h)
    ensures Count(q, test) <= Count(h, test)
    decreases |h|
  {
    if q != [] {
      CountFirst(h, test);
      if h[0] == q[0] {
        CountFirst(q, test);
        GreedyCounts(q[1..], h[1..], test);
      } else {
        GreedyCounts(q, h[1..], test);
      }
    }
  }
}
