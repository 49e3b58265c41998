/** The fuzzy filter (internal/cli/filter_match.go). */
module FilterMatch {
  import opened Text
  import opened Subsequences
  import opened Bytes
  import opened Counting

  // ----- The text that is searched for -----

  function Lower(s: string, lower: char -> char): string {
    if s == "" then "" else [lower(s[0])] + Lower(s[1..], lower)
  }

  /** The string without its blanks. */
  function Squeeze(s: string): string {
    if s == "" then "" else if IsSpace(s[0]) then Squeeze(s[1..]) else [s[0]] + Squeeze(s[1..])
  }

  function Concat(parts: seq<string>): string {
    if parts == [] then "" else parts[0] + Concat(parts[1..])
  }

  /** Lower-casing neither makes nor removes blanks. */
  ghost predicate KeepsBlanks(lower: char -> char) {
    forall c :: IsSpace(lower(c)) <==> IsSpace(c)
  }

  lemma {:induction false} LowerConcat(a: string, b: string, lower: char -> char)
    ensures Lower(a + b, lower) == Lower(a, lower) + Lower(b, lower)
  {
    if a == "" {
      assert a + b == b;
    } else {
      assert (a + b)[1..] == a[1..] + b;
      LowerConcat(a[1..], b, lower);
    }
  }

  lemma {:induction false} SqueezeConcat(a: string, b: string)
    ensures Squeeze(a + b) == Squeeze(a) + Squeeze(b)
  {
    if a == "" {
      assert a + b == b;
    } else {
      assert (a + b)[1..] == a[1..] + b;
      SqueezeConcat(a[1..], b);
    }
  }

  lemma {:induction false} SqueezeWord(s: string)
    ensures Squeeze(s) == s[..WordLength(s)] + Squeeze(s[WordLength(s)..])
  {
    if s != "" && !IsSpace(s[0]) {
      var t := s[1..];
      SqueezeWord(t);
      assert s[..WordLength(s)] == [s[0]] + t[..WordLength(t)];
      assert s[WordLength(s)..] == t[WordLength(t)..];
    }
  }

  /** Splitting into fields and joining them removes exactly the blanks. */
  lemma {:induction false} JoinedFields(s: string)
    ensures Concat(Fields(s)) == Squeeze(s)
    decreases |s|
  {
    if s != "" {
      if IsSpace(s[0]) {
        JoinedFields(s[1..]);
      } else {
        SqueezeWord(s);
        JoinedFields(s[WordLength(s)..]);
        assert Fields(s)[1..] == Fields(s[WordLength(s)..]);
      }
    }
  }

  lemma {:induction false} SqueezeOfBlank(s: string, lower: char -> char)
    requires KeepsBlanks(lower) && forall i :: 0 <= i < |s| ==> IsSpace(s[i])
    ensures Squeeze(Lower(s, lower)) == ""
  {
    if s != "" {
      SqueezeOfBlank(s[1..], lower);
      assert Lower(s, lower)[1..] == Lower(s[1..], lower);
    }
  }

  lemma {:induction false} SqueezeParts(a: string, b: string, lower: char -> char)
    ensures Squeeze(Lower(a + b, lower)) == Squeeze(Lower(a, lower)) + Squeeze(Lower(b, lower))
  {
    LowerConcat(a, b, lower);
    SqueezeConcat(Lower(a, lower), Lower(b, lower));
  }

  lemma {:induction false} TrimLeftThenSqueeze(s: string, lower: char -> char)
    requires KeepsBlanks(lower)
    ensures Squeeze(Lower(TrimLeft(s), lower)) == Squeeze(Lower(s, lower))
  {
    TrimLeftIsSuffix(s);
    var t := TrimLeft(s);
    var front := s[..|s| - |t|];
    assert s == front + t;
    SqueezeParts(front, t, lower);
    SqueezeOfBlank(front, lower);
  }

  lemma {:induction false} TrimRightThenSqueeze(s: string, lower: char -> char)
    requires KeepsBlanks(lower)
    ensures Squeeze(Lower(TrimRight(s), lower)) == Squeeze(Lower(s, lower))
  {
    TrimRightIsPrefix(s);
    var t := TrimRight(s);
    var back := s[|t|..];
    assert s == t + back;
    SqueezeParts(t, back, lower);
    SqueezeOfBlank(back, lower);
  }

  /** Trimming first makes no difference once the blanks are removed. */
  lemma {:induction false} TrimThenSqueeze(s: string, lower: char -> char)
    requires KeepsBlanks(lower)
    ensures Squeeze(Lower(Trim(s), lower)) == Squeeze(Lower(s, lower))
  {
    TrimLeftThenSqueeze(s, lower);
    TrimRightThenSqueeze(TrimLeft(s), lower);
  }

  // ----- The filter -----

  /** What is searched for: the lowercase needle without blanks, in bytes. */
  function Query(needle: string, lower: char -> char): seq<Byte> {
    Encode(Squeeze(Lower(needle, lower)))
  }

  predicate Shown(haystack: string, needle: string, lower: char -> char) {
    Greedy(Query(needle, lower), Encode(Lower(haystack, lower)))
  }

  /** The loop with one index into each string. */
  method TwoPointers(h: seq<Byte>, q: seq<Byte>) returns (found: bool)
    ensures found <==> Greedy(q, h)
  {
    var i, j := 0, 0;
    while i < |h| && j < |q|
      invariant i <= |h| && j <= |q| && (Greedy(q, h) <==> Greedy(q[j..], h[i..]))
    {
      assert h[i..][1..] == h[i + 1..] && q[j..][1..] == q[j + 1..];
      if h[i] == q[j] {
        j := j + 1;
      }
      i := i + 1;
    }
    return j == |q|;
  }

  /** The filter shows exactly the haystacks that have the query as a subsequence. */
  method FuzzyMatch(haystack: string, needle: string, lower: char -> char) returns (found: bool)
    requires KeepsBlanks(lower)
    ensures found <==> Shown(haystack, needle, lower)
    ensures found <==> Subsequence(Query(needle, lower), Encode(Lower(haystack, lower)))
  {
    GreedyIff(Query(needle, lower), Encode(Lower(haystack, lower)));
    TrimThenSqueeze(needle, lower);
    var text := Lower(Trim(needle), lower);
    if text == "" {
      return true;
    }
    JoinedFields(text);
    text := Concat(Fields(text));
    if text == "" {
      return true;
    }
    if haystack == "" {
      return false;
    }
    found := TwoPointers(Encode(Lower(haystack, lower)), Encode(text));
  }

  lemma {:induction false} QueryConcat(a: string, b: string, lower: char -> char)
    ensures Query(a + b, lower) == Query(a, lower) + Query(b, lower)
  {
    SqueezeParts(a, b, lower);
    EncodeConcat(Squeeze(Lower(a, lower)), Squeeze(Lower(b, lower)));
  }

  /** Text typed anywhere into the filter never makes a further haystack match. */
  lemma {:induction false} TypingNarrows(a: string, typed: string, b: string, haystack: string, lower: char -> char)
    requires Shown(haystack, a + typed + b, lower)
    ensures Shown(haystack, a + b, lower)
  {
    QueryConcat(a + typed, b, lower);
    QueryConcat(a, typed, lower);
    QueryConcat(a, b, lower);
    GreedyDrop(Query(a, lower), Query(typed, lower), Query(b, lower), Encode(Lower(haystack, lower)));
  }

  // ----- Bytes against characters -----

  predicate Ascii(s: string) {
    forall i :: 0 <= i < |s| ==> (s[i] as int) < 0x80
  }

  /** A match of characters is a match of their bytes. */
  lemma {:induction false} CharactersMatchAsBytes(q: string, h: string)
    requires Greedy(q, h)
    ensures Greedy(Encode(q), Encode(h))
    decreases |h|
  {
    if q != "" {
      if h[0] == q[0] {
        CharactersMatchAsBytes(q[1..], h[1..]);
        GreedyBoth(Utf8(h[0]), Encode(q[1..]), Encode(h[1..]));
      } else {
        CharactersMatchAsBytes(q, h[1..]);
        GreedyMore(Encode(q), Utf8(h[0]), Encode(h[1..]));
      }
    }
  }

  /** For a query of ASCII characters the bytes match exactly when the characters do. */
  lemma {:induction false} AsciiMatchesAsCharacters(q: string, h: string)
    requires Ascii(q)
    ensures Greedy(Encode(q), Encode(h)) <==> Greedy(q, h)
    decreases |h|
  {
    if q != "" && h != "" {
      assert Encode(q)[0] == q[0] as int && Encode(q)[1..] == Encode(q[1..]);
      if h[0] == q[0] {
        AsciiMatchesAsCharacters(q[1..], h[1..]);
        GreedyBoth(Utf8(h[0]), Encode(q[1..]), Encode(h[1..]));
      } else {
        AsciiMatchesAsCharacters(q, h[1..]);
        assert (q[0] as int) !in Utf8(h[0]);
        GreedySkip(Encode(q), Utf8(h[0]), Encode(h[1..]));
      }
    }
  }

  /** Beyond ASCII the bytes of two characters can make up a third: U+00E9 matches U+00E0 U+00A9. */
  lemma {:induction false} BytesOfTwoCharactersMatchAThird()
    ensures var q, h := [0xE9 as char], [0xE0 as char, 0xA9 as char]; Greedy(Encode(q), Encode(h)) && !Greedy(q, h)
  {
    var q, h := [0xE9 as char], [0xE0 as char, 0xA9 as char];
    assert q[1..] == "" && h[1..] == [0xA9 as char] && h[1..][1..] == "";
    assert !Greedy(q, h[1..][1..]) && !Greedy(q, h[1..]);
    assert Encode(q) == [0xC3, 0xA9];
    assert Encode(h[1..]) == [0xC2, 0xA9];
    assert Encode(h) == [0xC3, 0xA0, 0xC2, 0xA9];
    assert Embeds([0, 3], Encode(q), Encode(h));
    GreedyIff(Encode(q), Encode(h));
  }

  /** What the filter would show if it compared characters. */
  predicate ShownByCharacters(haystack: string, needle: string, lower: char -> char) {
    Greedy(Squeeze(Lower(needle, lower)), Lower(haystack, lower))
  }

  /** A second time, lower-casing changes nothing. */
  ghost predicate LowersOnce(lower: char -> char) {
    forall c, d :: d == lower(c) ==> lower(d) == d
  }

  /** U+0080 to U+00BF and U+0780 to U+07BF have no case. */
  ghost predicate KeepsCaseless(lower: char -> char) {
    forall c :: 0x80 <= c as int < 0xC0 || 0x780 <= c as int < 0x7C0 ==> lower(c) == c
  }

  /** Of the characters with the same first byte as another one, a further one is lowercase. */
  ghost predicate HasOthers(lower: char -> char) {
    forall c :: c as int >= 0x80 ==> HasOther(c, lower)
  }

  ghost predicate HasOther(c: char, lower: char -> char) {
    exists d :: OtherOfBlock(c, d, lower)
  }

  /** Lower-casing as far as the argument below needs it. */
  ghost predicate LowersLikeUnicode(lower: char -> char) {
    LowersOnce(lower) && KeepsCaseless(lower) && HasOthers(lower)
  }

  predicate OtherOfBlock(c: char, d: char, lower: char -> char) {
    d != c && lower(d) == d && Utf8(d)[0] == Utf8(c)[0]
  }

  predicate IsLower(s: string, lower: char -> char) {
    forall i :: 0 <= i < |s| ==> lower(s[i]) == s[i]
  }

  lemma {:induction false} LowerOfLower(s: string, lower: char -> char)
    requires IsLower(s, lower)
    ensures Lower(s, lower) == s
  {
    if s != "" {
      LowerOfLower(s[1..], lower);
      assert s == [s[0]] + s[1..];
    }
  }

  lemma {:induction false} QueryIsLower(needle: string, lower: char -> char)
    requires LowersOnce(lower)
    ensures IsLower(Squeeze(Lower(needle, lower)), lower)
  {
    if needle != "" {
      QueryIsLower(needle[1..], lower);
      var c := lower(needle[0]);
      assert lower(c) == c;
      assert Lower(needle, lower)[1..] == Lower(needle[1..], lower);
    }
  }

  /** A character other than c, left alone by lower-casing, that has the continuation byte b. */
  function Carrier(c: char, b: Byte): (r: char)
    requires 0x80 <= b < 0xC0
    ensures r != c
  {
    if c as int == b then (b + 0x700) as char else b as char
  }

  lemma {:induction false} CarrierCarries(c: char, b: Byte)
    requires 0x80 <= b < 0xC0
    ensures Greedy([b], Utf8(Carrier(c, b)))
  {
    var u := Utf8(Carrier(c, b));
    assert |u| == 2 && u[1] == b;
    assert Embeds([1], [b], u);
    GreedyIff([b], u);
  }

  lemma {:induction false} CarrierIsLower(c: char, b: Byte, lower: char -> char)
    requires 0x80 <= b < 0xC0 && KeepsCaseless(lower)
    ensures lower(Carrier(c, b)) == Carrier(c, b)
  {
  }

  /** Characters other than c that carry the bytes of c from the k-th on. */
  function Carriers(c: char, k: nat): string
    requires 1 <= k <= |Utf8(c)|
    decreases |Utf8(c)| - k
  {
    if k == |Utf8(c)| then "" else [Carrier(c, Utf8(c)[k])] + Carriers(c, k + 1)
  }

  lemma {:induction false} CarriersMatch(c: char, k: nat)
    requires 1 <= k <= |Utf8(c)|
    ensures Greedy(Utf8(c)[k..], Encode(Carriers(c, k))) && c !in Carriers(c, k)
    decreases |Utf8(c)| - k
  {
    var u := Utf8(c);
    if k < |u| {
      CarriersMatch(c, k + 1);
      CarrierCarries(c, u[k]);
      assert u[k..] == [u[k]] + u[k + 1..];
      EncodeOne(Carrier(c, u[k]));
      EncodeConcat([Carrier(c, u[k])], Carriers(c, k + 1));
      GreedyConcat([u[k]], Utf8(Carrier(c, u[k])), u[k + 1..], Encode(Carriers(c, k + 1)));
    }
  }

  lemma {:induction false} CarriersAreLower(c: char, k: nat, lower: char -> char)
    requires 1 <= k <= |Utf8(c)| && KeepsCaseless(lower)
    ensures IsLower(Carriers(c, k), lower)
    decreases |Utf8(c)| - k
  {
    if k < |Utf8(c)| {
      CarriersAreLower(c, k + 1, lower);
      CarrierIsLower(c, Utf8(c)[k], lower);
    }
  }

  /** What stands in for c: lowercase characters other than c in which its bytes are found. */
  lemma {:induction false} StandIn(c: char, lower: char -> char) returns (w: string)
    requires c as int >= 0x80 && KeepsCaseless(lower) && HasOthers(lower)
    ensures Greedy(Utf8(c), Encode(w)) && c !in w && IsLower(w, lower)
  {
    assert HasOther(c, lower);
    var d :| OtherOfBlock(c, d, lower);
    var u, rest := Utf8(c), Carriers(c, 1);
    w := [d] + rest;
    CarriersMatch(c, 1);
    CarriersAreLower(c, 1, lower);
    assert Embeds([0], [u[0]], Utf8(d));
    GreedyIff([u[0]], Utf8(d));
    assert u == [u[0]] + u[1..];
    EncodeOne(d);
    EncodeConcat([d], rest);
    GreedyConcat([u[0]], Utf8(d), u[1..], Encode(rest));
  }

  /** With another text in the place of one character, whose bytes are found in it, the bytes still match
      while the characters do not. */
  lemma {:induction false} ReplacedMatches(a: string, c: char, w: string, b: string)
    requires Greedy(Utf8(c), Encode(w)) && c !in w
    ensures Greedy(Encode(a + [c] + b), Encode(a + w + b)) && !Greedy(a + [c] + b, a + w + b)
  {
    EncodeConcat(a + [c], b);
    EncodeConcat(a, [c]);
    EncodeOne(c);
    EncodeConcat(a + w, b);
    EncodeConcat(a, w);
    GreedyItself(Encode(a));
    GreedyItself(Encode(b));
    GreedyConcat(Encode(a), Encode(a), Utf8(c), Encode(w));
    GreedyConcat(Encode(a) + Utf8(c), Encode(a) + Encode(w), Encode(b), Encode(b));
    OneFewer(a, w, b, c);
    if Greedy(a + [c] + b, a + w + b) { GreedyCounts(a + [c] + b, a + w + b, (x: char) => x == c); }
  }

  /** For a query that is not ASCII the filter shows a haystack whose characters do not match. */
  lemma {:induction false} BytesMatchMore(needle: string, i: nat, lower: char -> char) returns (h: string)
    requires LowersLikeUnicode(lower)
    requires var q := Squeeze(Lower(needle, lower)); i < |q| && q[i] as int >= 0x80
    ensures Shown(h, needle, lower) && !ShownByCharacters(h, needle, lower)
  {
    QueryIsLower(needle, lower);
    h := StandInHaystack(Squeeze(Lower(needle, lower)), i, lower);
    LowerOfLower(h, lower);
  }

  lemma {:induction false} StandInHaystack(q: string, i: nat, lower: char -> char) returns (h: string)
    requires KeepsCaseless(lower) && HasOthers(lower) && IsLower(q, lower) && i < |q| && q[i] as int >= 0x80
    ensures IsLower(h, lower) && Greedy(Encode(q), Encode(h)) && !Greedy(q, h)
  {
    var c, a, b := q[i], q[..i], q[i + 1..];
    var w := StandIn(c, lower);
    h := a + w + b;
    assert q == a + [c] + b;
    ReplacedMatches(a, c, w, b);
  }

  lemma {:induction false} OneFewer(a: string, w: string, b: string, c: char)
    requires c !in w
    ensures Count(a + w + b, (x: char) => x == c) < Count(a + [c] + b, (x: char) => x == c)
  {
    var test := (x: char) => x == c;
    CountConcat(a + w, b, test);
    CountConcat(a, w, test);
    CountConcat(a + [c], b, test);
    CountAppend(a, c, test);
    CountPositive(w, test);
  }

  /** The filter shows exactly the haystacks whose characters match, for every haystack, if and only if the
      lowercase query is ASCII. */
  lemma {:induction false} BytesAreCharactersIffAscii(needle: string, lower: char -> char)
    requires LowersLikeUnicode(lower)
    ensures
      (forall h :: Shown(h, needle, lower) <==> ShownByCharacters(h, needle, lower)) <==>
        Ascii(Squeeze(Lower(needle, lower)))
  {
    var q := Squeeze(Lower(needle, lower));
    if Ascii(q) {
      forall h ensures Shown(h, needle, lower) <==> ShownByCharacters(h, needle, lower) {
        AsciiMatchesAsCharacters(q, Lower(h, lower));
      }
    } else {
      var i :| 0 <= i < |q| && !((q[i] as int) < 0x80);
      var h := BytesMatchMore(needle, i, lower);
    }
  }
}
