/** String helpers that mirror the Go `strings` package on sequences of code points. */
module Text {

  datatype Option<+T> = None | Some(value: T)

  datatype Result<+T> = Success(value: T) | Failure(error: string)

  /** Go's unicode.IsSpace. */
  predicate IsSpace(c: char) {
    var n := c as int;
    || (9 <= n <= 13) || n == 32 || n == 0x85 || n == 0xA0 || n == 0x1680
    || (0x2000 <= n <= 0x200A) || n == 0x2028 || n == 0x2029 || n == 0x202F || n == 0x205F || n == 0x3000
  }

  function TrimLeft(s: string): string {
    if s != "" && IsSpace(s[0]) then TrimLeft(s[1..]) else s
  }

  function TrimRight(s: string): string {
    if s != "" && IsSpace(s[|s| - 1]) then TrimRight(s[..|s| - 1]) else s
  }

  /** strings.TrimSpace. */
  function Trim(s: string): string {
    TrimRight(TrimLeft(s))
  }

  predicate Trimmed(s: string) {
    s == "" || (!IsSpace(s[0]) && !IsSpace(s[|s| - 1]))
  }

  lemma {:induction false} TrimLeftIsSuffix(s: string)
    ensures var r := TrimLeft(s);
            && |r| <= |s| && r == s[|s| - |r|..]
            && (forall i :: 0 <= i < |s| - |r| ==> IsSpace(s[i]))
            && (r != "" ==> !IsSpace(r[0]))
  {
    if s != "" && IsSpace(s[0]) {
      TrimLeftIsSuffix(s[1..]);
      assert forall i :: 0 < i < |s| ==> s[i] == s[1..][i - 1];
    }
  }

  lemma {:induction false} TrimRightIsPrefix(s: string)
    ensures var r := TrimRight(s);
            && |r| <= |s| && r == s[..|r|]
            && (forall i :: |r| <= i < |s| ==> IsSpace(s[i]))
            && (r != "" ==> !IsSpace(r[|r| - 1]))
  {
    if s != "" && IsSpace(s[|s| - 1]) { TrimRightIsPrefix(s[..|s| - 1]); }
  }

  lemma {:induction false} TrimIsTrimmed(s: string)
    ensures Trimmed(Trim(s)) && |Trim(s)| <= |s|
  {
    TrimLeftIsSuffix(s);
    TrimRightIsPrefix(TrimLeft(s));
  }

  lemma {:induction false} TrimOfTrimmed(s: string)
    requires Trimmed(s)
    ensures Trim(s) == s
  {
  }

  /** strings.Compare(a, b) <= 0: lexicographic order of code points. */
  predicate StrLe(a: string, b: string) {
    a == "" || (b != "" && (a[0] < b[0] || (a[0] == b[0] && StrLe(a[1..], b[1..]))))
  }

  lemma {:induction false} StrLeRefl(a: string)
    ensures StrLe(a, a)
  {
    if a != "" { StrLeRefl(a[1..]); }
  }

  lemma {:induction false} StrLeTotal(a: string, b: string)
    ensures StrLe(a, b) || StrLe(b, a)
  {
    if a != "" && b != "" { StrLeTotal(a[1..], b[1..]); }
  }

  lemma {:induction false} StrLeTrans(a: string, b: string, c: string)
    requires StrLe(a, b) && StrLe(b, c)
    ensures StrLe(a, c)
  {
    if a != "" && b != "" && c != "" && a[0] == b[0] == c[0] {
      StrLeTrans(a[1..], b[1..], c[1..]);
    }
  }

  lemma {:induction false} StrLeAntisym(a: string, b: string)
    requires StrLe(a, b) && StrLe(b, a)
    ensures a == b
  {
    if a != "" && b != "" {
      StrLeAntisym(a[1..], b[1..]);
      assert a == [a[0]] + a[1..] && b == [b[0]] + b[1..];
    }
  }

  // ----- strings.Index, Split, Trim and TrimSuffix for one separator -----

  function IndexOf(s: string, c: char): (i: nat)
    ensures i <= |s|
  {
    if s == "" || s[0] == c then 0 else 1 + IndexOf(s[1..], c)
  }

  function Split(s: string, c: char): (parts: seq<string>)
    ensures parts != []
    decreases |s|
  {
    var i := IndexOf(s, c);
    if i == |s| then [s] else [s[..i]] + Split(s[i + 1..], c)
  }

  function TrimCharLeft(s: string, c: char): string {
    if s != "" && s[0] == c then TrimCharLeft(s[1..], c) else s
  }

  function TrimCharRight(s: string, c: char): string {
    if s != "" && s[|s| - 1] == c then TrimCharRight(s[..|s| - 1], c) else s
  }

  function TrimChar(s: string, c: char): string {
    TrimCharRight(TrimCharLeft(s, c), c)
  }

  predicate HasSuffix(s: string, suffix: string) {
    |suffix| <= |s| && s[|s| - |suffix|..] == suffix
  }

  function TrimSuffix(s: string, suffix: string): string {
    if HasSuffix(s, suffix) then s[..|s| - |suffix|] else s
  }

  lemma {:induction false} IndexOfFirst(a: string, c: char, b: string)
    requires c !in a
    ensures IndexOf(a + [c] + b, c) == |a|
    ensures IndexOf(a, c) == |a|
  {
    if a != "" {
      assert (a + [c] + b)[1..] == a[1..] + [c] + b;
      IndexOfFirst(a[1..], c, b);
    }
  }

  lemma {:induction false} SplitFirst(a: string, c: char, b: string)
    requires c !in a
    ensures Split(a + [c] + b, c) == [a] + Split(b, c)
    ensures Split(a, c) == [a]
  {
    IndexOfFirst(a, c, b);
    var s := a + [c] + b;
    assert s[..|a|] == a && s[|a| + 1..] == b;
  }

  predicate HasPrefix(s: string, prefix: string) {
    |prefix| <= |s| && s[..|prefix|] == prefix
  }

  function TrimPrefix(s: string, prefix: string): string {
    if HasPrefix(s, prefix) then s[|prefix|..] else s
  }

  // ----- strings.Fields -----

  function WordLength(s: string): (n: nat)
    ensures n <= |s|
    ensures s != "" && !IsSpace(s[0]) ==> n > 0
  {
    if s == "" || IsSpace(s[0]) then 0 else 1 + WordLength(s[1..])
  }

  function Fields(s: string): seq<string> {
    if s == "" then []
    else if IsSpace(s[0]) then Fields(s[1..])
    else [s[..WordLength(s)]] + Fields(s[WordLength(s)..])
  }
}
