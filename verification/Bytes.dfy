/** Strings as bytes: UTF-8, and what Go's loop over the runes of a string makes of any bytes. */
module Bytes {

  type Byte = b: int | 0 <= b < 256

  /** The UTF-8 bytes of a character. */
  function Utf8(c: char): seq<Byte> {
    var n := c as int;
    if n < 0x80 then [n]
    else if n < 0x800 then [0xC0 + n / 0x40, 0x80 + n % 0x40]
    else if n < 0x10000 then [0xE0 + n / 0x40 / 0x40, 0x80 + n / 0x40 % 0x40, 0x80 + n % 0x40]
    else [0xF0 + n / 0x40 / 0x40 / 0x40, 0x80 + n / 0x40 / 0x40 % 0x40, 0x80 + n / 0x40 % 0x40, 0x80 + n % 0x40]
  }

  function Encode(s: string): seq<Byte> {
    if s == "" then [] else Utf8(s[0]) + Encode(s[1..])
  }

  lemma {:induction false} EncodeConcat(a: string, b: string)
    ensures Encode(a + b) == Encode(a) + Encode(b)
  {
    if a == "" {
      assert a + b == b;
    } else {
      assert (a + b)[1..] == a[1..] + b;
      EncodeConcat(a[1..], b);
    }
  }

  lemma {:induction false} EncodeOne(c: char)
    ensures Encode([c]) == Utf8(c)
  {
    assert [c][1..] == "";
  }

  ghost predicate ValidUtf8(s: seq<Byte>) {
    exists t :: s == Encode(t)
  }

  // ----- Decoding -----

  datatype Decoded = Rune(c: char, size: nat) | Bad

  predicate Continues(s: seq<Byte>, i: nat) {
    i < |s| && 0x80 <= s[i] < 0xC0
  }

  /** The bytes that may follow a first byte. */
  predicate Second(first: Byte, b: Byte) {
    if first == 0xE0 then 0xA0 <= b < 0xC0
    else if first == 0xED then 0x80 <= b < 0xA0
    else if first == 0xF0 then 0x90 <= b < 0xC0
    else if first == 0xF4 then 0x80 <= b < 0x90
    else 0x80 <= b < 0xC0
  }

  /** Append the six bits of a continuation byte. */
  function More(n: int, b: Byte): int {
    n * 0x40 + (b - 0x80)
  }

  lemma {:induction false} MoreParts(n: int, b: Byte)
    requires 0x80 <= b < 0xC0
    ensures More(n, b) / 0x40 == n && More(n, b) % 0x40 == b - 0x80
  {
  }

  /** The number that the first byte and the continuation bytes stand for. */
  function Code(s: seq<Byte>, size: nat, first: int): int
    requires 2 <= size <= 4 && size <= |s|
  {
    var two := More(first, s[1]);
    if size == 2 then two else if size == 3 then More(two, s[2]) else More(More(two, s[2]), s[3])
  }

  /** The length that a first byte announces, 0 if it starts no character. */
  function Size(s: seq<Byte>): (n: nat)
    requires s != []
    ensures n <= |s|
  {
    var b := s[0];
    if b < 0x80 then 1
    else if |s| < 2 || !Second(b, s[1]) then 0
    else if 0xC2 <= b < 0xE0 then 2
    else if 0xE0 <= b < 0xF0 && Continues(s, 2) then 3
    else if 0xF0 <= b < 0xF5 && Continues(s, 2) && Continues(s, 3) then 4
    else 0
  }

  function FirstBits(b: Byte, size: nat): int {
    if size == 2 then b - 0xC0 else if size == 3 then b - 0xE0 else b - 0xF0
  }

  lemma {:induction false} CodeIsCharacter(s: seq<Byte>)
    requires s != [] && Size(s) >= 2
    ensures var n := Code(s, Size(s), FirstBits(s[0], Size(s)));
            && (Size(s) == 2 ==> 0x80 <= n < 0x800)
            && (Size(s) == 3 ==> 0x800 <= n < 0x10000 && !(0xD800 <= n < 0xE000))
            && (Size(s) == 4 ==> 0x10000 <= n < 0x110000)
  {
  }

  /** utf8.DecodeRune: the first character, or Bad for a byte that starts none. */
  function DecodeFirst(s: seq<Byte>): Decoded
    requires s != []
  {
    var n := Size(s);
    if n == 0 then Bad
    else if n == 1 then Rune(s[0] as char, 1)
    else
      CodeIsCharacter(s);
      Rune(Code(s, n, FirstBits(s[0], n)) as char, n)
  }

  lemma {:induction false} DecodeIsRight(s: seq<Byte>)
    requires s != [] && DecodeFirst(s).Rune?
    ensures var d := DecodeFirst(s); 0 < d.size <= |s| && s[..d.size] == Utf8(d.c)
  {
    var n := Size(s);
    if n >= 2 {
      CodeIsCharacter(s);
      var first := FirstBits(s[0], n);
      MoreParts(first, s[1]);
      if n >= 3 { MoreParts(More(first, s[1]), s[2]); }
      if n == 4 { MoreParts(More(More(first, s[1]), s[2]), s[3]); }
    }
  }

  lemma {:induction false} SizeOfEncoded(c: char, rest: seq<Byte>)
    ensures Size(Utf8(c) + rest) == |Utf8(c)|
  {
  }

  lemma {:induction false} DecodeOfEncoded(c: char, rest: seq<Byte>)
    ensures DecodeFirst(Utf8(c) + rest) == Rune(c, |Utf8(c)|)
  {
    SizeOfEncoded(c, rest);
  }

  const REPLACEMENT := 0xFFFD as char

  /** What one turn of a loop over the runes takes: a character, or U+FFFD for a byte that starts none. */
  function Next(s: seq<Byte>): (d: Decoded)
    requires s != []
    ensures d.Rune? && 0 < d.size <= |s|
  {
    var d := DecodeFirst(s);
    if d.Bad? then Rune(REPLACEMENT, 1)
    else
      DecodeIsRight(s);
      d
  }

  /** The runes that the loop visits. */
  function Runes(s: seq<Byte>): string
    decreases |s|
  {
    if s == [] then "" else [Next(s).c] + Runes(s[Next(s).size..])
  }

  /** The bytes after such a loop has written each rune back. */
  function Sanitize(s: seq<Byte>): seq<Byte> {
    Encode(Runes(s))
  }

  /** A bad byte is written back as three, a character as itself. */
  lemma {:induction false} NextGrows(s: seq<Byte>)
    requires s != []
    ensures var d := Next(s); |Utf8(d.c)| >= d.size && (|Utf8(d.c)| == d.size ==> s[..d.size] == Utf8(d.c))
  {
    if DecodeFirst(s).Rune? { DecodeIsRight(s); }
  }

  lemma {:induction false} SanitizeStep(s: seq<Byte>)
    requires s != []
    ensures Sanitize(s) == Utf8(Next(s).c) + Sanitize(s[Next(s).size..])
  {
    assert Runes(s)[1..] == Runes(s[Next(s).size..]);
  }

  lemma {:induction false} ValidPrepend(s: seq<Byte>, c: char, rest: seq<Byte>)
    requires s == Utf8(c) + rest && ValidUtf8(rest)
    ensures ValidUtf8(s)
  {
    var t :| rest == Encode(t);
    EncodeConcat([c], t);
    EncodeOne(c);
    assert s == Encode([c] + t);
  }

  /** One turn of the loop: it takes `front` off the text and visits c. */
  lemma {:induction false} Turn(s: seq<Byte>) returns (c: char, front: seq<Byte>, rest: seq<Byte>)
    requires s != []
    ensures s == front + rest && front != [] && Runes(s) == [c] + Runes(rest)
    ensures |Utf8(c)| >= |front| && (|Utf8(c)| == |front| ==> front == Utf8(c))
  {
    var d := Next(s);
    c, front, rest := d.c, s[..d.size], s[d.size..];
    NextGrows(s);
  }

  /** Every bad byte makes the text longer. */
  lemma {:induction false} SanitizeGrows(s: seq<Byte>)
    ensures |Sanitize(s)| >= |s|
    ensures |Sanitize(s)| == |s| ==> ValidUtf8(s)
    decreases |s|
  {
    if s == [] {
      assert s == Encode("");
    } else {
      var c, front, rest := Turn(s);
      SanitizeGrows(rest);
      EncodeConcat([c], Runes(rest));
      EncodeOne(c);
      if |Utf8(c)| == |front| && ValidUtf8(rest) { ValidPrepend(s, c, rest); }
    }
  }

  lemma {:induction false} SanitizeOfEncoded(t: string)
    ensures Sanitize(Encode(t)) == Encode(t)
  {
    if t != "" {
      DecodeOfEncoded(t[0], Encode(t[1..]));
      SanitizeOfEncoded(t[1..]);
      SanitizeStep(Encode(t));
      assert Encode(t)[|Utf8(t[0])|..] == Encode(t[1..]);
    }
  }

  /** The loop keeps the bytes exactly when they are valid UTF-8. */
  lemma {:induction false} SanitizeKeepsIff(s: seq<Byte>)
    ensures Sanitize(s) == s <==> ValidUtf8(s)
  {
    SanitizeGrows(s);
    if t :| s == Encode(t) { SanitizeOfEncoded(t); }
  }
}
