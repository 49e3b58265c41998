/** Shell quoting of paths (internal/app/cmux/usecase.go, internal/app/shellaction/usecase.go). A path is
    any sequence of bytes. */
module ShellQuote {
  import opened Text
  import opened Bytes

  type Word = seq<Byte>

  const SINGLE: Byte := 39
  const DOUBLE: Byte := 34
  const BACKSLASH: Byte := 92
  const BACKQUOTE: Byte := 96
  const DOLLAR: Byte := 36
  const NEWLINE: Byte := 10
  const SLASH: Byte := 47

  const HOME: Word := [72, 79, 77, 69]

  // ----- The shell's reader: sections 2.2.2 and 2.2.3 of the POSIX Shell Command Language -----

  datatype Mode = Outside | Single | Double

  predicate NameByte(b: Byte) {
    97 <= b <= 122 || 65 <= b <= 90 || 48 <= b <= 57 || b == 95
  }

  function NameLength(s: Word): (n: nat)
    ensures n <= |s|
  {
    if s == [] || !NameByte(s[0]) then 0 else 1 + NameLength(s[1..])
  }

  function Prepend(front: Word, rest: Option<Word>): Option<Word> {
    if rest.None? then None else Some(front + rest.value)
  }

  /** The value of a word made of quoted parts, with HOME as the only variable that is set. None for
      anything else: unquoted text, a missing closing quote, another expansion. */
  function ReadFrom(s: Word, mode: Mode, home: Word): Option<Word>
    decreases |s|
  {
    match mode
    case Outside =>
      if s == [] then Some([])
      else if s[0] == SINGLE then ReadFrom(s[1..], Single, home)
      else if s[0] == DOUBLE then ReadFrom(s[1..], Double, home)
      else None
    case Single =>
      if s == [] then None
      else if s[0] == SINGLE then ReadFrom(s[1..], Outside, home)
      else Prepend([s[0]], ReadFrom(s[1..], Single, home))
    case Double =>
      if s == [] || s[0] == BACKQUOTE then None
      else if s[0] == DOUBLE then ReadFrom(s[1..], Outside, home)
      else if s[0] == DOLLAR then
        var n := NameLength(s[1..]);
        if s[1..1 + n] == HOME then Prepend(home, ReadFrom(s[1 + n..], Double, home)) else None
      else if s[0] == BACKSLASH && |s| > 1 && s[1] == NEWLINE then ReadFrom(s[2..], Double, home)
      else if s[0] == BACKSLASH && |s| > 1 && Special(s[1]) then Prepend([s[1]], ReadFrom(s[2..], Double, home))
      else Prepend([s[0]], ReadFrom(s[1..], Double, home))
  }

  /** The characters that a backslash quotes inside double quotes, next to newline. */
  predicate Special(b: Byte) {
    b == DOLLAR || b == BACKQUOTE || b == DOUBLE || b == BACKSLASH
  }

  function ReadWord(word: Word, home: Word): Option<Word> {
    ReadFrom(word, Outside, home)
  }

  // ----- The quoting functions -----

  /** A quote inside single quotes: close them, quote it with double quotes, open them again. */
  const QUOTED_QUOTE: Word := [SINGLE, DOUBLE, SINGLE, DOUBLE, SINGLE]

  /** strings.ReplaceAll for the single quote. */
  function ReplaceQuotes(s: Word): Word {
    if s == [] then [] else (if s[0] == SINGLE then QUOTED_QUOTE else [s[0]]) + ReplaceQuotes(s[1..])
  }

  function QuoteSingle(s: Word): Word {
    if s == [] then [SINGLE, SINGLE] else [SINGLE] + ReplaceQuotes(s) + [SINGLE]
  }

  function EscapeForDouble(s: Word): Word {
    if s == [] then [] else (if Special(s[0]) then [BACKSLASH, s[0]] else [s[0]]) + EscapeForDouble(s[1..])
  }

  predicate UnderHome(path: Word, home: Word) {
    path == home || home + [SLASH] <= path
  }

  /** `home` is None when the home directory is not known. */
  function QuoteCDPath(path: Word, home: Option<Word>): Word {
    if home.Some? && path == home.value then [DOUBLE, DOLLAR] + HOME + [DOUBLE]
    else if home.Some? && home.value + [SLASH] <= path then
      [DOUBLE, DOLLAR] + HOME + [SLASH] + EscapeForDouble(path[|home.value| + 1..]) + [DOUBLE]
    else QuoteSingle(path)
  }

  // ----- Reading gives back what was quoted -----

  lemma {:induction false} QuotedQuoteReads(rest: Word, home: Word)
    ensures ReadFrom(QUOTED_QUOTE + rest, Single, home) == Prepend([SINGLE], ReadFrom(rest, Single, home))
  {
    var w := QUOTED_QUOTE + rest;
    assert w[1..][0] == DOUBLE && w[1..][1..] == w[2..] && w[2..][1..] == w[3..] && w[3..][1..] == w[4..]
        && w[4..][1..] == rest;
    assert ReadFrom(w[4..], Outside, home) == ReadFrom(rest, Single, home);
    assert ReadFrom(w[3..], Double, home) == ReadFrom(w[4..], Outside, home);
    assert ReadFrom(w[2..], Double, home) == Prepend([SINGLE], ReadFrom(w[3..], Double, home));
  }

  lemma {:induction false} SingleBodyReads(s: Word, home: Word)
    ensures ReadFrom(ReplaceQuotes(s) + [SINGLE], Single, home) == Some(s)
  {
    if s == [] {
      assert [] + [SINGLE] == [SINGLE] && [SINGLE][1..] == [];
    } else {
      SingleBodyReads(s[1..], home);
      var rest, w := ReplaceQuotes(s[1..]) + [SINGLE], ReplaceQuotes(s) + [SINGLE];
      assert s == [s[0]] + s[1..];
      if s[0] == SINGLE {
        assert w == QUOTED_QUOTE + rest;
        QuotedQuoteReads(rest, home);
      } else {
        assert w == [s[0]] + rest && w[1..] == rest;
      }
    }
  }

  /** Whatever HOME is, the single-quoted word is the string. */
  lemma {:induction false} QuoteSingleReads(s: Word, home: Word)
    ensures ReadWord(QuoteSingle(s), home) == Some(s)
  {
    SingleBodyReads(s, home);
    var w := QuoteSingle(s);
    assert w == [SINGLE] + (ReplaceQuotes(s) + [SINGLE]);
    assert w[1..] == ReplaceQuotes(s) + [SINGLE];
  }

  lemma {:induction false} DoubleBodyReads(s: Word, home: Word)
    ensures ReadFrom(EscapeForDouble(s) + [DOUBLE], Double, home) == Some(s)
  {
    if s == [] {
      assert [] + [DOUBLE] == [DOUBLE] && [DOUBLE][1..] == [];
    } else {
      DoubleBodyReads(s[1..], home);
      var rest, w := EscapeForDouble(s[1..]) + [DOUBLE], EscapeForDouble(s) + [DOUBLE];
      assert s == [s[0]] + s[1..];
      if Special(s[0]) {
        assert w == [BACKSLASH, s[0]] + rest && w[2..] == rest;
      } else {
        assert w == [s[0]] + rest && w[1..] == rest;
      }
    }
  }

  lemma {:induction false} HomeReads(rest: Word, home: Word)
    requires rest != [] && !NameByte(rest[0])
    ensures ReadWord([DOUBLE, DOLLAR] + HOME + rest, home) == Prepend(home, ReadFrom(rest, Double, home))
  {
    var w := [DOUBLE, DOLLAR] + HOME + rest;
    var v := w[1..];
    assert v == [DOLLAR] + HOME + rest;
    var u := v[1..];
    assert u == HOME + rest;
    assert u[1..][1..][1..][1..] == rest;
    assert NameLength(rest) == 0;
    assert NameLength(u[1..][1..][1..]) == 1 && NameLength(u[1..][1..]) == 2 && NameLength(u[1..]) == 3;
    assert NameLength(u) == 4 && v[0] == DOLLAR;
    assert v[1..1 + NameLength(u)] == HOME && v[1 + NameLength(u)..] == rest;
    assert ReadFrom(v, Double, home) == Prepend(home, ReadFrom(rest, Double, home));
    assert w[0] == DOUBLE;
  }

  /** What the shell reads for a path under the home directory: the path below its own HOME. */
  lemma {:induction false} HomePathReads(path: Word, home: Word, shellHome: Word)
    requires UnderHome(path, home)
    ensures ReadWord(QuoteCDPath(path, Some(home)), shellHome) == Some(shellHome + path[|home|..])
  {
    if path == home {
      HomeReads([DOUBLE], shellHome);
      assert [DOUBLE][1..] == [] && path[|home|..] == [];
    } else {
      var below := path[|home| + 1..];
      assert path[|home|] == (home + [SLASH])[|home|];
      assert path[|home|..] == [SLASH] + below;
      var rest := [SLASH] + (EscapeForDouble(below) + [DOUBLE]);
      assert [DOUBLE, DOLLAR] + HOME + [SLASH] + EscapeForDouble(below) + [DOUBLE] == [DOUBLE, DOLLAR] + HOME + rest;
      HomeReads(rest, shellHome);
      assert rest[1..] == EscapeForDouble(below) + [DOUBLE];
      DoubleBodyReads(below, shellHome);
    }
  }

  /** The word for `cd` is read as the path exactly when the shell's HOME is the home directory that
      the program saw, or the path is not under that directory. */
  lemma {:induction false} CDPathReadsIff(path: Word, home: Word, shellHome: Word)
    ensures ReadWord(QuoteCDPath(path, Some(home)), shellHome) == Some(path) <==>
        shellHome == home || !UnderHome(path, home)
  {
    if UnderHome(path, home) {
      HomePathReads(path, home, shellHome);
      assert path[..|home|] == home by {
        if path != home { assert path[..|home| + 1] == home + [SLASH]; }
      }
      assert path == home + path[|home|..];
      if shellHome + path[|home|..] == path {
        assert |shellHome| == |home|;
        assert (shellHome + path[|home|..])[..|home|] == shellHome;
      }
    } else {
      QuoteSingleReads(path, shellHome);
    }
  }

  lemma {:induction false} UnknownHomeReads(path: Word, shellHome: Word)
    ensures ReadWord(QuoteCDPath(path, None), shellHome) == Some(path)
  {
    QuoteSingleReads(path, shellHome);
  }

  // ----- The loop over runes -----

  lemma {:induction false} ReplaceConcat(a: Word, b: Word)
    ensures ReplaceQuotes(a + b) == ReplaceQuotes(a) + ReplaceQuotes(b)
  {
    if a == [] {
      assert a + b == b;
    } else {
      assert (a + b)[1..] == a[1..] + b;
      ReplaceConcat(a[1..], b);
    }
  }

  lemma {:induction false} NothingToReplace(s: Word)
    requires SINGLE !in s
    ensures ReplaceQuotes(s) == s
  {
    if s != [] {
      NothingToReplace(s[1..]);
      assert s == [s[0]] + s[1..];
    }
  }

  /** One rune written back: the quoted quote for a quote, else its bytes. */
  lemma {:induction false} RuneReplaced(c: char)
    ensures ReplaceQuotes(Utf8(c)) == if c == '\'' then QUOTED_QUOTE else Utf8(c)
  {
    if c == '\'' {
      assert Utf8(c) == [SINGLE] && [SINGLE][1..] == [];
    } else {
      NothingToReplace(Utf8(c));
    }
  }

  /** The pieces of the runes, one after the other. */
  function Pieces(rs: string, piece: char -> Word): Word {
    if rs == "" then [] else Pieces(rs[..|rs| - 1], piece) + piece(rs[|rs| - 1])
  }

  function QuotePiece(c: char): Word {
    if c == '\'' then QUOTED_QUOTE else Utf8(c)
  }

  lemma {:induction false} PiecesReplaced(rs: string)
    ensures Pieces(rs, QuotePiece) == ReplaceQuotes(Encode(rs))
  {
    if rs != "" {
      var front, c := rs[..|rs| - 1], rs[|rs| - 1];
      PiecesReplaced(front);
      assert rs == front + [c];
      EncodeConcat(front, [c]);
      EncodeOne(c);
      ReplaceConcat(Encode(front), Utf8(c));
      RuneReplaced(c);
    }
  }

  /** The loop over the runes with the text for each. */
  method AppendPieces(rs: string, piece: char -> Word) returns (out: Word)
    ensures out == [SINGLE] + Pieces(rs, piece) + [SINGLE]
  {
    out := [SINGLE];
    for i := 0 to |rs|
      invariant out == [SINGLE] + Pieces(rs[..i], piece)
    {
      assert rs[..i + 1][..i] == rs[..i];
      out := out + piece(rs[i]);
    }
    assert rs[..|rs|] == rs;
    out := out + [SINGLE];
  }

  /** The quoting loop of the shell action. It writes the runes of the text back, so it gives the word of
      the other quoting function, and a shell reads it as the text, exactly when the text is valid UTF-8. */
  method ShellSingleQuote(s: Word) returns (out: Word)
    ensures out == QuoteSingle(Sanitize(s))
    ensures out == QuoteSingle(s) <==> ValidUtf8(s)
    ensures forall home :: ReadWord(out, home) == Some(s) <==> ValidUtf8(s)
  {
    LoopWordIff(s);
    if s == [] {
      return [SINGLE, SINGLE];
    }
    SanitizeGrows(s);
    out := AppendPieces(Runes(s), QuotePiece);
    PiecesReplaced(Runes(s));
  }

  lemma {:induction false} LoopWordIff(s: Word)
    ensures QuoteSingle(Sanitize(s)) == QuoteSingle(s) <==> ValidUtf8(s)
    ensures forall home :: ReadWord(QuoteSingle(Sanitize(s)), home) == Some(s) <==> ValidUtf8(s)
  {
    SanitizeKeepsIff(s);
    QuoteSingleReads(s, []);
    forall home ensures ReadWord(QuoteSingle(Sanitize(s)), home) == Some(s) <==> ValidUtf8(s) {
      QuoteSingleReads(Sanitize(s), home);
    }
    QuoteSingleReads(Sanitize(s), []);
  }

  /** The byte 0xFF starts no character: the loop writes U+FFFD for it, and `cd` gets another path. */
  lemma {:induction false} LoopChangesBadBytes(home: Word)
    ensures Sanitize([0xFF]) == Utf8(REPLACEMENT) && !ValidUtf8([0xFF])
    ensures ReadWord(QuoteSingle([0xFF]), home) == Some([0xFF])
    ensures ReadWord(QuoteSingle(Sanitize([0xFF])), home) == Some([0xEF, 0xBF, 0xBD])
  {
    var s: Word := [0xFF];
    assert DecodeFirst(s) == Bad && s[1..] == [];
    assert Sanitize(s) == Utf8(REPLACEMENT) + [] == [0xEF, 0xBF, 0xBD];
    SanitizeKeepsIff(s);
    QuoteSingleReads(s, home);
    QuoteSingleReads(Sanitize(s), home);
  }
}
