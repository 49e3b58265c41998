/** Reading `git status --porcelain=v2 --branch` (internal/cli/git_status_snapshot.go). */
module GitStatus {
  import opened Text
  import opened Counting

  datatype Snapshot = Snapshot(
    upstream: string, ahead: int, behind: int, dirty: bool, detached: bool, headMissing: bool,
    branch: string, staged: nat, unstaged: nat, untracked: nat)

  const EMPTY := Snapshot("", 0, 0, false, false, false, "", 0, 0, 0)

  // ----- strconv.Atoi -----

  predicate IsDigit(c: char) {
    '0' <= c <= '9'
  }

  function Value(digits: string): nat
    requires forall i :: 0 <= i < |digits| ==> IsDigit(digits[i])
  {
    if digits == "" then 0
    else
      assert IsDigit(digits[|digits| - 1]);
      Value(digits[..|digits| - 1]) * 10 + (digits[|digits| - 1] as int - '0' as int)
  }

  const INT_LIMIT := 0x8000_0000_0000_0000

  function Atoi(s: string): Option<int> {
    var negative := HasPrefix(s, "-");
    var digits := if negative || HasPrefix(s, "+") then s[1..] else s;
    if digits == "" || exists i :: 0 <= i < |digits| && !IsDigit(digits[i]) then None
    else
      var v: int := Value(digits);
      var n := if negative then -v else v;
      if -INT_LIMIT <= n < INT_LIMIT then Some(n) else None
  }

  // ----- The reader, line by line -----

  function ReadAheadBehind(raw: string): Option<(int, int)> {
    var parts := Fields(raw);
    if |parts| != 2 then None
    else
      var ahead, behind := Atoi(TrimPrefix(parts[0], "+")), Atoi(TrimPrefix(parts[1], "-"));
      if ahead.None? || behind.None? then None else Some((ahead.value, behind.value))
  }

  function ReadHeader(raw: string, s: Snapshot): Result<Snapshot> {
    var line := Trim(TrimPrefix(raw, "#"));
    var i := IndexOf(line, ' ');
    if i == |line| then Success(s)
    else
      ApplyHeader(Trim(line[..i]), Trim(line[i + 1..]), s)
  }

  function ApplyHeader(key: string, value: string, s: Snapshot): Result<Snapshot> {
    if key == "branch.oid" then Success(s.(headMissing := value == "(initial)" || value == "(unknown)"))
    else if key == "branch.head" then
      if value == "(detached)" then Success(s.(detached := true, branch := ""))
      else if value == "(unknown)" then Success(s.(branch := ""))
      else Success(s.(branch := value))
    else if key == "branch.upstream" then Success(s.(upstream := value))
    else if key == "branch.ab" then
      match ReadAheadBehind(value)
      case None => Failure("unexpected branch.ab")
      case Some(ab) => Success(s.(ahead := ab.0, behind := ab.1))
    else Success(s)
  }

  datatype Reading = Skipped | NewFile | Change(x: char, y: char)

  predicate Marked(line: string, c: char) {
    |line| >= 2 && line[0] == c && line[1] == ' '
  }

  function ReadEntry(line: string): Result<Reading> {
    ReadTrimmed(Trim(line))
  }

  function ReadTrimmed(line: string): Result<Reading> {
    if Marked(line, '?') then Success(if Trim(line[2..]) == "" then Skipped else NewFile)
    else if Marked(line, '!') then Success(Skipped)
    else if Marked(line, '1') || Marked(line, '2') || Marked(line, 'u') then
      var fields := Fields(line);
      if |fields| < 3 then Failure("unexpected porcelain v2 status line")
      else if |fields[1]| != 2 then Failure("unexpected porcelain v2 XY field")
      else Success(Change(fields[1][0], fields[1][1]))
    else Success(Skipped)
  }

  function ReadLine(raw: string, s: Snapshot): Result<Snapshot> {
    var line := TrimCharRight(raw, '\r');
    if Trim(line) == "" then Success(s)
    else if Marked(line, '#') then ReadHeader(line, s)
    else
      match ReadEntry(line)
      case Failure(e) => Failure(e)
      case Success(Skipped) => Success(s)
      case Success(NewFile) => Success(s.(dirty := true, untracked := s.untracked + 1))
      case Success(Change(x, y)) =>
        Success(s.(dirty := true, staged := s.staged + (if x != '.' then 1 else 0),
            unstaged := s.unstaged + (if y != '.' then 1 else 0)))
  }

  function ReadLines(lines: seq<string>, n: nat): Result<Snapshot>
    requires n <= |lines|
  {
    if n == 0 then Success(EMPTY)
    else
      match ReadLines(lines, n - 1)
      case Failure(e) => Failure(e)
      case Success(s) => ReadLine(lines[n - 1], s)
  }

  function Read(raw: string): Result<Snapshot> {
    var lines := Split(raw, '\n');
    ReadLines(lines, |lines|)
  }

  lemma {:induction false} ReadingFails(lines: seq<string>, k: nat, n: nat)
    requires k <= n <= |lines| && ReadLines(lines, k).Failure?
    ensures ReadLines(lines, n) == ReadLines(lines, k)
  {
    if k < n { ReadingFails(lines, k, n - 1); }
  }

  /** A change line without its two-letter field or without a field after it. */
  predicate BadChange(line: string) {
    && |line| >= 2 && line[0] in {'1', '2', 'u'} && line[1] == ' '
    && (|Fields(line)| < 3 || |Fields(line)[1]| != 2)
  }

  /** A branch.ab header that is not followed by two numbers. */
  predicate BadAheadBehind(line: string) {
    var text := Trim(TrimPrefix(line, "#"));
    var i := IndexOf(text, ' ');
    i < |text| && Trim(text[..i]) == "branch.ab" && ReadAheadBehind(Trim(text[i + 1..])).None?
  }

  predicate BadLine(raw: string) {
    var line := TrimCharRight(raw, '\r');
    Trim(line) != "" && (if Marked(line, '#') then BadAheadBehind(line) else BadChange(Trim(line)))
  }

  ghost predicate HasBadLine(lines: seq<string>, n: nat)
    requires n <= |lines|
  {
    exists k :: 0 <= k < n && BadLine(lines[k])
  }

  lemma {:induction false} LineFailsIffBad(raw: string, s: Snapshot)
    ensures ReadLine(raw, s).Failure? <==> BadLine(raw)
  {
    var line := TrimCharRight(raw, '\r');
    if !Marked(line, '#') { assert ReadTrimmed(Trim(line)).Failure? <==> BadChange(Trim(line)); }
  }

  lemma {:induction false} FailsAtLine(lines: seq<string>, n: nat)
    requires n < |lines|
    ensures ReadLines(lines, n + 1).Failure? <==> ReadLines(lines, n).Failure? || BadLine(lines[n])
  {
    if ReadLines(lines, n).Success? { LineFailsIffBad(lines[n], ReadLines(lines, n).value); }
  }

  /** What fails with the first bad line fails if and only if there is one. */
  lemma {:induction false} FailsOnceBad(fails: nat -> bool, bad: nat -> bool, n: nat)
    requires !fails(0) && forall k: nat :: k < n ==> (fails(k + 1) <==> fails(k) || bad(k))
    ensures fails(n) <==> exists k: nat :: k < n && bad(k)
  {
    if n > 0 {
      FailsOnceBad(fails, bad, n - 1);
      assert fails(n) <==> fails(n - 1) || bad(n - 1);
    }
  }

  /** Reading fails exactly on an output with a bad line, wherever that is. */
  lemma {:induction false} FailsIffBadLine(lines: seq<string>, n: nat)
    requires n <= |lines|
    ensures ReadLines(lines, n).Failure? <==> HasBadLine(lines, n)
  {
    var fails := (k: nat) => k <= |lines| && ReadLines(lines, k).Failure?;
    var bad := (k: nat) => k < |lines| && BadLine(lines[k]);
    forall k: nat | k < n ensures fails(k + 1) <==> fails(k) || bad(k) { FailsAtLine(lines, k); }
    FailsOnceBad(fails, bad, n);
    if HasBadLine(lines, n) {
      var k :| 0 <= k < n && BadLine(lines[k]);
      assert bad(k);
    }
  }

  /** The reading loop: one line after the other, stopping at the first that cannot be read. */
  method ParseSnapshot(raw: string) returns (r: Result<Snapshot>)
    ensures r == Read(raw)
    ensures var lines := Split(raw, '\n'); r.Failure? <==> HasBadLine(lines, |lines|)
  {
    var lines := Split(raw, '\n');
    FailsIffBadLine(lines, |lines|);
    var snapshot := EMPTY;
    for i := 0 to |lines|
      invariant ReadLines(lines, i) == Success(snapshot)
    {
      var next := ReadLine(lines[i], snapshot);
      if next.Failure? {
        ReadingFails(lines, i + 1, |lines|);
        return next;
      }
      snapshot := next.value;
    }
    return Success(snapshot);
  }

  // ----- The output that git prints -----

  /** One line of output. `rest` stands for the fields after XY, the path being the last. */
  datatype Line =
    | Oid(value: string)
    | Head(value: string)
    | Upstream(value: string)
    | AheadBehind(ahead: nat, behind: nat)
    | Stash(count: nat)
    | Changed(kind: char, x: char, y: char, rest: string)
    | Untracked(path: string)
    | Ignored(path: string)

  function Decimal(n: nat): string {
    (if n < 10 then "" else Decimal(n / 10)) + [('0' as int + n % 10) as char]
  }

  predicate OneLine(s: string) {
    '\n' !in s && '\r' !in s
  }

  predicate HeaderValue(s: string) {
    s != "" && Trimmed(s) && OneLine(s)
  }

  predicate Letter(c: char) {
    !IsSpace(c) && c < 128 as char
  }

  /** What the git-status manual says of each line of Porcelain Format Version 2. */
  predicate WellFormed(line: Line) {
    match line
    case Oid(v) => HeaderValue(v)
    case Head(v) => HeaderValue(v)
    case Upstream(v) => HeaderValue(v)
    case AheadBehind(a, b) => a < INT_LIMIT && b < INT_LIMIT
    case Stash(_) => true
    case Changed(kind, x, y, rest) => (kind == '1' || kind == '2' || kind == 'u') && Letter(x) && Letter(y)
        && OneLine(rest) && Trim(rest) != ""
    case Untracked(path) => OneLine(path)
    case Ignored(path) => OneLine(path)
  }

  function Key(l: Line): string {
    match l
    case Oid(_) => "branch.oid"
    case Head(_) => "branch.head"
    case Upstream(_) => "branch.upstream"
    case AheadBehind(_, _) => "branch.ab"
    case _ => "stash"
  }

  function HeaderText(l: Line): string {
    match l
    case Oid(v) => v
    case Head(v) => v
    case Upstream(v) => v
    case AheadBehind(a, b) => ['+'] + Decimal(a) + [' '] + (['-'] + Decimal(b))
    case Stash(n) => Decimal(n)
    case _ => ""
  }

  predicate IsHeader(l: Line) {
    l.Oid? || l.Head? || l.Upstream? || l.AheadBehind? || l.Stash?
  }

  function Print(line: Line): string {
    match line
    case Changed(kind, x, y, rest) => [kind, ' ', x, y, ' '] + rest
    case Untracked(path) => ['?', ' '] + path
    case Ignored(path) => ['!', ' '] + path
    case _ => HeaderLine(Key(line), HeaderText(line))
  }

  function HeaderLine(key: string, value: string): string {
    ['#', ' '] + key + [' '] + value
  }

  function PrintAll(ls: seq<Line>): string {
    if ls == [] then "" else Print(ls[0]) + ['\n'] + PrintAll(ls[1..])
  }

  /** An untracked file whose name is made of blanks only is not seen by the reader. */
  predicate Visible(l: Line) {
    l.Untracked? && Trim(l.path) != ""
  }

  /** What a line means, by its type. */
  function Effect(l: Line, s: Snapshot): Snapshot {
    match l
    case Oid(v) => s.(headMissing := v == "(initial)" || v == "(unknown)")
    case Head(v) => s.(detached := s.detached || v == "(detached)", branch := if v == "(detached)"
        || v == "(unknown)" then "" else v)
    case Upstream(v) => s.(upstream := v)
    case AheadBehind(a, b) => s.(ahead := a, behind := b)
    case Stash(_) => s
    case Changed(_, x, y, _) =>
      s.(dirty := true, staged := s.staged + (if x != '.' then 1 else 0),
          unstaged := s.unstaged + (if y != '.' then 1 else 0))
    case Untracked(_) => if Visible(l) then s.(dirty := true, untracked := s.untracked + 1) else s
    case Ignored(_) => s
  }

  function Meaning(ls: seq<Line>): Snapshot {
    if ls == [] then EMPTY else Effect(ls[|ls| - 1], Meaning(ls[..|ls| - 1]))
  }

  // ----- Strings -----

  lemma {:induction false} TrimRightKeepsFront(a: string, b: string)
    requires TrimRight(b) != ""
    ensures TrimRight(a + b) == a + TrimRight(b)
    decreases |b|
  {
    assert (a + b)[|a + b| - 1] == b[|b| - 1];
    if IsSpace(b[|b| - 1]) {
      assert (a + b)[..|a + b| - 1] == a + b[..|b| - 1];
      TrimRightKeepsFront(a, b[..|b| - 1]);
    }
  }

  lemma {:induction false} TrimRightOfBlank(s: string)
    requires forall i :: 0 <= i < |s| ==> IsSpace(s[i])
    ensures TrimRight(s) == ""
  {
    if s != "" { TrimRightOfBlank(s[..|s| - 1]); }
  }

  /** Trim and TrimRight are empty for the same strings, the blank ones. */
  lemma {:induction false} BlankMeans(s: string)
    ensures Trim(s) == "" <==> forall i :: 0 <= i < |s| ==> IsSpace(s[i])
    ensures TrimRight(s) == "" <==> forall i :: 0 <= i < |s| ==> IsSpace(s[i])
  {
    var t := TrimLeft(s);
    TrimLeftIsSuffix(s);
    TrimRightIsPrefix(t);
    TrimRightIsPrefix(s);
    if forall i :: 0 <= i < |s| ==> IsSpace(s[i]) {
      TrimRightOfBlank(s);
      TrimRightOfBlank(t);
    }
    if Trim(s) == "" {
      forall i | 0 <= i < |s| ensures IsSpace(s[i]) {
      }
    }
  }

  lemma {:induction false} WordLengthAt(w: string, r: string)
    requires (forall i :: 0 <= i < |w| ==> !IsSpace(w[i])) && (r == "" || IsSpace(r[0]))
    ensures WordLength(w + r) == |w|
  {
    if w != "" {
      assert (w + r)[1..] == w[1..] + r;
      WordLengthAt(w[1..], r);
    } else {
      assert w + r == r;
    }
  }

  lemma {:induction false} FieldsFirst(w: string, r: string)
    requires w != "" && (forall i :: 0 <= i < |w| ==> !IsSpace(w[i])) && (r == "" || IsSpace(r[0]))
    ensures Fields(w + r) == [w] + Fields(r)
  {
    WordLengthAt(w, r);
    assert (w + r)[..|w|] == w && (w + r)[|w|..] == r;
  }

  lemma {:induction false} FieldsNext(w: string, r: string)
    requires w != "" && forall i :: 0 <= i < |w| ==> !IsSpace(w[i])
    ensures Fields(w + ([' '] + r)) == [w] + Fields(r)
  {
    FieldsFirst(w, [' '] + r);
    assert ([' '] + r)[1..] == r;
  }

  lemma {:induction false} FieldsOfText(s: string)
    requires Trim(s) != ""
    ensures Fields(s) != []
  {
    if IsSpace(s[0]) { FieldsOfText(s[1..]); }
  }

  lemma {:induction false} DecimalReads(n: nat)
    ensures var d := Decimal(n);
            && d != "" && (forall i :: 0 <= i < |d| ==> IsDigit(d[i]))
            && Value(d) == n
  {
    if n >= 10 { DecimalReads(n / 10); }
    var d := Decimal(n);
    assert d[..|d| - 1] == if n < 10 then "" else Decimal(n / 10);
  }

  lemma {:induction false} AtoiOfDecimal(n: nat)
    requires n < INT_LIMIT
    ensures Atoi(Decimal(n)) == Some(n)
  {
    DecimalReads(n);
    assert IsDigit(Decimal(n)[0]);
  }

  // ----- Each printed line is read as what it means -----

  lemma {:induction false} DigitsAreNotSpaces(d: string)
    requires forall i :: 0 <= i < |d| ==> IsDigit(d[i])
    ensures forall i :: 0 <= i < |d| ==> !IsSpace(d[i])
  {
  }

  lemma {:induction false} WordsRead(p: string, q: string)
    requires p != "" && (forall i :: 0 <= i < |p| ==> !IsSpace(p[i]))
    requires q != "" && (forall i :: 0 <= i < |q| ==> !IsSpace(q[i]))
    ensures Fields(p + [' '] + q) == [p, q]
  {
    assert p + [' '] + q == p + ([' '] + q);
    FieldsNext(p, q);
    assert q + "" == q;
    FieldsFirst(q, "");
  }

  lemma {:induction false} SignedDigits(sign: char, d: string)
    requires (forall i :: 0 <= i < |d| ==> IsDigit(d[i])) && (sign == '+' || sign == '-')
    ensures var p := [sign] + d;
            (forall i :: 0 <= i < |p| ==> !IsSpace(p[i])) && OneLine(p) && TrimPrefix(p, [sign]) == d
  {
    assert ([sign] + d)[1..] == d;
  }

  lemma {:induction false} SignedDecimal(sign: char, n: nat)
    requires n < INT_LIMIT && (sign == '+' || sign == '-')
    ensures var p := [sign] + Decimal(n);
            && (forall i :: 0 <= i < |p| ==> !IsSpace(p[i])) && OneLine(p)
            && Atoi(TrimPrefix(p, [sign])) == Some(n)
  {
    DecimalReads(n);
    SignedDigits(sign, Decimal(n));
    AtoiOfDecimal(n);
  }

  lemma {:induction false} AheadBehindReads(a: nat, b: nat)
    requires a < INT_LIMIT && b < INT_LIMIT
    ensures ReadAheadBehind(['+'] + Decimal(a) + [' '] + (['-'] + Decimal(b))) == Some((a, b))
  {
    SignedDecimal('+', a);
    SignedDecimal('-', b);
    WordsRead(['+'] + Decimal(a), ['-'] + Decimal(b));
  }

  /** How a header line is taken apart: the key up to the first blank, and the value after it. */
  lemma {:induction false} HeaderParts(key: string, value: string, s: Snapshot)
    requires key != "" && ' ' !in key && Trimmed(key) && HeaderValue(value)
    ensures ReadHeader(HeaderLine(key, value), s) == ApplyHeader(key, value, s)
  {
    var raw, line := HeaderLine(key, value), key + [' '] + value;
    assert raw[..1] == "#" && raw[1..] == [' '] + line;
    assert ([' '] + line)[1..] == line;
    assert TrimLeft([' '] + line) == line;
    TrimOfTrimmed(line);
    TrimOfTrimmed(key);
    TrimOfTrimmed(value);
    IndexOfFirst(key, ' ', value);
    assert line[..|key|] == key && line[|key| + 1..] == value;
  }

  lemma {:induction false} NumbersAreValues(a: nat, b: nat)
    requires a < INT_LIMIT && b < INT_LIMIT
    ensures HeaderValue(['+'] + Decimal(a) + [' '] + (['-'] + Decimal(b)))
  {
    SignedDecimal('+', a);
    SignedDecimal('-', b);
  }

  lemma {:induction false} HeaderTextIsValue(l: Line)
    requires WellFormed(l) && IsHeader(l)
    ensures HeaderValue(HeaderText(l))
  {
    match l
    case AheadBehind(a, b) =>
      NumbersAreValues(a, b);
    case Stash(n) =>
      DecimalReads(n);
      DigitsAreNotSpaces(Decimal(n));
    case _ =>
  }

  lemma {:induction false} KeysAreWords(l: Line)
    ensures Key(l) != "" && ' ' !in Key(l) && Trimmed(Key(l)) && OneLine(Key(l))
  {
  }

  lemma {:induction false} HeaderReads(l: Line, s: Snapshot)
    requires WellFormed(l) && IsHeader(l)
    ensures ReadHeader(Print(l), s) == Success(Effect(l, s))
  {
    HeaderTextIsValue(l);
    KeysAreWords(l);
    HeaderParts(Key(l), HeaderText(l), s);
    if l.AheadBehind? { AheadBehindReads(l.ahead, l.behind); }
  }

  lemma {:induction false} TrimKeepsFront(front: string, rest: string)
    requires front != "" && !IsSpace(front[0]) && Trim(rest) != ""
    ensures Trim(front + rest) == front + TrimRight(rest) && Trim(TrimRight(rest)) != ""
  {
    BlankMeans(rest);
    TrimRightIsPrefix(rest);
    BlankMeans(TrimRight(rest));
    TrimRightKeepsFront(front, rest);
  }

  lemma {:induction false} ChangedFields(kind: char, x: char, y: char, tail: string)
    requires !IsSpace(kind) && !IsSpace(x) && !IsSpace(y) && Trim(tail) != ""
    ensures var f := Fields([kind, ' ', x, y, ' '] + tail); |f| >= 3 && f[1] == [x, y]
  {
    var rest := [x, y] + ([' '] + tail);
    assert [kind, ' ', x, y, ' '] + tail == [kind] + ([' '] + rest);
    FieldsNext([kind], rest);
    FieldsNext([x, y], tail);
    FieldsOfText(tail);
  }

  lemma {:induction false} TrimmedReads(kind: char, x: char, y: char, tail: string)
    requires kind == '1' || kind == '2' || kind == 'u'
    requires !IsSpace(x) && !IsSpace(y) && Trim(tail) != ""
    ensures ReadTrimmed([kind, ' ', x, y, ' '] + tail) == Success(Change(x, y))
  {
    var line := [kind, ' ', x, y, ' '] + tail;
    assert line[0] == kind && line[1] == ' ';
    ChangedFields(kind, x, y, tail);
  }

  lemma {:induction false} ChangedReads(kind: char, x: char, y: char, rest: string)
    requires WellFormed(Changed(kind, x, y, rest))
    ensures ReadEntry([kind, ' ', x, y, ' '] + rest) == Success(Change(x, y))
  {
    TrimKeepsFront([kind, ' ', x, y, ' '], rest);
    TrimmedReads(kind, x, y, TrimRight(rest));
  }

  lemma {:induction false} BlankPath(mark: char, path: string)
    requires !IsSpace(mark) && Trim(path) == ""
    ensures Trim([mark, ' '] + path) == [mark]
  {
    var line := [mark, ' '] + path;
    BlankMeans(path);
    TrimRightIsPrefix(line);
    assert !IsSpace(line[0]) && forall i :: 1 <= i < |line| ==> IsSpace(line[i]);
    BlankMeans(line);
    assert line[..1] == [mark];
  }

  lemma {:induction false} OtherReads(l: Line)
    requires l.Untracked? || l.Ignored?
    ensures ReadEntry(Print(l)) == Success(if Visible(l) then NewFile else Skipped)
  {
    var mark := if l.Untracked? then '?' else '!';
    if Trim(l.path) != "" {
      TrimKeepsFront([mark, ' '], l.path);
      assert ([mark, ' '] + TrimRight(l.path))[2..] == TrimRight(l.path);
    } else {
      BlankPath(mark, l.path);
    }
  }

  lemma {:induction false} StartsWithMark(l: Line)
    requires WellFormed(l)
    ensures Trim(Print(l)) != "" && (Marked(Print(l), '#') <==> IsHeader(l))
  {
    var line := Print(l);
    assert line[0] == if IsHeader(l) then '#' else if l.Changed? then l.kind else if l.Untracked? then '?' else '!';
    assert line[1] == ' ';
    BlankMeans(line);
  }

  /** A line that git prints is read as what it means, whatever was read before. */
  lemma {:induction false} LineReads(l: Line, s: Snapshot)
    requires WellFormed(l)
    ensures ReadLine(Print(l), s) == Success(Effect(l, s))
  {
    NoCarriageReturn(l);
    StartsWithMark(l);
    if IsHeader(l) {
      HeaderReads(l, s);
    } else {
      match l
      case Changed(kind, x, y, rest) => ChangedReads(kind, x, y, rest);
      case _ => OtherReads(l);
    }
  }

  lemma {:induction false} NoCarriageReturn(l: Line)
    requires WellFormed(l)
    ensures Print(l) != "" && OneLine(Print(l)) && TrimCharRight(Print(l), '\r') == Print(l)
  {
    if IsHeader(l) {
      HeaderTextIsValue(l);
      KeysAreWords(l);
    }
    assert OneLine(Print(l));
  }

  // ----- Whole outputs -----

  ghost predicate AllWellFormed(ls: seq<Line>) {
    forall i :: 0 <= i < |ls| ==> WellFormed(ls[i])
  }

  function Printed(ls: seq<Line>): seq<string> {
    if ls == [] then [""] else [Print(ls[0])] + Printed(ls[1..])
  }

  lemma {:induction false} SplitPrinted(ls: seq<Line>)
    requires AllWellFormed(ls)
    ensures Split(PrintAll(ls), '\n') == Printed(ls)
  {
    if ls != [] {
      NoCarriageReturn(ls[0]);
      SplitPrinted(ls[1..]);
      SplitFirst(Print(ls[0]), '\n', PrintAll(ls[1..]));
    }
  }

  lemma {:induction false} PrintedAt(ls: seq<Line>, i: nat)
    requires i <= |ls|
    ensures |Printed(ls)| == |ls| + 1 && Printed(ls)[i] == if i < |ls| then Print(ls[i]) else ""
  {
    if ls != [] { PrintedAt(ls[1..], if i == 0 then 0 else i - 1); }
  }

  lemma {:induction false} ReadPrefix(ls: seq<Line>, n: nat)
    requires AllWellFormed(ls) && n <= |ls| < |Printed(ls)|
    ensures ReadLines(Printed(ls), n) == Success(Meaning(ls[..n]))
  {
    if n > 0 {
      ReadPrefix(ls, n - 1);
      PrintedLineReads(ls, n - 1, Meaning(ls[..n - 1]));
      assert ls[..n][..n - 1] == ls[..n - 1];
    }
  }

  lemma {:induction false} PrintedLineReads(ls: seq<Line>, k: nat, s: Snapshot)
    requires AllWellFormed(ls) && k < |ls| < |Printed(ls)|
    ensures ReadLine(Printed(ls)[k], s) == Success(Effect(ls[k], s))
  {
    PrintedAt(ls, k);
    LineReads(ls[k], s);
  }

  /** Every well-formed output is read without an error, as the meaning of its lines. */
  lemma {:induction false} ReadOfPrinted(ls: seq<Line>)
    requires AllWellFormed(ls)
    ensures Read(PrintAll(ls)) == Success(Meaning(ls))
  {
    SplitPrinted(ls);
    PrintedAt(ls, |ls|);
    ReadPrefix(ls, |ls|);
    assert ls[..|ls|] == ls;
  }

  // ----- The command's output is trimmed before it is read -----

  lemma {:induction false} TrimRightAgain(s: string)
    ensures TrimRight(TrimRight(s)) == TrimRight(s)
  {
    TrimRightIsPrefix(s);
  }

  /** A text that starts with no blank, before and after its end is trimmed. */
  lemma {:induction false} TrimmedEnd(line: string)
    requires line != "" && !IsSpace(line[0]) && '\r' !in line
    ensures var t := TrimRight(line);
            && t != "" && t[0] == line[0] && t <= line
            && Trim(t) == Trim(line) == t && TrimCharRight(t, '\r') == t
  {
    BlankMeans(line);
    TrimRightIsPrefix(line);
    TrimRightAgain(line);
  }

  /** The blanks at the end of a line do not matter. */
  lemma {:induction false} LineEndDoesNotMatter(l: Line, s: Snapshot)
    requires WellFormed(l)
    ensures TrimRight(Print(l)) != "" && '\n' !in TrimRight(Print(l))
    ensures ReadLine(TrimRight(Print(l)), s) == ReadLine(Print(l), s)
  {
    NoCarriageReturn(l);
    StartsWithMark(l);
    MarkIsNoSpace(l);
    TrimmedEnd(Print(l));
    if IsHeader(l) { HeaderEndsInText(l); }
  }

  lemma {:induction false} MarkIsNoSpace(l: Line)
    requires WellFormed(l)
    ensures Print(l) != "" && !IsSpace(Print(l)[0]) && (Print(l)[0] == '#' <==> IsHeader(l))
  {
    var line := Print(l);
    assert line[0] == if IsHeader(l) then '#' else if l.Changed? then l.kind else if l.Untracked? then '?' else '!';
  }

  lemma {:induction false} HeaderEndsInText(l: Line)
    requires WellFormed(l) && IsHeader(l)
    ensures TrimRight(Print(l)) == Print(l)
  {
    var line := Print(l);
    HeaderTextIsValue(l);
    assert line[|line| - 1] == HeaderText(l)[|HeaderText(l)| - 1];
  }

  /** The lines of the output without the blanks at its end. */
  function TrimmedLines(ls: seq<Line>): seq<string>
    requires ls != []
  {
    if |ls| == 1 then [TrimRight(Print(ls[0]))] else [Print(ls[0])] + TrimmedLines(ls[1..])
  }

  lemma {:induction false} TrimmedAt(ls: seq<Line>, i: nat)
    requires i < |ls|
    ensures |TrimmedLines(ls)| == |ls|
    ensures TrimmedLines(ls)[i] == if i < |ls| - 1 then Print(ls[i]) else TrimRight(Print(ls[i]))
  {
    if |ls| > 1 { TrimmedAt(ls[1..], if i == 0 then 0 else i - 1); }
  }

  lemma {:induction false} TrimRightOfNewline(s: string)
    requires s != "" && TrimRight(s) != ""
    ensures TrimRight(s + ['\n']) == TrimRight(s)
  {
    assert (s + ['\n'])[..|s|] == s;
  }

  lemma {:induction false} SplitTrimmed(ls: seq<Line>)
    requires AllWellFormed(ls) && ls != []
    ensures TrimRight(PrintAll(ls)) != "" && Split(TrimRight(PrintAll(ls)), '\n') == TrimmedLines(ls)
  {
    var line := Print(ls[0]);
    NoCarriageReturn(ls[0]);
    LineEndDoesNotMatter(ls[0], EMPTY);
    if |ls| == 1 {
      assert ls[1..] == [];
      assert PrintAll(ls) == line + ['\n'];
      TrimRightOfNewline(line);
      SplitFirst(TrimRight(line), '\n', "");
    } else {
      SplitTrimmed(ls[1..]);
      TrimRightKeepsFront(line + ['\n'], PrintAll(ls[1..]));
      SplitFirst(line, '\n', TrimRight(PrintAll(ls[1..])));
    }
  }

  lemma {:induction false} ReadTrimmedPrefix(ls: seq<Line>, n: nat)
    requires AllWellFormed(ls) && ls != [] && n <= |ls| == |TrimmedLines(ls)|
    ensures ReadLines(TrimmedLines(ls), n) == Success(Meaning(ls[..n]))
  {
    if n > 0 {
      ReadTrimmedPrefix(ls, n - 1);
      TrimmedLineReads(ls, n - 1, Meaning(ls[..n - 1]));
      assert ls[..n][..n - 1] == ls[..n - 1];
    }
  }

  lemma {:induction false} TrimmedLineReads(ls: seq<Line>, k: nat, s: Snapshot)
    requires AllWellFormed(ls) && k < |ls| == |TrimmedLines(ls)|
    ensures ReadLine(TrimmedLines(ls)[k], s) == Success(Effect(ls[k], s))
  {
    TrimmedAt(ls, k);
    LineEndDoesNotMatter(ls[k], s);
    LineReads(ls[k], s);
  }

  /** Trimming the whole output first changes nothing. */
  lemma {:induction false} ReadOfTrimmed(ls: seq<Line>)
    requires AllWellFormed(ls)
    ensures Read(Trim(PrintAll(ls))) == Read(PrintAll(ls)) == Success(Meaning(ls))
  {
    ReadOfPrinted(ls);
    if ls != [] {
      MarkIsNoSpace(ls[0]);
      assert PrintAll(ls)[0] == Print(ls[0])[0];
      assert TrimLeft(PrintAll(ls)) == PrintAll(ls);
      SplitTrimmed(ls);
      TrimmedAt(ls, 0);
      ReadTrimmedPrefix(ls, |ls|);
      assert ls[..|ls|] == ls;
    }
  }

  /** An untracked file whose name is a blank leaves the repository clean for the reader. */
  lemma {:induction false} BlankNameIsNotSeen()
    ensures Read(PrintAll([Untracked(" ")])) == Success(EMPTY)
  {
    var ls := [Untracked(" ")];
    assert Trim(" ") == "" by { BlankMeans(" "); }
    ReadOfPrinted(ls);
    assert ls[..0] == [];
    assert Meaning(ls) == Effect(ls[0], Meaning([]));
  }

  predicate IsStaged(l: Line) { l.Changed? && l.x != '.' }
  predicate IsUnstaged(l: Line) { l.Changed? && l.y != '.' }
  predicate IsDirt(l: Line) { l.Changed? || Visible(l) }

  lemma {:induction false} MeaningCounts(ls: seq<Line>)
    ensures var m := Meaning(ls);
            && m.staged == Count(ls, IsStaged) && m.unstaged == Count(ls, IsUnstaged)
            && m.untracked == Count(ls, Visible) && (m.dirty <==> Count(ls, IsDirt) > 0)
  {
    if ls != [] { MeaningCounts(ls[..|ls| - 1]); }
  }

  /** The counts are the numbers of entries by XY and type, and dirty means that one exists. */
  lemma {:induction false} CountsAreEntryCounts(ls: seq<Line>)
    requires AllWellFormed(ls)
    ensures var r := Read(PrintAll(ls));
            && r.Success?
            && r.value.staged == Count(ls, IsStaged) && r.value.unstaged == Count(ls, IsUnstaged)
            && r.value.untracked == Count(ls, Visible)
            && (r.value.dirty <==> exists i :: 0 <= i < |ls| && (ls[i].Changed? || Visible(ls[i])))
  {
    ReadOfPrinted(ls);
    MeaningCounts(ls);
    CountPositive(ls, IsDirt);
    assert forall l :: IsDirt(l) <==> l.Changed? || Visible(l);
  }

  /** No count depends on the order of the lines. */
  lemma {:induction false} OrderDoesNotMatter(a: seq<Line>, b: seq<Line>)
    requires AllWellFormed(a) && AllWellFormed(b) && multiset(a) == multiset(b)
    ensures var r, t := Read(PrintAll(a)), Read(PrintAll(b));
            && r.Success? && t.Success?
            && r.value.staged == t.value.staged && r.value.unstaged == t.value.unstaged
            && r.value.untracked == t.value.untracked && r.value.dirty == t.value.dirty
  {
    ReadOfPrinted(a);
    ReadOfPrinted(b);
    MeaningCounts(a);
    MeaningCounts(b);
    CountOfSameElements(a, b, IsStaged);
    CountOfSameElements(a, b, IsUnstaged);
    CountOfSameElements(a, b, Visible);
    CountOfSameElements(a, b, IsDirt);
  }
}
