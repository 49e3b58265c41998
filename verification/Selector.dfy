/** The interactive selector (internal/cli/ws_selector.go). */
module Selector {
  import opened Text
  import opened FilterMatch

  datatype Candidate = Candidate(id: string, title: string, description: string)

  function Secondary(c: Candidate): string {
    if Trim(c.description) != "" then Trim(c.description) else Trim(c.title)
  }

  /** The text field that edits the filter: its text and its cursor, in characters. */
  datatype Input = Input(value: string, position: nat)

  datatype Key =
    | Cancel
    | Backspace
    | Enter
    | Up
    | Down
    | Space
    | Edit(next: Input)

  /** Blanks are the Space key, whether the terminal reports them as a key or as a character. Any other
      key goes to the text field, whose answer comes with the message. */
  datatype Msg =
    | Resize(width: int, height: int)
    | ConfirmDone
    | KeyPress(key: Key)
    | Other(next: Input)

  datatype Settings = Settings(candidates: seq<Candidate>, single: bool, reducedMotion: bool)

  datatype Model = Model(
    settings: Settings, selected: set<nat>, cursor: int, width: int, height: int, filter: string, input: Input,
    error: bool, canceled: bool, done: bool, confirming: bool)

  function Start(settings: Settings): Model {
    Model(settings, {}, 0, 80, 24, "", Input("", 0), false, false, false, false)
  }

  // ----- What the filter leaves visible -----

  predicate Matches(c: Candidate, filter: string, lower: char -> char) {
    Shown(c.id, filter, lower) || Shown(Secondary(c), filter, lower)
  }

  /** The places of the elements that pass, in order. */
  function Places<T>(s: seq<T>, test: T -> bool): seq<nat> {
    if s == [] then []
    else
      var before := Places(s[..|s| - 1], test);
      if test(s[|s| - 1]) then before + [|s| - 1] else before
  }

  function Test(filter: string, lower: char -> char): Candidate -> bool {
    (c: Candidate) => Matches(c, filter, lower)
  }

  function Visible(cs: seq<Candidate>, filter: string, lower: char -> char): seq<nat> {
    Places(cs, Test(filter, lower))
  }

  method FilteredIndices(cs: seq<Candidate>, filter: string, lower: char -> char) returns (out: seq<nat>)
    requires KeepsBlanks(lower)
    ensures out == Visible(cs, filter, lower)
  {
    ghost var test := Test(filter, lower);
    out := [];
    for i := 0 to |cs|
      invariant out == Places(cs[..i], test)
    {
      assert cs[..i + 1][..i] == cs[..i];
      var byId := FuzzyMatch(cs[i].id, filter, lower);
      var byText := FuzzyMatch(Secondary(cs[i]), filter, lower);
      assert test(cs[i]) <==> byId || byText;
      if byId || byText {
        out := out + [i];
      }
    }
    assert cs[..|cs|] == cs;
  }

  lemma {:induction false} PlacePasses<T>(s: seq<T>, test: T -> bool, k: nat)
    requires k < |Places(s, test)|
    ensures Places(s, test)[k] < |s| && test(s[Places(s, test)[k]])
  {
    if k < |Places(s[..|s| - 1], test)| { PlacePasses(s[..|s| - 1], test, k); }
  }

  lemma {:induction false} PassingHasPlace<T>(s: seq<T>, test: T -> bool, i: nat)
    requires i < |s| && test(s[i])
    ensures i in Places(s, test)
  {
    if i < |s| - 1 { PassingHasPlace(s[..|s| - 1], test, i); }
  }

  lemma {:induction false} PlacesIncrease<T>(s: seq<T>, test: T -> bool, j: nat, k: nat)
    requires j < k < |Places(s, test)|
    ensures Places(s, test)[j] < Places(s, test)[k]
  {
    var before := s[..|s| - 1];
    if k < |Places(before, test)| { PlacesIncrease(before, test, j, k); } else { PlacePasses(before, test, j); }
  }

  /** The visible rows are the matching candidates, in order. */
  lemma {:induction false} VisibleMeans(cs: seq<Candidate>, filter: string, lower: char -> char)
    ensures var v := Visible(cs, filter, lower);
            && (forall k :: 0 <= k < |v| ==> v[k] < |cs| && Matches(cs[v[k]], filter, lower))
            && (forall i :: 0 <= i < |cs| && Matches(cs[i], filter, lower) ==> i in v)
            && (forall j, k :: 0 <= j < k < |v| ==> v[j] < v[k])
  {
    var test, v := Test(filter, lower), Visible(cs, filter, lower);
    forall k | 0 <= k < |v| ensures v[k] < |cs| && Matches(cs[v[k]], filter, lower) { PlacePasses(cs, test, k); }
    forall i | 0 <= i < |cs| && Matches(cs[i], filter, lower) ensures i in v { PassingHasPlace(cs, test, i); }
    forall j, k | 0 <= j < k < |v| ensures v[j] < v[k] { PlacesIncrease(cs, test, j, k); }
  }

  /** Typing into the filter, anywhere in it, never makes a further row visible. */
  lemma {:induction false} TypingHides(
    cs: seq<Candidate>, a: string, typed: string, b: string, lower: char -> char, i: nat)
    requires i in Visible(cs, a + typed + b, lower)
    ensures i in Visible(cs, a + b, lower)
  {
    VisibleMeans(cs, a + typed + b, lower);
    VisibleMeans(cs, a + b, lower);
    if Shown(cs[i].id, a + typed + b, lower) {
      TypingNarrows(a, typed, b, cs[i].id, lower);
    } else {
      TypingNarrows(a, typed, b, Secondary(cs[i]), lower);
    }
  }

  // ----- One message -----

  function Clamp(m: Model, rows: seq<nat>): Model {
    if rows == [] || m.cursor < 0 then m.(cursor := 0)
    else if m.cursor >= |rows| then m.(cursor := |rows| - 1)
    else m
  }

  function Sync(m: Model, next: Input, show: string -> seq<nat>): Model {
    var n := m.(input := next);
    if next.value == m.filter then n
    else
      var changed := n.(filter := next.value);
      Clamp(changed, show(changed.filter)).(error := false)
  }

  /** The text without the character before the cursor, if there is one. */
  function DeleteBefore(input: Input): Option<Input> {
    if input.value == "" || input.position == 0 then None
    else
      var p := if input.position > |input.value| then |input.value| else input.position;
      Some(Input(input.value[..p - 1] + input.value[p..], p - 1))
  }

  function OnBackspace(m: Model, show: string -> seq<nat>): Model {
    match DeleteBefore(m.input)
    case None => m
    case Some(next) =>
      var changed := m.(filter := next.value, input := next);
      Clamp(changed, show(changed.filter)).(error := false)
  }

  predicate OnRow(m: Model, rows: seq<nat>) {
    0 <= m.cursor < |rows|
  }

  function Toggle(m: Model, rows: seq<nat>): Model {
    if !OnRow(m, rows) then m.(error := true)
    else
      var i := rows[m.cursor];
      m.(selected := if i in m.selected then m.selected - {i} else m.selected + {i},
         cursor := if m.cursor < |rows| - 1 then m.cursor + 1 else m.cursor,
         error := false)
  }

  function Finish(m: Model): Model {
    if m.settings.reducedMotion then m.(done := true) else m.(confirming := true)
  }

  function ConfirmSingle(m: Model, rows: seq<nat>): Model {
    if !OnRow(m, rows) then m.(error := true) else Finish(m.(selected := {rows[m.cursor]}))
  }

  function OnKey(m: Model, key: Key, show: string -> seq<nat>): Model {
    var rows := show(m.filter);
    match key
    case Cancel => m.(canceled := true)
    case Backspace => OnBackspace(m, show)
    case Enter =>
      if m.settings.single then ConfirmSingle(m, rows) else if m.selected == {} then m.(error := true) else Finish(m)
    case Up => m.(cursor := if m.cursor > 0 then m.cursor - 1 else m.cursor, error := false)
    case Down => m.(cursor := if m.cursor < |rows| - 1 then m.cursor + 1 else m.cursor, error := false)
    case Space => if m.settings.single then ConfirmSingle(m, rows) else Toggle(m, rows)
    case Edit(next) => Sync(m, next, show)
  }

  function Step(m: Model, msg: Msg, show: string -> seq<nat>): Model {
    match msg
    case Resize(w, h) => m.(width := if w > 0 then w else m.width, height := if h > 0 then h else m.height)
    case ConfirmDone => if !m.confirming || m.canceled then m else m.(done := true)
    case KeyPress(key) => if m.confirming then m else OnKey(m, key, show)
    case Other(next) => Sync(m, next, show)
  }

  // ----- The invariant -----

  /** The cursor is on a visible row when there is one. */
  predicate CursorFits(m: Model, rows: seq<nat>) {
    if rows == [] then m.cursor == 0 else 0 <= m.cursor < |rows|
  }

  /** Something is chosen, exactly one thing in single mode. */
  predicate Chosen(m: Model) {
    m.selected != {} && (m.settings.single ==> |m.selected| == 1)
  }

  ghost predicate ShowsCandidates(show: string -> seq<nat>, n: nat) {
    forall filter, k :: 0 <= k < |show(filter)| ==> show(filter)[k] < n
  }

  ghost predicate Inv(m: Model, show: string -> seq<nat>) {
    && ShowsCandidates(show, |m.settings.candidates|) && CursorFits(m, show(m.filter))
    && (forall i :: i in m.selected ==> i < |m.settings.candidates|)
    && (m.confirming || m.done ==> Chosen(m))
    && !(m.canceled && (m.confirming || m.done))
    && m.width > 0 && m.height > 0
  }

  predicate Quit(m: Model) {
    m.canceled || m.done
  }

  lemma {:induction false} SyncKeepsInv(m: Model, next: Input, show: string -> seq<nat>)
    requires Inv(m, show)
    ensures Inv(Sync(m, next, show), show)
  {
    var changed := m.(input := next, filter := next.value);
    var n := Clamp(changed, show(next.value));
    assert CursorFits(n, show(next.value));
    assert n.settings == m.settings && n.selected == m.selected && n.filter == next.value;
    assert n.done == m.done && n.confirming == m.confirming && n.canceled == m.canceled;
  }

  lemma {:induction false} KeyKeepsInv(m: Model, key: Key, show: string -> seq<nat>)
    requires Inv(m, show) && !Quit(m) && !m.confirming
    ensures Inv(OnKey(m, key, show), show)
  {
    var rows := show(m.filter);
    if OnRow(m, rows) {
      assert rows[m.cursor] < |m.settings.candidates|;
    }
    match key
    case Space =>
    case Enter =>
    case Edit(next) => SyncKeepsInv(m, next, show);
    case _ =>
  }

  lemma {:induction false} StepKeepsInv(m: Model, msg: Msg, show: string -> seq<nat>)
    requires Inv(m, show) && !Quit(m)
    ensures Inv(Step(m, msg, show), show)
  {
    match msg
    case KeyPress(key) =>
      if !m.confirming { KeyKeepsInv(m, key, show); }
    case Other(next) =>
      SyncKeepsInv(m, next, show);
    case _ =>
  }

  // ----- What a message does, in terms of the rows on the screen -----

  /** Only the choice, the cursor, the notice and how the program goes on may differ. */
  predicate SameText(m: Model, n: Model) {
    && n.settings == m.settings && n.filter == m.filter && n.input == m.input
    && n.width == m.width && n.height == m.height && n.canceled == m.canceled
  }

  predicate GoesOn(m: Model, n: Model) {
    n.done == m.done && n.confirming == m.confirming
  }

  predicate Finishes(m: Model, n: Model) {
    if m.settings.reducedMotion then n.done && n.confirming == m.confirming else n.confirming && n.done == m.done
  }

  /** The row under the cursor becomes the only choice, and the program finishes; refused without rows. */
  predicate TakesRow(m: Model, rows: seq<nat>, n: Model) {
    && SameText(m, n) && n.cursor == m.cursor
    && (if rows == [] then n.selected == m.selected && n.error && GoesOn(m, n)
        else 0 <= m.cursor < |rows| && n.selected == {rows[m.cursor]} && n.error == m.error && Finishes(m, n))
  }

  /** The row under the cursor, and no other, changes sides, and the cursor goes on; refused without rows. */
  ghost predicate FlipsRow(m: Model, rows: seq<nat>, n: Model) {
    && SameText(m, n) && GoesOn(m, n)
    && (if rows == [] then n.selected == m.selected && n.cursor == m.cursor && n.error
        else
          && 0 <= m.cursor < |rows| && !n.error
          && (forall i: nat :: i != rows[m.cursor] ==> (i in n.selected <==> i in m.selected))
          && (rows[m.cursor] in n.selected <==> rows[m.cursor] !in m.selected)
          && (m.cursor + 1 < |rows| ==> n.cursor == m.cursor + 1)
          && (m.cursor + 1 == |rows| ==> n.cursor == m.cursor))
  }

  /** The choice is confirmed as it is; refused when it is empty. */
  predicate ConfirmsChoice(m: Model, n: Model) {
    && SameText(m, n) && n.cursor == m.cursor && n.selected == m.selected
    && (if m.selected == {} then n.error && GoesOn(m, n) else n.error == m.error && Finishes(m, n))
  }

  /** The cursor goes one row on, but not beyond the first or the last one; nothing that is chosen changes. */
  predicate Moves(m: Model, rows: seq<nat>, rowsDown: int, n: Model) {
    && SameText(m, n) && GoesOn(m, n) && n.selected == m.selected && !n.error
    && n.cursor == if 0 <= m.cursor + rowsDown < |rows| then m.cursor + rowsDown else m.cursor
  }

  /** The filter is the new text, and the cursor stays or goes to the last row that is left. */
  predicate Refilters(m: Model, next: Input, rows: seq<nat>, n: Model) {
    && n.settings == m.settings && n.selected == m.selected && GoesOn(m, n) && n.canceled == m.canceled
    && n.width == m.width && n.height == m.height && n.input == next && n.filter == next.value
    && !n.error
    && n.cursor == if m.cursor < |rows| then m.cursor else if rows == [] then 0 else |rows| - 1
  }

  predicate Edits(m: Model, next: Input, show: string -> seq<nat>, n: Model) {
    if next.value == m.filter then n == m.(input := next) else Refilters(m, next, show(next.value), n)
  }

  /** The character before the text cursor goes away, if there is one. */
  predicate Deletes(m: Model, show: string -> seq<nat>, n: Model) {
    var value, p := m.input.value, if m.input.position > |m.input.value| then |m.input.value| else m.input.position;
    if p == 0 then n == m
    else Refilters(m, Input(value[..p - 1] + value[p..], p - 1), show(value[..p - 1] + value[p..]), n)
  }

  ghost predicate RespondsToKey(m: Model, key: Key, show: string -> seq<nat>, n: Model) {
    var rows := show(m.filter);
    match key
    case Cancel => n == m.(canceled := true)
    case Backspace => Deletes(m, show, n)
    case Enter => if m.settings.single then TakesRow(m, rows, n) else ConfirmsChoice(m, n)
    case Up => Moves(m, rows, -1, n)
    case Down => Moves(m, rows, 1, n)
    case Space => if m.settings.single then TakesRow(m, rows, n) else FlipsRow(m, rows, n)
    case Edit(next) => Edits(m, next, show, n)
  }

  ghost predicate Responds(m: Model, msg: Msg, show: string -> seq<nat>, n: Model) {
    match msg
    case Resize(w, h) => n == m.(width := if w > 0 then w else m.width, height := if h > 0 then h else m.height)
    case ConfirmDone => n == m.(done := m.confirming)
    case KeyPress(key) => if m.confirming then n == m else RespondsToKey(m, key, show, n)
    case Other(next) => Edits(m, next, show, n)
  }

  lemma {:induction false} ClampRefilters(m: Model, next: Input, rows: seq<nat>)
    requires m.cursor >= 0
    ensures Refilters(m, next, rows, Clamp(m.(filter := next.value, input := next), rows).(error := false))
  {
  }

  lemma {:induction false} SyncEdits(m: Model, next: Input, show: string -> seq<nat>)
    requires Inv(m, show)
    ensures Edits(m, next, show, Sync(m, next, show))
  {
    ClampRefilters(m, next, show(next.value));
  }

  lemma {:induction false} BackspaceDeletes(m: Model, show: string -> seq<nat>)
    requires Inv(m, show)
    ensures Deletes(m, show, OnBackspace(m, show))
  {
    if DeleteBefore(m.input).Some? {
      var next := DeleteBefore(m.input).value;
      ClampRefilters(m, next, show(next.value));
    }
  }

  lemma {:induction false} KeyResponds(m: Model, key: Key, show: string -> seq<nat>)
    requires Inv(m, show) && !Quit(m) && !m.confirming
    ensures RespondsToKey(m, key, show, OnKey(m, key, show))
  {
    match key
    case Backspace => BackspaceDeletes(m, show);
    case Edit(next) => SyncEdits(m, next, show);
    case _ =>
  }

  lemma {:induction false} StepResponds(m: Model, msg: Msg, show: string -> seq<nat>)
    requires Inv(m, show) && !Quit(m)
    ensures Responds(m, msg, show, Step(m, msg, show))
  {
    match msg
    case KeyPress(key) =>
      if !m.confirming { KeyResponds(m, key, show); }
    case Other(next) => SyncEdits(m, next, show);
    case _ =>
  }

  /** The program stops reading messages once it has quit. */
  function Run(m: Model, msgs: seq<Msg>, show: string -> seq<nat>): Model {
    if msgs == [] then m
    else
      var before := Run(m, msgs[..|msgs| - 1], show);
      if Quit(before) then before else Step(before, msgs[|msgs| - 1], show)
  }

  lemma {:induction false} RunKeepsInv(m: Model, msgs: seq<Msg>, show: string -> seq<nat>)
    requires Inv(m, show)
    ensures Inv(Run(m, msgs, show), show)
  {
    if msgs != [] {
      var before := Run(m, msgs[..|msgs| - 1], show);
      RunKeepsInv(m, msgs[..|msgs| - 1], show);
      if !Quit(before) { StepKeepsInv(before, msgs[|msgs| - 1], show); }
    }
  }

  lemma {:induction false} SyncKeepsSettings(m: Model, next: Input, show: string -> seq<nat>)
    ensures Sync(m, next, show).settings == m.settings
  {
  }

  lemma {:induction false} KeyKeepsSettings(m: Model, key: Key, show: string -> seq<nat>)
    ensures OnKey(m, key, show).settings == m.settings
  {
    match key
    case Edit(next) => SyncKeepsSettings(m, next, show);
    case Backspace => assert OnBackspace(m, show).settings == m.settings;
    case Space => assert Toggle(m, show(m.filter)).settings == m.settings;
    case _ =>
  }

  lemma {:induction false} StepKeepsSettings(m: Model, msg: Msg, show: string -> seq<nat>)
    ensures Step(m, msg, show).settings == m.settings
  {
    match msg
    case KeyPress(key) => KeyKeepsSettings(m, key, show);
    case Other(next) => SyncKeepsSettings(m, next, show);
    case _ =>
  }

  lemma {:induction false} RunKeepsSettings(m: Model, msgs: seq<Msg>, show: string -> seq<nat>)
    ensures Run(m, msgs, show).settings == m.settings
  {
    if msgs != [] {
      RunKeepsSettings(m, msgs[..|msgs| - 1], show);
      StepKeepsSettings(Run(m, msgs[..|msgs| - 1], show), msgs[|msgs| - 1], show);
    }
  }

  /** The row under the cursor, while the program reads keys. */
  function RowAt(m: Model, show: string -> seq<nat>): Option<nat> {
    if !Quit(m) && !m.confirming && OnRow(m, show(m.filter)) then Some(show(m.filter)[m.cursor]) else None
  }

  /** In single mode the choice of a finished run is the row that was under the cursor when Enter or Space
      was pressed. */
  lemma {:induction false} SingleChoiceIsTheRow(m: Model, msgs: seq<Msg>, show: string -> seq<nat>) returns (k: nat)
    requires Inv(m, show) && m.settings.single && !m.confirming && !m.done
    requires Run(m, msgs, show).confirming || Run(m, msgs, show).done
    ensures k < |msgs| && msgs[k] in {KeyPress(Enter), KeyPress(Space)}
    ensures var row := RowAt(Run(m, msgs[..k], show), show);
            row.Some? && Run(m, msgs, show).selected == {row.value}
  {
    var front, last := msgs[..|msgs| - 1], msgs[|msgs| - 1];
    var before := Run(m, front, show);
    RunKeepsInv(m, front, show);
    RunKeepsSettings(m, front, show);
    if before.confirming || before.done {
      k := SingleChoiceIsTheRow(m, front, show);
      assert front[..k] == msgs[..k];
      if !Quit(before) { ChoiceStays(before, last, show); }
    } else {
      FinishingStep(before, last, show);
      k := |front|;
    }
  }

  lemma {:induction false} ChoiceStays(m: Model, msg: Msg, show: string -> seq<nat>)
    requires Inv(m, show) && !Quit(m) && m.confirming
    ensures Step(m, msg, show).selected == m.selected
  {
    StepResponds(m, msg, show);
  }

  lemma {:induction false} FinishingStep(m: Model, msg: Msg, show: string -> seq<nat>)
    requires Inv(m, show) && m.settings.single && !m.confirming && !Quit(m)
    requires Step(m, msg, show).confirming || Step(m, msg, show).done
    ensures msg in {KeyPress(Enter), KeyPress(Space)}
    ensures RowAt(m, show).Some? && Step(m, msg, show).selected == {RowAt(m, show).value}
  {
    StepResponds(m, msg, show);
  }

  /** How often the candidate was under the cursor when Space was pressed. */
  function Flips(m: Model, msgs: seq<Msg>, show: string -> seq<nat>, i: nat): nat {
    if msgs == [] then 0
    else
      var front, last := msgs[..|msgs| - 1], msgs[|msgs| - 1];
      Flips(m, front, show, i)
        + (if last == KeyPress(Space) && RowAt(Run(m, front, show), show) == Some(i) then 1 else 0)
  }

  /** What changes sides with every flip is the parity of the number of flips. */
  lemma {:induction false} ParityOfFlips(
    chosen: seq<Msg> -> bool, count: seq<Msg> -> nat, flips: (seq<Msg>, Msg) -> bool, msgs: seq<Msg>)
    requires !chosen([]) && count([]) == 0
    requires forall front, last :: chosen(front + [last]) <==> chosen(front) != flips(front, last)
    requires forall front, last :: count(front + [last]) == count(front) + (if flips(front, last) then 1 else 0)
    ensures chosen(msgs) <==> count(msgs) % 2 == 1
  {
    if msgs != [] {
      var front, last := msgs[..|msgs| - 1], msgs[|msgs| - 1];
      ParityOfFlips(chosen, count, flips, front);
      assert msgs == front + [last];
    }
  }

  /** In multi mode a candidate is chosen exactly if it was flipped an odd number of times. */
  lemma {:induction false} ChosenIffFlippedOdd(m: Model, msgs: seq<Msg>, show: string -> seq<nat>, i: nat)
    requires Inv(m, show) && !m.settings.single && m.selected == {}
    ensures i in Run(m, msgs, show).selected <==> Flips(m, msgs, show, i) % 2 == 1
  {
    var chosen := (s: seq<Msg>) => i in Run(m, s, show).selected;
    var count := (s: seq<Msg>) => Flips(m, s, show, i);
    var flips := (s: seq<Msg>, last: Msg) => last == KeyPress(Space) && RowAt(Run(m, s, show), show) == Some(i);
    forall front, last
      ensures chosen(front + [last]) <==> chosen(front) != flips(front, last)
      ensures count(front + [last]) == count(front) + (if flips(front, last) then 1 else 0)
    {
      LastFlips(m, front, last, show, i);
    }
    ParityOfFlips(chosen, count, flips, msgs);
  }

  lemma {:induction false} LastFlips(m: Model, front: seq<Msg>, last: Msg, show: string -> seq<nat>, i: nat)
    requires Inv(m, show) && !m.settings.single
    ensures i in Run(m, front + [last], show).selected <==>
            (i in Run(m, front, show).selected) !=
              (last == KeyPress(Space) && RowAt(Run(m, front, show), show) == Some(i))
    ensures Flips(m, front + [last], show, i) == Flips(m, front, show, i)
              + (if last == KeyPress(Space) && RowAt(Run(m, front, show), show) == Some(i) then 1 else 0)
  {
    var before := Run(m, front, show);
    assert (front + [last])[..|front|] == front;
    RunKeepsInv(m, front, show);
    RunKeepsSettings(m, front, show);
    if !Quit(before) { StepFlips(before, last, show, i); }
  }

  lemma {:induction false} StepFlips(m: Model, msg: Msg, show: string -> seq<nat>, i: nat)
    requires Inv(m, show) && !Quit(m) && !m.settings.single
    ensures i in Step(m, msg, show).selected <==>
            (i in m.selected) != (msg == KeyPress(Space) && RowAt(m, show) == Some(i))
  {
    StepResponds(m, msg, show);
  }

  /** From the moment of confirming nothing cancels and nothing changes the choice, and the next
      confirmation message ends the program. */
  lemma {:induction false} ConfirmingIsFinal(m: Model, msgs: seq<Msg>, show: string -> seq<nat>)
    requires Inv(m, show) && m.confirming
    ensures var n := Run(m, msgs, show);
            && n.confirming && !n.canceled && n.selected == m.selected
            && (m.done || ConfirmDone in msgs <==> n.done)
  {
    if msgs != [] {
      var front, last := msgs[..|msgs| - 1], msgs[|msgs| - 1];
      ConfirmingIsFinal(m, front, show);
      assert msgs == front + [last];
      assert ConfirmDone in msgs <==> ConfirmDone in front || last == ConfirmDone;
    }
  }

  // ----- The result -----

  /** The ids of the selected candidates among the first n, in order. */
  function SelectedIds(m: Model, n: nat): seq<string>
    requires n <= |m.settings.candidates|
  {
    if n == 0 then [] else SelectedIds(m, n - 1) + (if n - 1 in m.selected then [m.settings.candidates[n - 1].id]
        else [])
  }

  /** The ids of the chosen ones among the first n candidates, in the order of the candidates. */
  ghost predicate IdsUpTo(m: Model, n: nat, order: seq<nat>, ids: seq<string>) {
    && n <= |m.settings.candidates| && |ids| == |order|
    && (forall i :: i in order <==> i in m.selected && i < n)
    && (forall j, k :: 0 <= j < k < |order| ==> order[j] < order[k])
    && (forall k :: 0 <= k < |order| ==> order[k] < n && ids[k] == m.settings.candidates[order[k]].id)
  }

  lemma {:induction false} IdsNext(m: Model, n: nat, order: seq<nat>, ids: seq<string>)
    requires n < |m.settings.candidates| && IdsUpTo(m, n, order, ids)
    ensures if n in m.selected then IdsUpTo(m, n + 1, order + [n], ids + [m.settings.candidates[n].id])
            else IdsUpTo(m, n + 1, order, ids)
  {
  }

  /** The ids of the chosen candidates, in the order of the candidates. */
  ghost predicate IdsOf(m: Model, order: seq<nat>, ids: seq<string>) {
    IdsUpTo(m, |m.settings.candidates|, order, ids) && forall i :: i in order <==> i in m.selected
  }

  lemma {:induction false} AllIds(m: Model, order: seq<nat>, ids: seq<string>)
    requires IdsUpTo(m, |m.settings.candidates|, order, ids)
    requires forall i :: i in m.selected ==> i < |m.settings.candidates|
    ensures IdsOf(m, order, ids)
  {
  }

  lemma {:induction false} OneIdEach(m: Model, n: nat)
    requires n <= |m.settings.candidates|
    ensures |SelectedIds(m, n)| == |set i | i in m.selected && i < n|
  {
    var now := set i | i in m.selected && i < n;
    if n > 0 {
      OneIdEach(m, n - 1);
      var before := set i | i in m.selected && i < n - 1;
      assert now == before + (if n - 1 in m.selected then {n - 1} else {});
    }
  }

  /** The answer of the program: the ids of the chosen candidates, in order. */
  method ListSelected(m: Model) returns (ids: seq<string>, ghost order: seq<nat>)
    requires forall i :: i in m.selected ==> i < |m.settings.candidates|
    ensures ids == SelectedIds(m, |m.settings.candidates|) && IdsOf(m, order, ids)
  {
    ids, order := [], [];
    for i := 0 to |m.settings.candidates|
      invariant ids == SelectedIds(m, i) && IdsUpTo(m, i, order, ids)
    {
      IdsNext(m, i, order, ids);
      if i in m.selected {
        ids := ids + [m.settings.candidates[i].id];
        order := order + [i];
      }
    }
    AllIds(m, order, ids);
  }

  function Shows(candidates: seq<Candidate>, lower: char -> char): string -> seq<nat> {
    filter => Visible(candidates, filter, lower)
  }

  lemma {:induction false} StartIsValid(settings: Settings, lower: char -> char)
    ensures Inv(Start(settings), Shows(settings.candidates, lower))
  {
    var show := Shows(settings.candidates, lower);
    forall filter, k | 0 <= k < |show(filter)| ensures show(filter)[k] < |settings.candidates| {
      VisibleMeans(settings.candidates, filter, lower);
      assert show(filter) == Visible(settings.candidates, filter, lower);
    }
  }

  /** After every sequence of messages: the cursor is on a visible row if there is one, and a program that
      is done was not canceled and answers at least one id, exactly one in single mode. */
  lemma {:induction false} EveryRunIsValid(settings: Settings, msgs: seq<Msg>, lower: char -> char)
    ensures var m := Run(Start(settings), msgs, Shows(settings.candidates, lower));
            var rows := Visible(settings.candidates, m.filter, lower);
            && m.settings == settings
            && (rows != [] ==> 0 <= m.cursor < |rows|)
            && (m.done ==>
                  && !m.canceled
                  && |SelectedIds(m, |settings.candidates|)| == |m.selected| > 0
                  && (settings.single ==> |SelectedIds(m, |settings.candidates|)| == 1))
  {
    var start, show := Start(settings), Shows(settings.candidates, lower);
    StartIsValid(settings, lower);
    RunKeepsInv(start, msgs, show);
    RunKeepsSettings(start, msgs, show);
    var m := Run(start, msgs, show);
    OneIdEach(m, |settings.candidates|);
    assert (set i | i in m.selected && i < |settings.candidates|) == m.selected;
    assert m.selected != {} ==> |m.selected| > 0;
  }

  // ----- The viewport -----

  /** The part of the visible rows on the screen. */
  method Viewport(total: int, rawCursor: int, bodyRows: int) returns (start: int, end: int)
    ensures total <= 0 ==> start == end == 0
    ensures total > 0 ==> 0 <= start <= end <= total
    ensures total > 0 && bodyRows >= 1 ==> end - start == if total < bodyRows then total else bodyRows
    ensures total > 0 && bodyRows <= 0 ==> end - start == total
    ensures 0 <= rawCursor < total ==> start <= rawCursor < end
  {
    if total <= 0 {
      return 0, 0;
    }
    if bodyRows <= 0 || total <= bodyRows {
      return 0, total;
    }
    var cursor := rawCursor;
    if cursor < 0 {
      cursor := 0;
    }
    if cursor >= total {
      cursor := total - 1;
    }
    start := cursor - bodyRows / 2;
    if start < 0 {
      start := 0;
    }
    end := start + bodyRows;
    if end > total {
      end := total;
      start := end - bodyRows;
      if start < 0 {
        start := 0;
      }
    }
  }

  function BodyRows(termHeight: int, compactTitle: bool): (r: int)
    ensures termHeight > 0 ==> r >= 1
    ensures termHeight > 6 ==> r + (if compactTitle then 5 else 6) == termHeight
  {
    if termHeight <= 0 then 0
    else
      var rows := termHeight - (if compactTitle then 5 else 6);
      if rows < 1 then 1 else rows
  }

  // ----- Cutting text to a width -----

  const ELLIPSIS := 0x2026 as char

  function CharWidth(c: char): nat {
    if c == ELLIPSIS || (c as int) < 128 then 1 else 2
  }

  function Width(s: string): nat {
    if s == "" then 0 else Width(s[..|s| - 1]) + CharWidth(s[|s| - 1])
  }

  lemma {:induction false} WidthAppend(s: string, c: char)
    ensures Width(s + [c]) == Width(s) + CharWidth(c)
  {
    assert (s + [c])[..|s|] == s;
  }

  /** The text if it fits, else its longest beginning that leaves room for the ellipsis. */
  method Truncate(s: string, maxCols: int) returns (r: string)
    ensures Width(r) <= if maxCols < 0 then 0 else maxCols
    ensures maxCols > 0 && Width(s) <= maxCols ==> r == s
    ensures maxCols > 0 && Width(s) > maxCols ==>
              exists n :: 0 <= n < |s| && r == s[..n] + [ELLIPSIS] && Width(s[..n + 1]) >= maxCols
  {
    if maxCols <= 0 {
      return "";
    }
    if Width(s) <= maxCols {
      return s;
    }
    WidthAppend("", ELLIPSIS);
    if maxCols == 1 {
      assert s[..0] == "" && "" + [ELLIPSIS] == [ELLIPSIS];
      FirstCharacter(s);
      return [ELLIPSIS];
    }
    var n := FittingLength(s, maxCols - 1);
    WidthAppend(s[..n], ELLIPSIS);
    return s[..n] + [ELLIPSIS];
  }

  /** The loop: how many characters fit. */
  method FittingLength(s: string, budget: nat) returns (n: nat)
    requires Width(s) > budget
    ensures n < |s| && Width(s[..n]) <= budget < Width(s[..n + 1])
  {
    var cols := 0;
    n := 0;
    while n < |s| && cols + CharWidth(s[n]) <= budget
      invariant n <= |s| && cols == Width(s[..n]) <= budget
    {
      WidthNext(s, n);
      cols := cols + CharWidth(s[n]);
      n := n + 1;
    }
    assert s[..|s|] == s;
    WidthNext(s, n);
  }

  lemma {:induction false} WidthNext(s: string, n: nat)
    requires n < |s|
    ensures Width(s[..n + 1]) == Width(s[..n]) + CharWidth(s[n])
  {
    assert s[..n + 1] == s[..n] + [s[n]];
    WidthAppend(s[..n], s[n]);
  }

  lemma {:induction false} FirstCharacter(s: string)
    requires s != ""
    ensures Width(s[..1]) >= 1
  {
    assert s[..1] == "" + [s[0]];
    WidthAppend("", s[0]);
  }

  // ----- The program's own object -----

  class Screen {
    const settings: Settings
    const lower: char -> char
    var selected: set<nat>
    var cursor: int
    var width: int
    var height: int
    var filter: string
    var input: Input
    var error: bool
    var canceled: bool
    var done: bool
    var confirming: bool

    function Value(): Model
      reads this
    {
      Model(settings, selected, cursor, width, height, filter, input, error, canceled, done, confirming)
    }

    ghost predicate Valid()
      reads this
    {
      KeepsBlanks(lower) && Inv(Value(), Shows(settings.candidates, lower))
    }

    constructor (settings: Settings, lower: char -> char)
      requires KeepsBlanks(lower)
      ensures Value() == Start(settings) && Valid() && this.lower == lower
    {
      this.settings, this.lower := settings, lower;
      selected, cursor, width, height, filter, input := {}, 0, 80, 24, "", Input("", 0);
      error, canceled, done, confirming := false, false, false, false;
      new;
      StartIsValid(settings, lower);
    }

    method EnsureCursorInRange()
      requires KeepsBlanks(lower)
      modifies this`cursor
      ensures Value() == Clamp(old(Value()), Visible(settings.candidates, filter, lower))
    {
      var rows := FilteredIndices(settings.candidates, filter, lower);
      if |rows| == 0 || cursor < 0 {
        cursor := 0;
      } else if cursor >= |rows| {
        cursor := |rows| - 1;
      }
    }

    method SyncFilter(next: Input)
      requires KeepsBlanks(lower)
      modifies this
      ensures Value() == Sync(old(Value()), next, Shows(settings.candidates, lower))
    {
      input := next;
      if next.value != filter {
        filter := next.value;
        EnsureCursorInRange();
        error := false;
      }
    }

    method DeleteBeforeCursor()
      requires KeepsBlanks(lower)
      modifies this
      ensures Value() == OnBackspace(old(Value()), Shows(settings.candidates, lower))
    {
      var next := DeleteBefore(input);
      if next.None? {
        return;
      }
      filter, input := next.value.value, next.value;
      EnsureCursorInRange();
      error := false;
    }

    /** Toggle the row under the cursor and go on to the next one. The invariant makes the row exist. */
    method ToggleCurrent()
      requires Valid()
      modifies this
      ensures Value() == Toggle(old(Value()), Visible(settings.candidates, filter, lower))
    {
      var rows := FilteredIndices(settings.candidates, filter, lower);
      if |rows| == 0 {
        error := true;
        return;
      }
      var i := rows[cursor];
      selected := if i in selected then selected - {i} else selected + {i};
      error := false;
      if cursor < |rows| - 1 {
        cursor := cursor + 1;
      }
    }

    method ConfirmRow()
      requires Valid()
      modifies this
      ensures Value() == ConfirmSingle(old(Value()), Visible(settings.candidates, filter, lower))
    {
      var rows := FilteredIndices(settings.candidates, filter, lower);
      if |rows| == 0 {
        error := true;
        return;
      }
      selected := {rows[cursor]};
      if settings.reducedMotion {
        done := true;
      } else {
        confirming := true;
      }
    }

    method PressEnter()
      requires Valid()
      modifies this
      ensures Value() == OnKey(old(Value()), Enter, Shows(settings.candidates, lower))
    {
      if settings.single {
        ConfirmRow();
      } else if selected == {} {
        error := true;
      } else if settings.reducedMotion {
        done := true;
      } else {
        confirming := true;
      }
    }

    method PressKey(key: Key)
      requires Valid() && !confirming
      modifies this
      ensures Value() == OnKey(old(Value()), key, Shows(settings.candidates, lower))
    {
      match key
      case Cancel => canceled := true;
      case Backspace => DeleteBeforeCursor();
      case Enter => PressEnter();
      case Up =>
        if cursor > 0 {
          cursor := cursor - 1;
        }
        error := false;
      case Down =>
        var rows := FilteredIndices(settings.candidates, filter, lower);
        if cursor < |rows| - 1 {
          cursor := cursor + 1;
        }
        error := false;
      case Space =>
        if settings.single {
          ConfirmRow();
        } else {
          ToggleCurrent();
        }
      case Edit(next) => SyncFilter(next);
    }

    /** One message, as long as the program has not quit. */
    method Update(msg: Msg)
      requires Valid() && !canceled && !done
      modifies this
      ensures Value() == Step(old(Value()), msg, Shows(settings.candidates, lower)) && Valid()
      ensures Responds(old(Value()), msg, Shows(settings.candidates, lower), Value())
    {
      StepKeepsInv(Value(), msg, Shows(settings.candidates, lower));
      StepResponds(Value(), msg, Shows(settings.candidates, lower));
      match msg
      case Resize(w, h) =>
        if w > 0 {
          width := w;
        }
        if h > 0 {
          height := h;
        }
      case ConfirmDone =>
        if confirming && !canceled {
          done := true;
        }
      case KeyPress(key) =>
        if !confirming {
          PressKey(key);
        }
      case Other(next) => SyncFilter(next);
    }

    /** The rows that one screen shows: as many as fit, and the row under the cursor among them. */
    method BodyRange(compactTitle: bool) returns (start: int, end: int)
      requires Valid()
      ensures var total, fit := |Visible(settings.candidates, filter, lower)|, BodyRows(height, compactTitle);
              && fit >= 1 && 0 <= start <= end <= total && end - start == (if total < fit then total else fit)
              && (total > 0 ==> start <= cursor < end)
    {
      var rows := FilteredIndices(settings.candidates, filter, lower);
      start, end := Viewport(|rows|, cursor, BodyRows(height, compactTitle));
    }
  }
}
