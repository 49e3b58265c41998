/** The plan of a Jira import and its application (internal/cli/ws_import_jira.go). */
module JiraImport {
  import opened Text
  import opened Counting

  datatype Input = Input(id: string, title: string)

  datatype Action = Create | Skip | Fail

  datatype Item = Item(key: string, title: string, action: Action, reason: string, message: string)

  /** What the plan is made against: which ids are acceptable, and the directories that exist. */
  datatype Root = Root(idError: string -> Option<string>, active: set<string>, archived: set<string>)

  function Planned(input: Input, root: Root): Item {
    if root.idError(input.id).Some? then Item(input.id, input.title, Fail, "invalid_workspace_id",
        root.idError(input.id).value)
    else if input.id in root.active then Item(input.id, input.title, Skip, "already_active", "")
    else if input.id in root.archived then Item(input.id, input.title, Skip, "archived_exists", "")
    else Item(input.id, input.title, Create, "", "")
  }

  /** An input is to be created exactly if its id is acceptable and not in use, and failed exactly if its id
      is not acceptable; the item is about that input and says why it is not to be created. */
  predicate PlannedAs(input: Input, root: Root, item: Item) {
    && item.key == input.id && item.title == input.title
    && (item.action == Fail <==> root.idError(input.id).Some?)
    && (item.action == Create <==>
          root.idError(input.id).None? && input.id !in root.active && input.id !in root.archived)
    && (item.action == Fail ==>
          item.reason == "invalid_workspace_id" && root.idError(input.id) == Some(item.message))
    && (item.action == Skip ==>
          item.message == "" && item.reason == if input.id in root.active then "already_active" else "archived_exists")
  }

  /** What one creation answers. */
  datatype Outcome = Made | Refused(reason: string, message: string)

  lemma {:induction false} PlannedMeans(input: Input, root: Root)
    ensures PlannedAs(input, root, Planned(input, root))
  {
  }

  lemma {:induction false} AllPlannedMean(inputs: seq<Input>, root: Root, items: seq<Item>)
    requires |items| == |inputs| && forall i :: 0 <= i < |inputs| ==> items[i] == Planned(inputs[i], root)
    ensures forall i :: 0 <= i < |inputs| ==> PlannedAs(inputs[i], root, items[i])
  {
    forall i | 0 <= i < |inputs| ensures PlannedAs(inputs[i], root, items[i]) { PlannedMeans(inputs[i], root); }
  }

  // ----- Counting items -----

  function Is(action: Action): Item -> bool {
    (item: Item) => item.action == action
  }

  function IsFor(action: Action, id: string): Item -> bool {
    (item: Item) => item.action == action && item.key == id
  }

  function HasId(id: string): Input -> bool {
    (input: Input) => input.id == id
  }

  /** Every item is counted under exactly one action. */
  lemma {:induction false} ActionsPartition(items: seq<Item>)
    ensures Count(items, Is(Create)) + Count(items, Is(Skip)) + Count(items, Is(Fail)) == |items|
  {
    if items != [] { ActionsPartition(items[..|items| - 1]); }
  }

  /** The items to create are, id by id, the inputs to create. */
  ghost predicate SameIds(items: seq<Item>, inputs: seq<Input>) {
    && Count(items, Is(Create)) == |inputs|
    && forall id :: Count(items, IsFor(Create, id)) == Count(inputs, HasId(id))
  }

  lemma {:induction false} SameIdsNext(items: seq<Item>, inputs: seq<Input>, item: Item, input: Input)
    requires SameIds(items, inputs) && item.key == input.id
    ensures SameIds(items + [item], if item.action == Create then inputs + [input] else inputs)
  {
    CountAppend(items, item, Is(Create));
    forall id
      ensures Count(items + [item], IsFor(Create, id)) ==
              Count(if item.action == Create then inputs + [input] else inputs, HasId(id))
    {
      CountAppend(items, item, IsFor(Create, id));
      CountAppend(inputs, input, HasId(id));
    }
  }

  /** The waiting inputs are those of the items to create, in the order of the inputs. */
  ghost predicate InOrder(order: seq<nat>, creates: seq<Input>, inputs: seq<Input>, items: seq<Item>) {
    && |order| == |creates| && |items| <= |inputs|
    && (forall k :: 0 <= k < |order| ==> order[k] < |items| && creates[k] == inputs[order[k]])
    && (forall j, k :: 0 <= j < k < |order| ==> order[j] < order[k])
    && (forall i :: i in order <==> 0 <= i < |items| && items[i].action == Create)
  }

  lemma {:induction false} InOrderNext(
    order: seq<nat>, creates: seq<Input>, inputs: seq<Input>, items: seq<Item>, item: Item)
    requires InOrder(order, creates, inputs, items) && |items| < |inputs|
    ensures if item.action == Create
            then InOrder(order + [|items|], creates + [inputs[|items|]], inputs, items + [item])
            else InOrder(order, creates, inputs, items + [item])
  {
  }

  /** The items of the first inputs, and those of them to create. */
  ghost predicate BuiltFrom(
    inputs: seq<Input>, root: Root, items: seq<Item>, creates: seq<Input>, order: seq<nat>) {
    && |items| <= |inputs| && (forall i :: 0 <= i < |items| ==> items[i] == Planned(inputs[i], root))
    && SameIds(items, creates) && InOrder(order, creates, inputs, items)
  }

  lemma {:induction false} BuiltNext(
    inputs: seq<Input>, root: Root, items: seq<Item>, creates: seq<Input>, order: seq<nat>)
    requires BuiltFrom(inputs, root, items, creates, order) && |items| < |inputs|
    ensures var n := |items|;
            var item := Planned(inputs[n], root);
            if item.action == Create
            then BuiltFrom(inputs, root, items + [item], creates + [inputs[n]], order + [n])
            else BuiltFrom(inputs, root, items + [item], creates, order)
  {
    var item := Planned(inputs[|items|], root);
    SameIdsNext(items, creates, item, inputs[|items|]);
    InOrderNext(order, creates, inputs, items, item);
  }

  lemma {:induction false} ReorderKeepsIds(items: seq<Item>, input: Input, waiting: seq<Input>, created: seq<Input>)
    requires SameIds(items, [input] + (waiting + created))
    ensures SameIds(items, waiting + (created + [input]))
  {
    var a, b := [input] + (waiting + created), waiting + (created + [input]);
    assert multiset(a) == multiset(b);
    forall id ensures Count(items, IsFor(Create, id)) == Count(b, HasId(id)) { CountOfSameElements(a, b, HasId(id)); }
  }

  /** Failing one of the items takes its input out. */
  lemma {:induction false} FailKeepsIds(items: seq<Item>, i: nat, failed: Item, input: Input, rest: seq<Input>)
    requires SameIds(items, [input] + rest) && i < |items|
    requires items[i].action == Create && items[i].key == input.id && failed.action == Fail
    ensures SameIds(items[i := failed], rest)
  {
    CountUpdate(items, i, failed, Is(Create));
    assert ([input] + rest)[1..] == rest;
    forall id ensures Count(items[i := failed], IsFor(Create, id)) == Count(rest, HasId(id)) {
      CountUpdate(items, i, failed, IsFor(Create, id));
      CountFirst([input] + rest, HasId(id));
    }
  }

  // ----- The plan -----

  class Plan {
    var candidates: nat
    var toCreate: nat
    var skipped: nat
    var failed: nat
    var items: seq<Item>

    /** Each number of the summary is the number of items with that action, ... */
    ghost predicate Counted()
      reads this
    {
      toCreate == Count(items, Is(Create)) && skipped == Count(items, Is(Skip)) && failed == Count(items, Is(Fail))
    }

    /** ... and together they are all. */
    ghost predicate Balanced()
      reads this
    {
      && Counted()
      && candidates == |items| == toCreate + skipped + failed
    }

    constructor ()
      ensures Balanced() && items == []
    {
      candidates, toCreate, skipped, failed, items := 0, 0, 0, 0, [];
    }

    /** One item for each input, and the inputs to create in the order given. */
    method Build(inputs: seq<Input>, root: Root) returns (creates: seq<Input>, ghost order: seq<nat>)
      modifies this
      ensures Balanced() && candidates == |inputs|
      ensures |items| == |inputs| && forall i :: 0 <= i < |inputs| ==> items[i] == Planned(inputs[i], root)
      ensures forall i :: 0 <= i < |inputs| ==> PlannedAs(inputs[i], root, items[i])
      ensures SameIds(items, creates) && InOrder(order, creates, inputs, items)
    {
      candidates, toCreate, skipped, failed, items := |inputs|, 0, 0, 0, [];
      creates, order := [], [];
      for i := 0 to |inputs|
        invariant candidates == |inputs|
        invariant |items| == i && Counted() && BuiltFrom(inputs, root, items, creates, order)
      {
        creates, order := PlanInput(inputs, i, root, creates, order);
      }
      ActionsPartition(items);
      AllPlannedMean(inputs, root, items);
    }

    /** The body of the loop over the inputs. */
    method PlanInput(inputs: seq<Input>, i: nat, root: Root, before: seq<Input>, ghost places: seq<nat>)
      returns (creates: seq<Input>, ghost order: seq<nat>)
      requires i == |items| < |inputs| && Counted() && BuiltFrom(inputs, root, items, before, places)
      modifies this`items, this`toCreate, this`skipped, this`failed
      ensures |items| == i + 1 && Counted() && BuiltFrom(inputs, root, items, creates, order)
    {
      var item := Planned(inputs[i], root);
      BuiltNext(inputs, root, items, before, places);
      AddItem(item);
      creates, order := before, places;
      if item.action == Create {
        creates := creates + [inputs[i]];
        order := order + [i];
      }
    }

    /** One more item, counted under its action. */
    method AddItem(item: Item)
      requires Counted()
      modifies this`items, this`toCreate, this`skipped, this`failed
      ensures items == old(items) + [item] && Counted()
    {
      CountAppend(items, item, Is(Create));
      CountAppend(items, item, Is(Skip));
      CountAppend(items, item, Is(Fail));
      items := items + [item];
      match item.action {
        case Fail => failed := failed + 1;
        case Skip => skipped := skipped + 1;
        case Create => toCreate := toCreate + 1;
      }
    }

    /** Fail the first item to create with this key, or append a failed item if there is none. */
    method MarkFailed(input: Input, reason: string, message: string)
      modifies this`items
      ensures (exists i :: 0 <= i < |old(items)| && IsFor(Create, input.id)(old(items)[i])) ==>
                exists i :: 0 <= i < |old(items)| && IsFor(Create, input.id)(old(items)[i])
                  && (forall j :: 0 <= j < i ==> !IsFor(Create, input.id)(old(items)[j]))
                  && items == old(items)[i := old(items)[i].(action := Fail, reason := reason, message := message)]
      ensures (forall i :: 0 <= i < |old(items)| ==> !IsFor(Create, input.id)(old(items)[i])) ==>
                items == old(items) + [Item(input.id, input.title, Fail, reason, message)]
    {
      for i := 0 to |items|
        invariant items == old(items) && forall j :: 0 <= j < i ==> !IsFor(Create, input.id)(items[j])
      {
        if items[i].key == input.id && items[i].action == Create {
          items := items[i := items[i].(action := Fail, reason := reason, message := message)];
          return;
        }
      }
      items := items + [Item(input.id, input.title, Fail, reason, message)];
    }

    /** A failed creation moves one item from Create to Fail; none is appended. */
    method RecordFailure(input: Input, reason: string, message: string, ghost rest: seq<Input>)
      requires SameIds(items, [input] + rest)
      modifies this`items, this`failed
      ensures SameIds(items, rest) && |items| == |old(items)| && failed == old(failed) + 1
      ensures Count(items, Is(Skip)) == Count(old(items), Is(Skip))
          && Count(items, Is(Fail)) == Count(old(items), Is(Fail)) + 1
    {
      ItemIsThere(items, input, rest);
      ghost var before := items;
      MarkFailed(input, reason, message);
      ghost var k :| 0 <= k < |before| && IsFor(Create, input.id)(before[k])
        && items == before[k := before[k].(action := Fail, reason := reason, message := message)];
      FailKeepsIds(before, k, items[k], input, rest);
      CountUpdate(before, k, items[k], Is(Skip));
      CountUpdate(before, k, items[k], Is(Fail));
      failed := failed + 1;
    }

    /** Create the workspaces one by one; `outcomes` gives for each the reason and message of its failure,
        or nothing. No item is added or lost, and the items left under Create are, id by id, the
        workspaces that were created. */
    method Apply(creates: seq<Input>, outcomes: seq<Outcome>) returns (created: seq<Input>)
      requires Balanced() && SameIds(items, creates) && |outcomes| == |creates|
      modifies this
      ensures Balanced() && candidates == old(candidates) && skipped == old(skipped)
      ensures SameIds(items, created) && toCreate == |created| == Count(outcomes, Ok)
      ensures failed == old(failed) + |creates| - Count(outcomes, Ok)
    {
      created := [];
      assert creates[0..] + [] == creates;
      for i := 0 to |creates|
        invariant |items| == candidates == old(candidates)
        invariant skipped == old(skipped) == Count(items, Is(Skip)) && failed == Count(items, Is(Fail))
        invariant SameIds(items, creates[i..] + created)
        invariant |created| == Count(outcomes[..i], Ok) && failed == old(failed) + i - |created|
      {
        CountAppend(outcomes[..i], outcomes[i], Ok);
        assert outcomes[..i + 1] == outcomes[..i] + [outcomes[i]];
        var rest := creates[i + 1..] + created;
        assert creates[i..] + created == [creates[i]] + rest;
        if outcomes[i].Refused? {
          RecordFailure(creates[i], outcomes[i].reason, outcomes[i].message, rest);
        } else {
          ReorderKeepsIds(items, creates[i], creates[i + 1..], created);
          created := created + [creates[i]];
        }
      }
      assert creates[|creates|..] + created == created && outcomes[..|outcomes|] == outcomes;
      toCreate := |created|;
      ActionsPartition(items);
    }
  }

  predicate Ok(outcome: Outcome) {
    outcome.Made?
  }

  /** While an input is still to be created, an item to create carries its key: the item that a failure
      marks is always there, even when ids repeat. */
  lemma {:induction false} ItemIsThere(items: seq<Item>, input: Input, rest: seq<Input>)
    requires SameIds(items, [input] + rest)
    ensures exists i :: 0 <= i < |items| && IsFor(Create, input.id)(items[i])
  {
    CountFirst([input] + rest, HasId(input.id));
    CountPositive(items, IsFor(Create, input.id));
  }
}
