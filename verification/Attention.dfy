/** The attention inbox: items created from events, refreshed, superseded and closed. */
module Attention {
  import opened Basics
  import opened Text

  datatype ItemType = CompletionReported | NextMove | HasFailed | IsBlocked | IsRunning

  datatype Status = Active | Dismissed | Acted

  /** Items are kept in order of their row id. */
  datatype Item = Item(source: int, task: string, itemType: ItemType, status: Status)

  /** `TERMINAL_ITEM_TYPES`. */
  predicate IsTerminal(itemType: ItemType) {
    itemType.CompletionReported? || itemType.HasFailed? || itemType.IsBlocked?
  }

  /**
   The parts of an event that decide its type, lower-cased: the payload's status is also trimmed.
   `nextMove` says whether the payload's result names an item with a target task.
   */
  datatype Report = Report(kind: string, status: string, message: string, error: string, reason: string,
                           summary: string, nextMove: bool)

  const SUCCESS: seq<string> := ["succeeded", "success", "ok", "done", "completed"]
  const FAILURE: seq<string> := ["failed", "fail", "error", "timeout", "denied", "panic"]
  const BLOCKED: seq<string> := ["blocked", "waiting", "waiting_on_someone"]
  const RUNNING: seq<string> := ["running", "in_progress", "progress"]

  predicate IsCompletion(r: Report) {
    r.kind == "task.completed" || (r.kind == "skill.focus_report" && r.status in SUCCESS)
  }

  /** A word for failure occurs in the texts of a report. */
  predicate SpeaksOfFailure(r: Report) {
    var text := Join([r.message, r.error, r.reason, r.summary], ' ');
    exists token :: token in FAILURE && Contains(text, token)
  }

  predicate IsFailure(r: Report) {
    r.status in FAILURE || SpeaksOfFailure(r)
  }

  predicate IsStuck(r: Report) {
    var text := Join([r.message, r.reason, r.summary], ' ');
    r.status in BLOCKED || Contains(text, "blocked") || Contains(text, "waiting on")
  }

  predicate IsStart(r: Report) {
    r.status in RUNNING || r.kind == "task.started" || r.kind == "agent.started"
  }

  /** The type an event gets, in the order the tests are made. */
  function Classify(r: Report): Option<ItemType> {
    if IsCompletion(r) then Some(CompletionReported)
    else if r.kind == "agent.completed" && r.nextMove then Some(NextMove)
    else if IsFailure(r) then Some(HasFailed)
    else if IsStuck(r) then Some(IsBlocked)
    else if IsStart(r) then Some(IsRunning)
    else None
  }

  /**
   A report with a success status is shown as failed exactly when its kind is not one of the two whose
   success counts, it carries no next move, and its texts contain a word for failure.
   */
  lemma SuccessShownAsFailure(r: Report)
    requires r.status in SUCCESS
    ensures Classify(r) == Some(HasFailed) <==>
      && r.kind != "task.completed" && r.kind != "skill.focus_report"
      && !(r.kind == "agent.completed" && r.nextMove) && SpeaksOfFailure(r)
  {
    SuccessIsNoFailure(r.status);
  }

  lemma SuccessIsNoFailure(status: string)
    requires status in SUCCESS
    ensures status !in FAILURE
  {
    SuccessStarts(status);
    if status in FAILURE {
      FailureStarts(status);
    }
  }

  lemma SuccessStarts(status: string)
    requires status in SUCCESS
    ensures status != ""
    ensures status[0] == 's' || status[0] == 'o' || status[0] == 'c' || (status[0] == 'd' && |status| == 4)
  {
  }

  lemma FailureStarts(token: string)
    requires token in FAILURE
    ensures token != "" && token[0] != 's' && token[0] != 'o' && token[0] != 'c' && (token[0] == 'd' ==> |token| == 6)
  {
  }

  /** An agent that completed with "0 failed" is shown as failed. */
  lemma NoFailureShownAsFailure()
    ensures Classify(Report("agent.completed", "succeeded", "0 failed", "", "", "", false)) == Some(HasFailed)
  {
    var r := Report("agent.completed", "succeeded", "0 failed", "", "", "", false);
    var rest := " " + Join(["", "", ""], ' ');
    assert [r.message, r.error, r.reason, r.summary][1..] == ["", "", ""];
    assert Join([r.message, r.error, r.reason, r.summary], ' ') == "0 " + "failed" + rest;
    ContainsMiddle("0 ", "failed", rest);
    assert FAILURE[0] == "failed" && SUCCESS[0] == "succeeded";
    SuccessShownAsFailure(r);
  }

  predicate Matches(item: Item, task: string, types: set<ItemType>) {
    item.status.Active? && item.task == task && item.itemType in types
  }

  function ActedIf(item: Item, task: string, types: set<ItemType>): Item {
    if Matches(item, task, types) then item.(status := Acted) else item
  }

  /** All active items of a task with one of these types become acted. */
  function Close(items: seq<Item>, task: string, types: set<ItemType>): (after: seq<Item>)
    ensures |after| == |items|
    ensures forall i :: 0 <= i < |items| ==> after[i] == ActedIf(items[i], task, types)
  {
    seq(|items|, i requires 0 <= i < |items| => ActedIf(items[i], task, types))
  }

  const TERMINALS: set<ItemType> := {CompletionReported, HasFailed, IsBlocked}

  /** The types that a new item of this type makes stale. */
  function StaleTypes(itemType: ItemType): set<ItemType> {
    if itemType.IsRunning? then TERMINALS
    else if IsTerminal(itemType) then {IsRunning}
    else {}
  }

  function WithSource(items: seq<Item>, source: int): Option<nat> {
    if items == [] then None
    else if items[|items| - 1].source == source then Some(|items| - 1)
    else WithSource(items[..|items| - 1], source)
  }

  /** The newest active item of a task and type. */
  function Duplicate(items: seq<Item>, task: string, itemType: ItemType): Option<nat> {
    if items == [] then None
    else if Matches(items[|items| - 1], task, {itemType}) then Some(|items| - 1)
    else Duplicate(items[..|items| - 1], task, itemType)
  }

  lemma {:induction false} WithSourceFinds(items: seq<Item>, source: int)
    ensures
      var found := WithSource(items, source);
      && (found.Some? ==> found.value < |items| && items[found.value].source == source)
      && (found.None? ==> forall i :: 0 <= i < |items| ==> items[i].source != source)
  {
    if items == [] {
    } else {
      WithSourceFinds(items[..|items| - 1], source);
    }
  }

  lemma {:induction false} DuplicateIsNewest(items: seq<Item>, task: string, itemType: ItemType)
    ensures
      var found := Duplicate(items, task, itemType);
      && (found.Some? ==> found.value < |items| && Matches(items[found.value], task, {itemType}))
      && forall i :: 0 <= i < |items| && Matches(items[i], task, {itemType}) ==> found.Some? && i <= found.value
  {
    if items == [] {
    } else {
      DuplicateIsNewest(items[..|items| - 1], task, itemType);
    }
  }

  /** What an event of this type does to the items when its source is new and its task exists. */
  function Place(items: seq<Item>, source: int, itemType: ItemType, task: string): seq<Item> {
    var closed := Close(items, task, StaleTypes(itemType));
    var duplicate := Duplicate(items, task, itemType);
    if duplicate.Some? && duplicate.value < |items| then
      closed[duplicate.value := closed[duplicate.value].(source := source)]
    else
      closed + [Item(source, task, itemType, Active)]
  }

  datatype Action =
    | Event(source: int, report: Report, task: Option<string>)
    | SetStatus(item: int, status: string)
    | FinishTask(name: string)

  /** `maybe_create_from_event`: `task` is the task the event is about, if there is one. */
  function OnEvent(items: seq<Item>, source: int, itemType: Option<ItemType>, task: Option<string>): seq<Item> {
    if WithSource(items, source).Some? || itemType.None? || task.None? then items
    else Place(items, source, itemType.value, task.value)
  }

  /** `set_item_status`; an unknown item or status is refused without a change. */
  function OnSetStatus(items: seq<Item>, item: int, status: string): seq<Item> {
    if !(0 <= item < |items|) || !items[item].status.Active? then items
    else if status == "dismissed" then items[item := items[item].(status := Dismissed)]
    else if status == "acted" then items[item := items[item].(status := Acted)]
    else items
  }

  /** `mark_matching_task_items_acted`. */
  function OnFinish(items: seq<Item>, task: string): seq<Item> {
    var name := Trim(task, PythonSpace);
    if name == "" then items else Close(items, name, TERMINALS + {IsRunning})
  }

  function Act(items: seq<Item>, action: Action): seq<Item> {
    match action
    case Event(source, report, task) => OnEvent(items, source, Classify(report), task)
    case SetStatus(item, status) => OnSetStatus(items, item, status)
    case FinishTask(name) => OnFinish(items, name)
  }

  function Run(items: seq<Item>, actions: seq<Action>): seq<Item> {
    if actions == [] then items else Act(Run(items, actions[..|actions| - 1]), actions[|actions| - 1])
  }

  predicate Clash(a: ItemType, b: ItemType) {
    a == b || a in StaleTypes(b) || b in StaleTypes(a)
  }

  /** Two different items have different sources and are not both active with clashing types for one task. */
  predicate Compatible(a: Item, b: Item) {
    && a.source != b.source
    && !(a.status.Active? && b.status.Active? && a.task == b.task && Clash(a.itemType, b.itemType))
  }

  /**
   Sources are distinct, each task has at most one active item per type, and no active running item
   next to an active completed, failed or blocked one.
   */
  ghost predicate Coherent(items: seq<Item>) {
    forall i, j :: 0 <= i < j < |items| ==> Compatible(items[i], items[j])
  }

  /** No item disappears or changes task or type, and a closed item stays exactly as it is. */
  ghost predicate KeepsClosed(before: seq<Item>, after: seq<Item>) {
    && |before| <= |after|
    && forall i :: 0 <= i < |before| ==>
         && after[i].task == before[i].task && after[i].itemType == before[i].itemType
         && (!before[i].status.Active? ==> after[i] == before[i])
  }

  /** What one report leaves behind. */
  lemma PlaceShows(items: seq<Item>, source: int, itemType: ItemType, task: string)
    requires Coherent(items) && WithSource(items, source).None?
    ensures
      var after := Place(items, source, itemType, task);
      && (exists i :: 0 <= i < |after| && after[i] == Item(source, task, itemType, Active))
      && (forall i :: 0 <= i < |after| && Matches(after[i], task, StaleTypes(itemType) + {itemType}) ==>
           after[i] == Item(source, task, itemType, Active))
      && forall i :: 0 <= i < |items| && !Matches(items[i], task, StaleTypes(itemType) + {itemType}) ==>
           after[i] == items[i]
  {
    DuplicateIsNewest(items, task, itemType);
    var after, found := Place(items, source, itemType, task), Duplicate(items, task, itemType);
    if found.Some? {
      forall i | 0 <= i < found.value
        ensures Compatible(items[i], items[found.value])
      {
      }
      assert after[found.value] == Item(source, task, itemType, Active);
    } else {
      assert after[|items|] == Item(source, task, itemType, Active);
    }
  }

  lemma CloseKeepsCoherent(items: seq<Item>, task: string, types: set<ItemType>)
    requires Coherent(items)
    ensures Coherent(Close(items, task, types)) && KeepsClosed(items, Close(items, task, types))
  {
    var after := Close(items, task, types);
    forall i, j | 0 <= i < j < |after|
      ensures Compatible(after[i], after[j])
    {
      assert Compatible(items[i], items[j]);
    }
  }

  /** A coherent table stays so when an item compatible with the others is put into one place or at the end. */
  lemma InsertedCoherent(closed: seq<Item>, after: seq<Item>, item: Item, at: nat)
    requires Coherent(closed) && at <= |closed|
    requires after == if at < |closed| then closed[at := item] else closed + [item]
    requires forall i :: 0 <= i < |closed| && i != at ==> Compatible(closed[i], item) && Compatible(item, closed[i])
    ensures Coherent(after)
  {
    forall i, j | 0 <= i < j < |after| ensures Compatible(after[i], after[j]) {
      if i != at && j != at {
        assert after[i] == closed[i] && after[j] == closed[j];
      }
    }
  }

  lemma PlaceKeepsCoherent(items: seq<Item>, source: int, itemType: ItemType, task: string)
    requires Coherent(items) && WithSource(items, source).None?
    ensures Coherent(Place(items, source, itemType, task)) && KeepsClosed(items, Place(items, source, itemType, task))
  {
    var closed, after := Close(items, task, StaleTypes(itemType)), Place(items, source, itemType, task);
    var item := Item(source, task, itemType, Active);
    WithSourceFinds(items, source);
    DuplicateIsNewest(items, task, itemType);
    CloseKeepsCoherent(items, task, StaleTypes(itemType));
    var found := Duplicate(items, task, itemType);
    var at := if found.Some? then found.value else |items|;
    forall i | 0 <= i < |items| && i != at
      ensures Compatible(closed[i], item) && Compatible(item, closed[i])
    {
      assert closed[i] == ActedIf(items[i], task, StaleTypes(itemType));
      assert found.Some? && i < at ==> Compatible(items[i], items[at]);
    }
    InsertedCoherent(closed, after, item, at);
  }

  lemma OnEventKeepsCoherent(items: seq<Item>, source: int, itemType: Option<ItemType>, task: Option<string>)
    requires Coherent(items)
    ensures Coherent(OnEvent(items, source, itemType, task))
    ensures KeepsClosed(items, OnEvent(items, source, itemType, task))
  {
    if WithSource(items, source).None? && itemType.Some? && task.Some? {
      PlaceKeepsCoherent(items, source, itemType.value, task.value);
    }
  }

  lemma OnSetStatusKeepsCoherent(items: seq<Item>, item: int, status: string)
    requires Coherent(items)
    ensures Coherent(OnSetStatus(items, item, status)) && KeepsClosed(items, OnSetStatus(items, item, status))
  {
    var after := OnSetStatus(items, item, status);
    forall i, j | 0 <= i < j < |after|
      ensures Compatible(after[i], after[j])
    {
      assert Compatible(items[i], items[j]);
    }
  }

  lemma ActKeepsCoherent(items: seq<Item>, action: Action)
    requires Coherent(items)
    ensures Coherent(Act(items, action)) && KeepsClosed(items, Act(items, action))
  {
    match action {
      case Event(source, report, task) => OnEventKeepsCoherent(items, source, Classify(report), task);
      case SetStatus(item, status) => OnSetStatusKeepsCoherent(items, item, status);
      case FinishTask(name) => CloseKeepsCoherent(items, Trim(name, PythonSpace), TERMINALS + {IsRunning});
    }
  }

  /** Coherence holds in every run. */
  lemma {:induction false} RunsStayCoherent(items: seq<Item>, actions: seq<Action>)
    requires Coherent(items)
    ensures Coherent(Run(items, actions)) && KeepsClosed(items, Run(items, actions))
  {
    if actions == [] {
    } else {
      RunsStayCoherent(items, actions[..|actions| - 1]);
      ActKeepsCoherent(Run(items, actions[..|actions| - 1]), actions[|actions| - 1]);
    }
  }

  lemma {:induction false} RunConcat(items: seq<Item>, actions: seq<Action>, more: seq<Action>)
    ensures Run(items, actions + more) == Run(Run(items, actions), more)
  {
    if more == [] {
      assert actions + more == actions;
    } else {
      RunConcat(items, actions, more[..|more| - 1]);
      assert (actions + more)[..|actions + more| - 1] == actions + more[..|more| - 1];
    }
  }

  /** In every run from the empty inbox, an item that is closed at some point never becomes active again. */
  lemma ClosedItemsStayClosed(actions: seq<Action>, more: seq<Action>)
    ensures Coherent(Run([], actions)) && KeepsClosed(Run([], actions), Run([], actions + more))
  {
    RunsStayCoherent([], actions);
    RunConcat([], actions, more);
    RunsStayCoherent(Run([], actions), more);
  }

  /**
   Handling an event changes nothing exactly when it is ignored: its source is shown, or it has no type or no task.
   */
  lemma EventsAreHandledOnce(items: seq<Item>, source: int, itemType: Option<ItemType>, task: Option<string>)
    ensures OnEvent(items, source, itemType, task) == items <==>
      WithSource(items, source).Some? || itemType.None? || task.None?
    ensures OnEvent(OnEvent(items, source, itemType, task), source, itemType, task)
         == OnEvent(items, source, itemType, task)
  {
    WithSourceFinds(items, source);
    var after := OnEvent(items, source, itemType, task);
    WithSourceFinds(after, source);
    if WithSource(items, source).None? && itemType.Some? && task.Some? {
      DuplicateIsNewest(items, task.value, itemType.value);
      var found := Duplicate(items, task.value, itemType.value);
      var at := if found.Some? then found.value else |items|;
      assert after[at].source == source;
    }
  }

  class Inbox {
    var items: seq<Item>

    constructor ()
      ensures items == []
    {
      items := [];
    }

    method CloseMatching(task: string, types: set<ItemType>)
      modifies this
      ensures items == Close(old(items), task, types)
    {
      var rows := items;
      for i := 0 to |rows|
        invariant |items| == |rows|
        invariant forall j :: 0 <= j < i ==> items[j] == ActedIf(rows[j], task, types)
        invariant forall j :: i <= j < |rows| ==> items[j] == rows[j]
      {
        if Matches(rows[i], task, types) {
          items := items[i := rows[i].(status := Acted)];
        }
      }
    }

    /** `_apply_state_transition`. */
    method ApplyStateTransition(task: string, itemType: ItemType)
      modifies this
      ensures items == Close(old(items), task, StaleTypes(itemType))
    {
      if itemType.IsRunning? {
        CloseMatching(task, TERMINALS);
      } else if IsTerminal(itemType) {
        CloseMatching(task, {IsRunning});
      } else {
        assert items == Close(items, task, {});
      }
    }

    /** `maybe_create_from_event`; the result is the position of the item that shows the event. */
    method MaybeCreateFromEvent(source: int, report: Report, task: Option<string>) returns (at: Option<nat>)
      modifies this
      ensures items == Act(old(items), Event(source, report, task))
      ensures at.Some? <==> WithSource(old(items), source).Some? || (Classify(report).Some? && task.Some?)
      ensures at.Some? ==> at.value < |items| && items[at.value].source == source
    {
      var existing := WithSource(items, source);
      WithSourceFinds(items, source);
      if existing.Some? {
        return existing;
      }
      var itemType := Classify(report);
      if itemType.None? || task.None? {
        return None;
      }
      var duplicate := Duplicate(items, task.value, itemType.value);
      DuplicateIsNewest(items, task.value, itemType.value);
      ApplyStateTransition(task.value, itemType.value);
      if duplicate.Some? {
        items := items[duplicate.value := items[duplicate.value].(source := source)];
        return duplicate;
      }
      items := items + [Item(source, task.value, itemType.value, Active)];
      at := Some(|items| - 1);
    }

    /** `set_item_status`: `None` stands for the two errors, else the status the item has afterwards. */
    method SetItemStatus(item: int, status: string) returns (now: Option<Status>)
      modifies this
      ensures items == OnSetStatus(old(items), item, status)
      ensures now.Some? <==>
        0 <= item < |old(items)| && (old(items)[item].status.Active? ==> status == "dismissed" || status == "acted")
      ensures now.Some? ==> now.value == items[item].status && !now.value.Active?
    {
      if item < 0 || item >= |items| {
        return None;
      }
      if !items[item].status.Active? {
        return Some(items[item].status);
      }
      if status == "dismissed" {
        items := items[item := items[item].(status := Dismissed)];
      } else if status == "acted" {
        items := items[item := items[item].(status := Acted)];
      } else {
        return None;
      }
      now := Some(items[item].status);
    }

    /** `mark_matching_task_items_acted`. */
    method MarkMatchingTaskItemsActed(task: string)
      modifies this
      ensures items == OnFinish(old(items), task)
    {
      var name := Trim(task, PythonSpace);
      if name == "" {
        return;
      }
      CloseMatching(name, TERMINALS + {IsRunning});
    }
  }
}
