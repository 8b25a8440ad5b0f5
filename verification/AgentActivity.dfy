/**
 Projection of runtime signals onto three linked tables: runtime sessions, agent turns and the
 per-task activity row (`handle_runtime_signal` and its helpers).
 */
module AgentActivity {
  import opened Basics

  datatype Kind =
    | SessionStarted | SessionResumed | ContextCompacted | SubagentStarted | SubagentCompleted
    | SessionEnded | SessionOffline
    | TurnSubmitted | TurnStarted | TurnActivity | TurnResumed
    | WaitingForApproval | WaitingForInput | WaitingForConfirmation
    | TurnCompleted | TurnFailed | TurnCanceled | TurnStale
    | JournalOnly

  datatype TurnState = Running | Waiting | Completed | Failed | Canceled | Stale

  datatype ActivityState = RunningNow | WaitingNow | ReviewReady | HasFailed | WasCanceled | GoneStale

  datatype SessionState = Idle | SessionRunning | SessionWaiting | Ended | Offline

  datatype Turn = Turn(turnId: string, session: string, task: string, state: TurnState, runtime: string,
                       terminal: string)

  datatype Session = Session(task: string, state: SessionState, runtime: string, terminal: string)

  datatype Activity = Activity(turnId: string, session: string, state: ActivityState, runtime: string, terminal: string,
                               dismissed: bool)

  /** Turns are kept in order of their row id; sessions and activities by their unique key. */
  datatype Tables = Tables(turns: seq<Turn>, sessions: map<string, Session>, activity: map<string, Activity>)

  /**
   One call of `handle_runtime_signal`, after normalisation. `tasks` are the tasks that exist at that
   moment, `elsewhere` is what the agent-session, terminal and workspace lookups would correlate to,
   and `newId` is the identifier a new turn would draw.
   */
  datatype Signal = Signal(kind: Kind, session: string, turnId: string, task: string, runtime: string, terminal: string,
                           tasks: set<string>, elsewhere: string, newId: string)

  function StateForKind(kind: Kind): Option<TurnState> {
    match kind
    case TurnSubmitted | TurnStarted | TurnActivity | TurnResumed => Some(Running)
    case WaitingForApproval | WaitingForInput | WaitingForConfirmation => Some(Waiting)
    case TurnCompleted => Some(Completed)
    case TurnFailed => Some(Failed)
    case TurnCanceled => Some(Canceled)
    case TurnStale => Some(Stale)
    case _ => None
  }

  /** `_activity_state_for_turn_state`. */
  function ActivityStateFor(state: TurnState): ActivityState {
    match state
    case Running => RunningNow
    case Waiting => WaitingNow
    case Completed => ReviewReady
    case Failed => HasFailed
    case Canceled => WasCanceled
    case Stale => GoneStale
  }

  function SessionStateFor(state: TurnState): SessionState {
    match state
    case Running => SessionRunning
    case Waiting => SessionWaiting
    case _ => Idle
  }

  predicate IsActive(turn: Turn) {
    turn.state.Running? || turn.state.Waiting?
  }

  function Or(value: string, fallback: string): string {
    if value != "" then value else fallback
  }

  /** `_correlate_task_public_id`. */
  function Correlate(tables: Tables, sig: Signal): string {
    if sig.task != "" && sig.task in sig.tasks then sig.task
    else if sig.session != "" && sig.session in tables.sessions && tables.sessions[sig.session].task != "" then
      tables.sessions[sig.session].task
    else sig.elsewhere
  }

  /** `_task_by_public_id`. */
  predicate TaskExists(sig: Signal, task: string) {
    task != "" && task in sig.tasks
  }

  /** `_upsert_runtime_session`. */
  function Upsert(sessions: map<string, Session>, sig: Signal, task: string, state: SessionState): map<string, Session>
  {
    if sig.session == "" then sessions
    else
      var row := if sig.session in sessions then sessions[sig.session] else Session("", Idle, "", "");
      var after := Session(Or(task, row.task), state, Or(sig.runtime, row.runtime), Or(sig.terminal, row.terminal));
      sessions[sig.session := after]
  }

  function WithId(turns: seq<Turn>, turnId: string): Option<nat> {
    if turns == [] then None
    else if turns[|turns| - 1].turnId == turnId then Some(|turns| - 1)
    else WithId(turns[..|turns| - 1], turnId)
  }

  function LatestInSession(turns: seq<Turn>, session: string): Option<nat> {
    if turns == [] then None
    else if IsActive(turns[|turns| - 1]) && turns[|turns| - 1].session == session then Some(|turns| - 1)
    else LatestInSession(turns[..|turns| - 1], session)
  }

  function LatestForTask(turns: seq<Turn>, task: string): Option<nat> {
    if turns == [] then None
    else if IsActive(turns[|turns| - 1]) && turns[|turns| - 1].task == task then Some(|turns| - 1)
    else LatestForTask(turns[..|turns| - 1], task)
  }

  /** `_find_active_turn`: by identifier in any state, then the newest active one of the session, then of the task. */
  function FindActiveTurn(turns: seq<Turn>, sig: Signal, task: string): Option<nat> {
    var byId := if sig.turnId != "" then WithId(turns, sig.turnId) else None;
    var bySession := if sig.session != "" then LatestInSession(turns, sig.session) else None;
    if byId.Some? then byId else if bySession.Some? then bySession else LatestForTask(turns, task)
  }

  /** What the three lookups mean. */
  lemma {:induction false} LookupsAreNewest(turns: seq<Turn>, key: string)
    ensures
      var found := WithId(turns, key);
      && (found.Some? ==> found.value < |turns| && turns[found.value].turnId == key)
      && forall i :: 0 <= i < |turns| && turns[i].turnId == key ==> found.Some? && i <= found.value
    ensures
      var found := LatestInSession(turns, key);
      && (found.Some? ==> found.value < |turns| && IsActive(turns[found.value]) && turns[found.value].session == key)
      && forall i :: 0 <= i < |turns| && IsActive(turns[i]) && turns[i].session == key ==>
           found.Some? && i <= found.value
    ensures
      var found := LatestForTask(turns, key);
      && (found.Some? ==> found.value < |turns| && IsActive(turns[found.value]) && turns[found.value].task == key)
      && forall i :: 0 <= i < |turns| && IsActive(turns[i]) && turns[i].task == key ==> found.Some? && i <= found.value
  {
    if turns == [] {
    } else {
      var shorter := turns[..|turns| - 1];
      LookupsAreNewest(shorter, key);
      assert forall i :: 0 <= i < |shorter| ==> turns[i] == shorter[i];
    }
  }

  lemma FoundInRange(turns: seq<Turn>, sig: Signal, task: string)
    ensures FindActiveTurn(turns, sig, task).Some? ==> FindActiveTurn(turns, sig, task).value < |turns|
  {
    LookupsAreNewest(turns, sig.turnId);
    LookupsAreNewest(turns, sig.session);
    LookupsAreNewest(turns, task);
  }

  function RowFor(turn: Turn): Activity {
    Activity(turn.turnId, turn.session, ActivityStateFor(turn.state), turn.runtime, turn.terminal, false)
  }

  /** Write a turn and make its task's activity row show it (`_update_activity`). */
  function WriteTurn(tables: Tables, i: nat, turn: Turn): Tables
    requires i < |tables.turns|
  {
    tables.(turns := tables.turns[i := turn], activity := tables.activity[turn.task := RowFor(turn)])
  }

  /** `_ensure_turn`: the tables, extended by a new running turn if no turn was found. */
  function Ensured(tables: Tables, sig: Signal, task: string): Tables {
    if FindActiveTurn(tables.turns, sig, task).Some? then tables
    else
      var turn := Turn(Or(sig.turnId, sig.newId), sig.session, task, Running, sig.runtime, sig.terminal);
      tables.(turns := tables.turns + [turn])
  }

  function TargetOf(tables: Tables, sig: Signal, task: string): (i: nat)
    ensures i < |Ensured(tables, sig, task).turns|
  {
    FoundInRange(tables.turns, sig, task);
    match FindActiveTurn(tables.turns, sig, task)
    case Some(i) => i
    case None => |tables.turns|
  }

  function Signalled(turn: Turn, sig: Signal, task: string, state: TurnState): Turn {
    Turn(turn.turnId, Or(sig.session, turn.session), task, state, Or(sig.runtime, turn.runtime),
         Or(sig.terminal, turn.terminal))
  }

  /** A turn signal for an existing task. */
  function TurnSignal(tables: Tables, sig: Signal, task: string, state: TurnState): Tables {
    if sig.kind.TurnActivity? && FindActiveTurn(tables.turns, sig, task).None? then tables
    else
      var ensured, i := Ensured(tables, sig, task), TargetOf(tables, sig, task);
      WriteTurn(ensured, i, Signalled(ensured.turns[i], sig, task, state))
        .(sessions := Upsert(tables.sessions, sig, task, SessionStateFor(state)))
  }

  predicate ToSweep(turn: Turn, sig: Signal) {
    IsActive(turn) && turn.session == sig.session && TaskExists(sig, turn.task)
  }

  /** `_stale_active_turns_for_session` after the first `n` turns. */
  function Swept(tables: Tables, sig: Signal, n: nat): (swept: Tables)
    requires n <= |tables.turns|
    ensures |swept.turns| == |tables.turns|
  {
    if n == 0 then tables
    else
      var before := Swept(tables, sig, n - 1);
      var turn := before.turns[n - 1];
      if ToSweep(turn, sig) then WriteTurn(before, n - 1, turn.(state := Stale)) else before
  }

  /** `handle_runtime_signal`. */
  function Step(tables: Tables, sig: Signal): Tables {
    var task := Correlate(tables, sig);
    match sig.kind
    case SessionStarted | SessionResumed => tables.(sessions := Upsert(tables.sessions, sig, task, Idle))
    case ContextCompacted | SubagentStarted | SubagentCompleted => tables
    case SessionEnded | SessionOffline =>
      var state := if sig.kind.SessionEnded? then Ended else Offline;
      var updated := tables.(sessions := Upsert(tables.sessions, sig, task, state));
      if sig.session == "" then updated else Swept(updated, sig, |updated.turns|)
    case _ =>
      var state := StateForKind(sig.kind);
      if state.None? || !TaskExists(sig, task) then tables else TurnSignal(tables, sig, task, state.value)
  }

  /** The service over mutable tables. */
  class Service {
    var turns: seq<Turn>
    var sessions: map<string, Session>
    var activity: map<string, Activity>

    constructor ()
      ensures View() == Tables([], map[], map[])
    {
      turns, sessions, activity := [], map[], map[];
    }

    ghost function View(): Tables reads this {
      Tables(turns, sessions, activity)
    }

    method UpsertSession(sig: Signal, task: string, state: SessionState)
      modifies this`sessions
      ensures sessions == Upsert(old(sessions), sig, task, state)
    {
      if sig.session == "" {
        return;
      }
      var row := if sig.session in sessions then sessions[sig.session] else Session("", Idle, "", "");
      row := row.(task := Or(task, row.task), runtime := Or(sig.runtime, row.runtime),
                  terminal := Or(sig.terminal, row.terminal));
      sessions := sessions[sig.session := row.(state := state)];
    }

    method UpdateActivity(turn: Turn)
      modifies this`activity
      ensures activity == old(activity)[turn.task := RowFor(turn)]
    {
      var row := if turn.task in activity then activity[turn.task] else RowFor(turn);
      row := row.(turnId := turn.turnId, session := turn.session, runtime := turn.runtime, terminal := turn.terminal);
      activity := activity[turn.task := row.(state := ActivityStateFor(turn.state), dismissed := false)];
    }

    method EnsureTurn(sig: Signal, task: string) returns (i: nat)
      modifies this`turns
      ensures View() == Ensured(old(View()), sig, task) && i == TargetOf(old(View()), sig, task)
      ensures i < |turns|
    {
      var found := FindActiveTurn(turns, sig, task);
      FoundInRange(turns, sig, task);
      if found.Some? {
        return found.value;
      }
      i := |turns|;
      turns := turns + [Turn(Or(sig.turnId, sig.newId), sig.session, task, Running, sig.runtime, sig.terminal)];
    }

    method StaleActiveTurns(sig: Signal)
      requires sig.session != ""
      modifies this`turns, this`activity
      ensures View() == Swept(old(View()), sig, |old(turns)|)
    {
      var rows := turns;
      for i := 0 to |rows|
        invariant |turns| == |rows| && View() == Swept(old(View()), sig, i)
        invariant forall j :: i <= j < |rows| ==> turns[j] == rows[j]
      {
        if IsActive(rows[i]) && rows[i].session == sig.session && TaskExists(sig, rows[i].task) {
          var turn := rows[i].(state := Stale);
          turns := turns[i := turn];
          UpdateActivity(turn);
        }
      }
    }

    method HandleRuntimeSignal(sig: Signal)
      modifies this
      ensures View() == Step(old(View()), sig)
    {
      var task := Correlate(Tables(turns, sessions, activity), sig);
      if sig.kind.SessionStarted? || sig.kind.SessionResumed? {
        UpsertSession(sig, task, Idle);
        return;
      }
      if sig.kind.ContextCompacted? || sig.kind.SubagentStarted? || sig.kind.SubagentCompleted? {
        return;
      }
      if sig.kind.SessionEnded? || sig.kind.SessionOffline? {
        UpsertSession(sig, task, if sig.kind.SessionEnded? then Ended else Offline);
        if sig.session != "" {
          StaleActiveTurns(sig);
        }
        return;
      }
      var state := StateForKind(sig.kind);
      if state.None? || !TaskExists(sig, task) {
        return;
      }
      if sig.kind.TurnActivity? {
        var existing := FindActiveTurn(turns, sig, task);
        if existing.None? {
          return;
        }
      }
      var i := EnsureTurn(sig, task);
      var turn := turns[i].(state := state.value, task := task);
      turn := turn.(session := Or(sig.session, turn.session), runtime := Or(sig.runtime, turn.runtime),
                    terminal := Or(sig.terminal, turn.terminal));
      turns := turns[i := turn];
      UpsertSession(sig, task, SessionStateFor(state.value));
      UpdateActivity(turn);
    }

    /** `dismiss_activity`; the result says whether the item exists. */
    method Dismiss(task: string) returns (ok: bool)
      modifies this`activity
      ensures ok <==> task in old(activity)
      ensures activity == if ok then old(activity)[task := old(activity)[task].(dismissed := true)] else old(activity)
    {
      ok := task in activity;
      if ok {
        activity := activity[task := activity[task].(dismissed := true)];
      }
    }
  }

  ghost predicate DistinctIds(turns: seq<Turn>) {
    forall i, j :: 0 <= i < j < |turns| ==> turns[i].turnId != turns[j].turnId
  }

  /** The row shows the turn it points to, as long as that turn still belongs to the row's task. */
  ghost predicate RowAgrees(turns: seq<Turn>, task: string, row: Activity) {
    && (exists i :: 0 <= i < |turns| && turns[i].turnId == row.turnId)
    && forall i :: 0 <= i < |turns| && turns[i].turnId == row.turnId && turns[i].task == task ==>
         row.(dismissed := false) == RowFor(turns[i])
  }

  ghost predicate Agrees(tables: Tables) {
    && DistinctIds(tables.turns)
    && forall task :: task in tables.activity ==> RowAgrees(tables.turns, task, tables.activity[task])
  }

  /** Identifiers drawn for new turns do not collide with existing ones. */
  ghost predicate DrawsFreshId(tables: Tables, sig: Signal) {
    forall i :: 0 <= i < |tables.turns| ==> tables.turns[i].turnId != sig.newId
  }

  lemma WriteTurnAgrees(tables: Tables, i: nat, turn: Turn)
    requires Agrees(tables) && i < |tables.turns| && turn.turnId == tables.turns[i].turnId
    ensures Agrees(WriteTurn(tables, i, turn))
  {
    var after := WriteTurn(tables, i, turn);
    forall task | task in after.activity ensures RowAgrees(after.turns, task, after.activity[task]) {
      if task == turn.task {
        assert after.turns[i].turnId == after.activity[task].turnId;
      } else {
        var row := tables.activity[task];
        var j :| 0 <= j < |tables.turns| && tables.turns[j].turnId == row.turnId;
        assert after.turns[j].turnId == row.turnId;
      }
    }
  }

  lemma AppendTurnAgrees(tables: Tables, turn: Turn)
    requires Agrees(tables) && forall i :: 0 <= i < |tables.turns| ==> tables.turns[i].turnId != turn.turnId
    ensures Agrees(tables.(turns := tables.turns + [turn]))
  {
    var turns := tables.turns + [turn];
    forall task | task in tables.activity ensures RowAgrees(turns, task, tables.activity[task]) {
      var row := tables.activity[task];
      var j :| 0 <= j < |tables.turns| && tables.turns[j].turnId == row.turnId;
      assert turns[j].turnId == row.turnId;
    }
  }

  lemma TurnSignalAgrees(tables: Tables, sig: Signal, task: string, state: TurnState)
    requires Agrees(tables) && DrawsFreshId(tables, sig)
    ensures Agrees(TurnSignal(tables, sig, task, state))
  {
    var ensured, i := Ensured(tables, sig, task), TargetOf(tables, sig, task);
    if FindActiveTurn(tables.turns, sig, task).None? {
      LookupsAreNewest(tables.turns, sig.turnId);
      AppendTurnAgrees(tables, Turn(Or(sig.turnId, sig.newId), sig.session, task, Running, sig.runtime, sig.terminal));
    }
    WriteTurnAgrees(ensured, i, Signalled(ensured.turns[i], sig, task, state));
  }

  lemma {:induction false} SweptAgrees(tables: Tables, sig: Signal, n: nat)
    requires Agrees(tables) && n <= |tables.turns|
    ensures Agrees(Swept(tables, sig, n))
  {
    if n == 0 {
    } else {
      SweptAgrees(tables, sig, n - 1);
      var before := Swept(tables, sig, n - 1);
      WriteTurnAgrees(before, n - 1, before.turns[n - 1].(state := Stale));
    }
  }

  /** Every signal keeps activity rows and turns in agreement, also when turns move between tasks or are swept. */
  lemma StepAgrees(tables: Tables, sig: Signal)
    requires Agrees(tables) && DrawsFreshId(tables, sig)
    ensures Agrees(Step(tables, sig))
  {
    var task := Correlate(tables, sig);
    if sig.kind.SessionEnded? || sig.kind.SessionOffline? {
      var state := if sig.kind.SessionEnded? then Ended else Offline;
      var updated := tables.(sessions := Upsert(tables.sessions, sig, task, state));
      SweptAgrees(updated, sig, |updated.turns|);
    } else if StateForKind(sig.kind).Some? {
      TurnSignalAgrees(tables, sig, task, StateForKind(sig.kind).value);
    }
  }
}
