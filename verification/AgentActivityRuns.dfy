/** Properties of whole runs of runtime signals. */
module AgentActivityRuns {
  import opened AgentActivity
  import opened Basics

  datatype Action = Handle(sig: Signal) | DismissItem(task: string)

  const EMPTY := Tables([], map[], map[])

  function Act(tables: Tables, action: Action): Tables {
    match action
    case Handle(sig) => Step(tables, sig)
    case DismissItem(task) =>
      if task in tables.activity then
        tables.(activity := tables.activity[task := tables.activity[task].(dismissed := true)])
      else tables
  }

  function Run(actions: seq<Action>): Tables {
    if actions == [] then EMPTY else Act(Run(actions[..|actions| - 1]), actions[|actions| - 1])
  }

  /** New turn identifiers never collide with the ones already stored. */
  ghost predicate Fresh(actions: seq<Action>) {
    forall n :: 0 <= n < |actions| && actions[n].Handle? ==> DrawsFreshId(Run(actions[..n]), actions[n].sig)
  }

  lemma FreshPrefix(actions: seq<Action>)
    requires Fresh(actions) && actions != []
    ensures Fresh(actions[..|actions| - 1])
    ensures actions[|actions| - 1].Handle? ==> DrawsFreshId(Run(actions[..|actions| - 1]), actions[|actions| - 1].sig)
  {
    var shorter := actions[..|actions| - 1];
    forall n | 0 <= n < |shorter| && shorter[n].Handle? ensures DrawsFreshId(Run(shorter[..n]), shorter[n].sig) {
      assert shorter[..n] == actions[..n];
    }
  }

  /** In every reachable state each activity row shows the turn it points to, if that turn is still its task's. */
  lemma {:induction false} RunsAgree(actions: seq<Action>)
    requires Fresh(actions)
    ensures Agrees(Run(actions))
  {
    if actions == [] {
    } else {
      FreshPrefix(actions);
      var before := Run(actions[..|actions| - 1]);
      RunsAgree(actions[..|actions| - 1]);
      match actions[|actions| - 1] {
        case Handle(sig) => StepAgrees(before, sig);
        case DismissItem(task) => DismissAgrees(before, task);
      }
    }
  }

  lemma DismissAgrees(tables: Tables, task: string)
    requires Agrees(tables)
    ensures Agrees(Act(tables, DismissItem(task)))
  {
    var after := Act(tables, DismissItem(task));
    forall t | t in after.activity ensures RowAgrees(after.turns, t, after.activity[t]) {
      assert RowAgrees(tables.turns, t, tables.activity[t]);
    }
  }

  /** No non-empty session has two active turns. */
  ghost predicate OneActivePerSession(turns: seq<Turn>) {
    forall i, j :: 0 <= i < j < |turns| && IsActive(turns[i]) && IsActive(turns[j]) ==>
      turns[i].session == "" || turns[i].session != turns[j].session
  }

  /** No turn disappears, and a turn that has ended stays exactly as it is. */
  ghost predicate KeepsTerminal(before: seq<Turn>, after: seq<Turn>) {
    |before| <= |after| && forall i :: 0 <= i < |before| && !IsActive(before[i]) ==> after[i] == before[i]
  }

  lemma AnonymousKeepsTerminal(tables: Tables, sig: Signal, task: string, state: TurnState)
    requires sig.turnId == ""
    ensures KeepsTerminal(tables.turns, TurnSignal(tables, sig, task, state).turns)
  {
    LookupsAreNewest(tables.turns, sig.session);
    LookupsAreNewest(tables.turns, task);
  }

  lemma {:induction false} SweptOnlyStales(tables: Tables, sig: Signal, n: nat)
    requires n <= |tables.turns|
    ensures
      var turns := Swept(tables, sig, n).turns;
      && |turns| == |tables.turns| && (forall i :: n <= i < |turns| ==> turns[i] == tables.turns[i])
      && forall i :: 0 <= i < |turns| ==>
           (turns[i] == tables.turns[i]
            || (IsActive(tables.turns[i]) && turns[i] == tables.turns[i].(state := Stale)))
  {
    if n == 0 {
    } else {
      SweptOnlyStales(tables, sig, n - 1);
    }
  }

  /** Another turn of the session is active. */
  predicate ActiveBeside(turns: seq<Turn>, session: string, i: nat) {
    exists j :: 0 <= j < |turns| && j != i && IsActive(turns[j]) && turns[j].session == session
  }

  /** The identifier is found at this turn. */
  predicate Names(turns: seq<Turn>, turnId: string, i: nat) {
    WithId(turns, turnId).Some? && WithId(turns, turnId).value == i
  }

  /** The kinds of signal that make the turn they find run or wait. */
  predicate Activates(kind: Kind) {
    StateForKind(kind).Some? && (StateForKind(kind).value.Running? || StateForKind(kind).value.Waiting?)
  }

  lemma SingleAfterUpdate(turns: seq<Turn>, i: nat, turn: Turn)
    requires i < |turns| && OneActivePerSession(turns)
    ensures OneActivePerSession(turns[i := turn])
       <==> !(IsActive(turn) && turn.session != "" && ActiveBeside(turns, turn.session, i))
  {
    var after := turns[i := turn];
    if IsActive(turn) && turn.session != "" && ActiveBeside(turns, turn.session, i) {
      var j :| 0 <= j < |turns| && j != i && IsActive(turns[j]) && turns[j].session == turn.session;
      assert after[i] == turn && after[j] == turns[j];
    }
  }

  lemma SingleAfterAppend(turns: seq<Turn>, turn: Turn)
    requires OneActivePerSession(turns)
    ensures OneActivePerSession(turns + [turn])
       <==> !(IsActive(turn) && turn.session != "" && ActiveBeside(turns, turn.session, |turns|))
  {
    var after := turns + [turn];
    if IsActive(turn) && turn.session != "" && ActiveBeside(turns, turn.session, |turns|) {
      var j :| 0 <= j < |turns| && j != |turns| && IsActive(turns[j]) && turns[j].session == turn.session;
      assert after[|turns|] == turn && after[j] == turns[j];
    }
  }

  /** The session that the turn named by a signal is in afterwards. */
  function SessionAfter(turns: seq<Turn>, sig: Signal): string
    requires WithId(turns, sig.turnId).Some?
  {
    LookupsAreNewest(turns, sig.turnId);
    Or(sig.session, turns[WithId(turns, sig.turnId).value].session)
  }

  /**
   The signal makes the turn that it names run or wait, in a session in which another turn is active: an ended
   turn is reopened there, or a turn is moved there.
   */
  predicate Doubles(tables: Tables, sig: Signal) {
    && sig.turnId != "" && WithId(tables.turns, sig.turnId).Some?
    && Activates(sig.kind) && TaskExists(sig, Correlate(tables, sig))
    && SessionAfter(tables.turns, sig) != ""
    && ActiveBeside(tables.turns, SessionAfter(tables.turns, sig), WithId(tables.turns, sig.turnId).value)
  }

  /** Where a turn is found without its identifier, or made, no other turn of its session is active. */
  lemma FoundAlone(turns: seq<Turn>, sig: Signal, task: string)
    requires OneActivePerSession(turns) && (sig.turnId == "" || WithId(turns, sig.turnId).None?)
    ensures
      match FindActiveTurn(turns, sig, task)
      case None => sig.session == "" || !ActiveBeside(turns, sig.session, |turns|)
      case Some(i) => i < |turns| && (Or(sig.session, turns[i].session) == ""
                      || !ActiveBeside(turns, Or(sig.session, turns[i].session), i))
  {
    LookupsAreNewest(turns, sig.session);
    LookupsAreNewest(turns, task);
  }

  /** The turns after a turn signal: one is written, in place or at the end. */
  lemma TurnWritten(tables: Tables, sig: Signal, task: string, state: TurnState) returns (turn: Turn)
    requires FindActiveTurn(tables.turns, sig, task).Some? || !sig.kind.TurnActivity?
    ensures turn.state == state && turn.task == task
    ensures
      var after := TurnSignal(tables, sig, task, state).turns;
      match FindActiveTurn(tables.turns, sig, task)
      case None => after == tables.turns + [turn] && turn.session == sig.session
                   && turn.turnId == Or(sig.turnId, sig.newId)
      case Some(i) => i < |tables.turns| && after == tables.turns[i := turn]
                      && turn.session == Or(sig.session, tables.turns[i].session)
  {
    var ensured, i := Ensured(tables, sig, task), TargetOf(tables, sig, task);
    FoundInRange(tables.turns, sig, task);
    turn := Signalled(ensured.turns[i], sig, task, state);
    if FindActiveTurn(tables.turns, sig, task).None? {
      assert ensured.turns[i := turn] == tables.turns + [turn];
    }
  }

  lemma SingleAfterTurn(tables: Tables, sig: Signal, task: string, state: TurnState)
    requires OneActivePerSession(tables.turns)
    requires task == Correlate(tables, sig) && TaskExists(sig, task) && StateForKind(sig.kind) == Some(state)
    ensures OneActivePerSession(TurnSignal(tables, sig, task, state).turns) <==> !Doubles(tables, sig)
  {
    var found := FindActiveTurn(tables.turns, sig, task);
    if found.Some? || !sig.kind.TurnActivity? {
      var turn := TurnWritten(tables, sig, task, state);
      if found.Some? {
        SingleAfterUpdate(tables.turns, found.value, turn);
      } else {
        SingleAfterAppend(tables.turns, turn);
      }
    }
    if sig.turnId == "" || WithId(tables.turns, sig.turnId).None? {
      FoundAlone(tables.turns, sig, task);
    }
  }

  lemma SingleAfterSweep(tables: Tables, sig: Signal)
    requires OneActivePerSession(tables.turns)
    ensures OneActivePerSession(Swept(tables, sig, |tables.turns|).turns)
  {
    SweptOnlyStales(tables, sig, |tables.turns|);
  }

  /** A signal leaves every session with at most one active turn if and only if it does not double one. */
  lemma StepStaysSingle(tables: Tables, sig: Signal)
    requires OneActivePerSession(tables.turns)
    ensures OneActivePerSession(Step(tables, sig).turns) <==> !Doubles(tables, sig)
  {
    var task := Correlate(tables, sig);
    if sig.kind.SessionEnded? || sig.kind.SessionOffline? {
      var state := if sig.kind.SessionEnded? then Ended else Offline;
      SingleAfterSweep(tables.(sessions := Upsert(tables.sessions, sig, task, state)), sig);
    } else if StateForKind(sig.kind).Some? && TaskExists(sig, task) {
      SingleAfterTurn(tables, sig, task, StateForKind(sig.kind).value);
    }
  }

  /** No signal of the run doubles a session. */
  ghost predicate NeverDoubles(actions: seq<Action>) {
    forall n :: 0 <= n < |actions| && actions[n].Handle? ==> !Doubles(Run(actions[..n]), actions[n].sig)
  }

  ghost predicate AlwaysSingle(actions: seq<Action>) {
    forall n :: 0 <= n <= |actions| ==> OneActivePerSession(Run(actions[..n]).turns)
  }

  lemma NeverDoublesNext(actions: seq<Action>, last: Action)
    ensures NeverDoubles(actions + [last])
       <==> NeverDoubles(actions) && (last.Handle? ==> !Doubles(Run(actions), last.sig))
  {
    var longer := actions + [last];
    assert longer[..|actions|] == actions && longer[|actions|] == last;
    forall n | 0 <= n < |actions| ensures longer[..n] == actions[..n] && longer[n] == actions[n] {
    }
  }

  lemma AlwaysSingleNext(actions: seq<Action>, last: Action)
    ensures AlwaysSingle(actions + [last])
       <==> AlwaysSingle(actions) && OneActivePerSession(Run(actions + [last]).turns)
  {
    var longer := actions + [last];
    assert longer[..|longer|] == longer;
    forall n | 0 <= n <= |actions| ensures longer[..n] == actions[..n] {
    }
  }

  /** In a run no session ever has two active turns if and only if no signal of the run doubles one. */
  lemma {:induction false} RunsStaySingle(actions: seq<Action>)
    ensures AlwaysSingle(actions) <==> NeverDoubles(actions)
    ensures AlwaysSingle(actions) ==> OneActivePerSession(Run(actions).turns)
  {
    if actions == [] {
    } else {
      var shorter, last := actions[..|actions| - 1], actions[|actions| - 1];
      assert actions == shorter + [last];
      RunsStaySingle(shorter);
      NeverDoublesNext(shorter, last);
      AlwaysSingleNext(shorter, last);
      if last.Handle? && OneActivePerSession(Run(shorter).turns) {
        StepStaysSingle(Run(shorter), last.sig);
      }
    }
  }

  lemma AnonymousStep(tables: Tables, sig: Signal)
    requires sig.turnId == ""
    ensures KeepsTerminal(tables.turns, Step(tables, sig).turns)
  {
    var task := Correlate(tables, sig);
    if sig.kind.SessionEnded? || sig.kind.SessionOffline? {
      var state := if sig.kind.SessionEnded? then Ended else Offline;
      var updated := tables.(sessions := Upsert(tables.sessions, sig, task, state));
      SweptOnlyStales(updated, sig, |updated.turns|);
    } else if StateForKind(sig.kind).Some? {
      AnonymousKeepsTerminal(tables, sig, task, StateForKind(sig.kind).value);
    }
  }

  ghost predicate Anonymous(actions: seq<Action>) {
    forall n :: 0 <= n < |actions| && actions[n].Handle? ==> actions[n].sig.turnId == ""
  }

  /** Without caller-supplied turn identifiers, no session ever has two active turns. */
  lemma AnonymousRunsAreSingle(actions: seq<Action>)
    requires Anonymous(actions)
    ensures AlwaysSingle(actions) && OneActivePerSession(Run(actions).turns)
  {
    RunsStaySingle(actions);
  }

  /** Without caller-supplied turn identifiers, a turn that ended stays exactly as it ended. */
  lemma {:induction false} AnonymousRunsNeverReopen(actions: seq<Action>, more: seq<Action>)
    requires Anonymous(actions + more)
    ensures KeepsTerminal(Run(actions).turns, Run(actions + more).turns)
  {
    if more == [] {
      assert actions + more == actions;
    } else {
      var shorter, last := more[..|more| - 1], more[|more| - 1];
      assert actions + more == actions + shorter + [last];
      assert (actions + more)[..|actions + more| - 1] == actions + shorter;
      assert Anonymous(actions + shorter) by {
        assert forall n :: 0 <= n < |actions + shorter| ==> (actions + shorter)[n] == (actions + more)[n];
      }
      AnonymousRunsNeverReopen(actions, shorter);
      if last.Handle? {
        assert (actions + more)[|actions + more| - 1] == last;
        AnonymousStep(Run(actions + shorter), last.sig);
      }
    }
  }

  /** Each session always correlates to the same task. */
  ghost predicate Steady(actions: seq<Action>, owner: string -> string) {
    forall n :: 0 <= n < |actions| && actions[n].Handle? && actions[n].sig.session != "" ==>
      Correlate(Run(actions[..n]), actions[n].sig) == owner(actions[n].sig.session)
  }

  ghost predicate OneActivePerTask(turns: seq<Turn>, owner: string -> string) {
    && (forall i, j :: 0 <= i < j < |turns| && IsActive(turns[i]) && IsActive(turns[j]) ==>
          turns[i].task != turns[j].task)
    && (forall i :: 0 <= i < |turns| && IsActive(turns[i]) && turns[i].session != "" ==>
          turns[i].task == owner(turns[i].session))
  }

  /** Where a turn is found or made, no other turn of its task is active. */
  lemma SteadyFound(turns: seq<Turn>, sig: Signal, task: string, owner: string -> string)
    requires sig.turnId == "" && OneActivePerTask(turns, owner)
    requires sig.session != "" ==> task == owner(sig.session)
    ensures
      match FindActiveTurn(turns, sig, task)
      case None => forall j :: 0 <= j < |turns| && IsActive(turns[j]) ==> turns[j].task != task
      case Some(i) => i < |turns| && IsActive(turns[i]) && turns[i].task == task
  {
    LookupsAreNewest(turns, sig.session);
    LookupsAreNewest(turns, task);
  }

  lemma SteadyTurnSignal(tables: Tables, sig: Signal, task: string, state: TurnState, owner: string -> string)
    requires sig.turnId == "" && OneActivePerTask(tables.turns, owner)
    requires sig.session != "" ==> task == owner(sig.session)
    ensures OneActivePerTask(TurnSignal(tables, sig, task, state).turns, owner)
  {
    SteadyFound(tables.turns, sig, task, owner);
    if FindActiveTurn(tables.turns, sig, task).Some? || !sig.kind.TurnActivity? {
      var turn := TurnWritten(tables, sig, task, state);
    }
  }

  lemma SteadyStep(tables: Tables, sig: Signal, owner: string -> string)
    requires sig.turnId == "" && OneActivePerTask(tables.turns, owner)
    requires sig.session != "" ==> Correlate(tables, sig) == owner(sig.session)
    ensures OneActivePerTask(Step(tables, sig).turns, owner)
  {
    var task := Correlate(tables, sig);
    if sig.kind.SessionEnded? || sig.kind.SessionOffline? {
      var state := if sig.kind.SessionEnded? then Ended else Offline;
      var updated := tables.(sessions := Upsert(tables.sessions, sig, task, state));
      SweptOnlyStales(updated, sig, |updated.turns|);
    } else if StateForKind(sig.kind).Some? {
      SteadyTurnSignal(tables, sig, task, StateForKind(sig.kind).value, owner);
    }
  }

  /** If moreover sessions keep to their task, no task ever has two active turns. */
  lemma {:induction false} SteadyRunsAreSinglePerTask(actions: seq<Action>, owner: string -> string)
    requires Anonymous(actions) && Steady(actions, owner)
    ensures OneActivePerTask(Run(actions).turns, owner)
  {
    if actions == [] {
    } else {
      var shorter := actions[..|actions| - 1];
      forall n | 0 <= n < |shorter| ensures shorter[n] == actions[n] && shorter[..n] == actions[..n] { }
      SteadyRunsAreSinglePerTask(shorter, owner);
      if actions[|actions| - 1].Handle? {
        SteadyStep(Run(shorter), actions[|actions| - 1].sig, owner);
      }
    }
  }

  /** A signal that makes the turn it names run or wait changes that turn alone. */
  lemma NamedTurnRuns(tables: Tables, sig: Signal, i: nat)
    requires sig.turnId != "" && Names(tables.turns, sig.turnId, i)
    requires Activates(sig.kind) && TaskExists(sig, Correlate(tables, sig))
    ensures i < |tables.turns| == |Step(tables, sig).turns|
    ensures IsActive(Step(tables, sig).turns[i])
    ensures Step(tables, sig).turns[i].session == Or(sig.session, tables.turns[i].session)
    ensures forall j :: 0 <= j < |tables.turns| && j != i ==> Step(tables, sig).turns[j] == tables.turns[j]
  {
    var task := Correlate(tables, sig);
    FoundInRange(tables.turns, sig, task);
    var turn := TurnWritten(tables, sig, task, StateForKind(sig.kind).value);
  }

  /** A sweep activates nothing. */
  lemma SweptStaysEnded(tables: Tables, sig: Signal, i: nat)
    requires i < |tables.turns| && !IsActive(tables.turns[i]) && (sig.kind.SessionEnded? || sig.kind.SessionOffline?)
    ensures i < |Step(tables, sig).turns| && !IsActive(Step(tables, sig).turns[i])
  {
    var state := if sig.kind.SessionEnded? then Ended else Offline;
    var updated := tables.(sessions := Upsert(tables.sessions, sig, Correlate(tables, sig), state));
    SweptOnlyStales(updated, sig, |updated.turns|);
  }

  /** An ended turn is found only by its identifier. */
  lemma EndedTurnFound(turns: seq<Turn>, sig: Signal, task: string, i: nat)
    requires i < |turns| && !IsActive(turns[i])
    ensures FindActiveTurn(turns, sig, task) == Some(i) <==> sig.turnId != "" && Names(turns, sig.turnId, i)
  {
    LookupsAreNewest(turns, sig.session);
    LookupsAreNewest(turns, task);
  }

  /**
   A turn that has ended becomes active again exactly when a signal that makes turns run or wait names
   it by its identifier, for a task that exists.
   */
  lemma EndedTurnReopens(tables: Tables, sig: Signal, i: nat)
    requires i < |tables.turns| && !IsActive(tables.turns[i])
    ensures i < |Step(tables, sig).turns|
    ensures IsActive(Step(tables, sig).turns[i])
       <==> sig.turnId != "" && Names(tables.turns, sig.turnId, i) && Activates(sig.kind)
            && TaskExists(sig, Correlate(tables, sig))
  {
    var task := Correlate(tables, sig);
    if sig.kind.SessionEnded? || sig.kind.SessionOffline? {
      SweptStaysEnded(tables, sig, i);
    } else if StateForKind(sig.kind).Some? && TaskExists(sig, task) {
      EndedTurnFound(tables.turns, sig, task, i);
      if FindActiveTurn(tables.turns, sig, task).Some? || !sig.kind.TurnActivity? {
        var turn := TurnWritten(tables, sig, task, StateForKind(sig.kind).value);
      }
    }
  }

  /** A turn that is reopened beside another one, in the session that the signal names or in its own. */
  lemma ReopenedBesideAnother(tables: Tables, sig: Signal, i: nat)
    requires i < |tables.turns| && !IsActive(tables.turns[i]) && IsActive(Step(tables, sig).turns[i])
    requires var session := Or(sig.session, tables.turns[i].session);
             session != "" && ActiveBeside(tables.turns, session, i)
    ensures !OneActivePerSession(Step(tables, sig).turns)
  {
    EndedTurnReopens(tables, sig, i);
    NamedTurnRuns(tables, sig, i);
    var session := Or(sig.session, tables.turns[i].session);
    var j :| 0 <= j < |tables.turns| && j != i && IsActive(tables.turns[j]) && tables.turns[j].session == session;
    assert Step(tables, sig).turns[j] == tables.turns[j];
  }

  /** A turn that is still active and is moved into a session in which another turn is: nothing has ended. */
  lemma MovedBesideAnother(tables: Tables, sig: Signal, i: nat)
    requires sig.turnId != "" && Names(tables.turns, sig.turnId, i)
    requires Activates(sig.kind) && TaskExists(sig, Correlate(tables, sig))
    requires i < |tables.turns| && IsActive(tables.turns[i]) && tables.turns[i].session != sig.session
    requires sig.session != "" && ActiveBeside(tables.turns, sig.session, i)
    ensures !OneActivePerSession(Step(tables, sig).turns)
  {
    NamedTurnRuns(tables, sig, i);
    var j :| 0 <= j < |tables.turns| && j != i && IsActive(tables.turns[j]) && tables.turns[j].session == sig.session;
    assert Step(tables, sig).turns[j] == tables.turns[j];
  }

  function Reported(kind: Kind, session: string, turnId: string, task: string, tasks: set<string>): Action {
    Handle(Signal(kind, session, turnId, task, "", "", tasks, "", ""))
  }

  /** Nothing that is stored has this identifier, session or task. */
  ghost predicate NothingOf(turns: seq<Turn>, turnId: string, session: string, task: string) {
    forall i :: 0 <= i < |turns| ==>
      turns[i].turnId != turnId && turns[i].session != session && turns[i].task != task
  }

  predicate IsRunning(turn: Turn, turnId: string, session: string, task: string) {
    turn.state.Running? && turn.turnId == turnId && turn.session == session && turn.task == task
  }

  lemma NothingFound(turns: seq<Turn>, sig: Signal, task: string)
    requires NothingOf(turns, sig.turnId, sig.session, task)
    ensures FindActiveTurn(turns, sig, task).None?
  {
    LookupsAreNewest(turns, sig.turnId);
    LookupsAreNewest(turns, sig.session);
    LookupsAreNewest(turns, task);
  }

  lemma RunNext(actions: seq<Action>, last: Action)
    ensures Run(actions + [last]) == Act(Run(actions), last)
  {
    assert (actions + [last])[..|actions|] == actions;
  }

  /** A turn that starts under a new identifier, in a session and for a task without turns, is added. */
  lemma TurnStarts(actions: seq<Action>, session: string, turnId: string, task: string, tasks: set<string>)
    returns (turn: Turn)
    requires turnId != "" && session != "" && task != "" && task in tasks
    requires NothingOf(Run(actions).turns, turnId, session, task)
    ensures IsRunning(turn, turnId, session, task)
    ensures Run(actions + [Reported(TurnStarted, session, turnId, task, tasks)]).turns == Run(actions).turns + [turn]
  {
    var tables, last := Run(actions), Reported(TurnStarted, session, turnId, task, tasks);
    RunNext(actions, last);
    NothingFound(tables.turns, last.sig, task);
    turn := TurnWritten(tables, last.sig, task, Running);
  }

  lemma FirstMoves(actions: seq<Action>, one: Turn, two: Turn, moving: Action)
    requires Run(actions).turns == [one, two] && IsActive(one) && IsActive(two)
    requires moving.Handle? && moving.sig.kind.TurnActivity?
    requires moving.sig.task in moving.sig.tasks && moving.sig.task != ""
    requires moving.sig.turnId == one.turnId != two.turnId && one.turnId != ""
    requires moving.sig.session == two.session != one.session && two.session != ""
    ensures !OneActivePerSession(Run(actions + [moving]).turns)
  {
    var tables := Run(actions);
    RunNext(actions, moving);
    LookupsAreNewest(tables.turns, one.turnId);
    assert ActiveBeside(tables.turns, two.session, 0) by {
      assert IsActive(tables.turns[1]);
    }
    MovedBesideAnother(tables, moving.sig, 0);
  }

  /** Two turns run in two sessions; naming the first in a signal of the second session gives that one both. */
  lemma MovedRun(s: string, a: string, x: string, t: string, b: string, y: string, tasks: set<string>)
    requires s != t && a != b && x != y && s != "" && t != "" && a != "" && b != "" && x != "" && y != ""
    requires x in tasks && y in tasks
    ensures
      var started := [Reported(TurnStarted, s, a, x, tasks)] + [Reported(TurnStarted, t, b, y, tasks)];
      && AlwaysSingle(started)
      && !OneActivePerSession(Run(started + [Reported(TurnActivity, t, a, x, tasks)]).turns)
  {
    var first, second := Reported(TurnStarted, s, a, x, tasks), Reported(TurnStarted, t, b, y, tasks);
    assert [] + [first] == [first];
    var one := TurnStarts([], s, a, x, tasks);
    AlwaysSingleNext([], first);
    var two := TurnStarts([first], t, b, y, tasks);
    AlwaysSingleNext([first], second);
    assert [one] + [two] == [one, two];
    FirstMoves([first] + [second], one, two, Reported(TurnActivity, t, a, x, tasks));
  }
}
