/**
 The server's side of the control channel against any companion: calls, messages of any kind in any
 order, timeouts, returns and close, interleaved in every way.
 */
module ControlRuns {
  import opened ControlChannel

  datatype Action =
    | StartCall(request: Request)
    | Arrive(msg: Incoming)
    | TimeOut(call: nat)
    | ReturnFrom(call: nat)
    | Close

  const START := Server([], map[], [], false)

  /** One step; an action that is not enabled does nothing. */
  function Step(server: Server, action: Action): Server {
    match action
    case StartCall(request) => Register(server, request)
    case Arrive(msg) => Receive(server, msg)
    case TimeOut(call) =>
      if call < |server.calls| && server.calls[call].outcome.Waiting? then Settle(server, call, TimedOut) else server
    case ReturnFrom(call) =>
      if call < |server.calls| && !server.calls[call].outcome.Waiting? then Resume(server, call) else server
    case Close => CloseAll(server)
  }

  function Run(actions: seq<Action>): Server {
    if actions == [] then START else Step(Run(actions[..|actions| - 1]), actions[|actions| - 1])
  }

  /** Every call draws an id that no earlier call had. */
  ghost predicate DistinctRequests(actions: seq<Action>) {
    actions != [] ==>
      && DistinctRequests(actions[..|actions| - 1])
      && DrawsNewId(Run(actions[..|actions| - 1]), actions[|actions| - 1])
  }

  ghost predicate DrawsNewId(server: Server, action: Action) {
    action.StartCall? ==> NewId(server, action.request.id)
  }

  lemma StepKeeps(server: Server, action: Action)
    requires Consistent(server) && DrawsNewId(server, action)
    ensures Consistent(Step(server, action)) && KeepsOutcomes(server, Step(server, action))
  {
    match action {
      case StartCall(request) => RegisterConsistent(server, request);
      case Arrive(msg) => ReceiveConsistent(server, msg);
      case TimeOut(call) =>
        if call < |server.calls| && server.calls[call].outcome.Waiting? { TimeOutConsistent(server, call); }
      case ReturnFrom(call) =>
        if call < |server.calls| && !server.calls[call].outcome.Waiting? { ResumeConsistent(server, call); }
      case Close => CloseSettlesEverything(server);
    }
  }

  lemma {:induction false} RunsStayConsistent(actions: seq<Action>)
    requires DistinctRequests(actions)
    ensures Consistent(Run(actions))
  {
    if actions == [] {
    } else {
      RunsStayConsistent(actions[..|actions| - 1]);
      StepKeeps(Run(actions[..|actions| - 1]), actions[|actions| - 1]);
    }
  }

  /** In every interleaving, an answer carries the id and the kind of the call it settles. */
  lemma AnswersAreOwn(actions: seq<Action>, i: nat)
    requires DistinctRequests(actions) && i < |Run(actions).calls|
    ensures
      var call := Run(actions).calls[i];
      call.outcome.Answered? ==>
        call.outcome.reply.Reply? && call.request == Request(call.outcome.reply.id, call.outcome.reply.kind)
  {
    RunsStayConsistent(actions);
  }

  lemma LastKeepsOutcomes(actions: seq<Action>)
    requires DistinctRequests(actions) && actions != []
    ensures KeepsOutcomes(Run(actions[..|actions| - 1]), Run(actions))
  {
    RunsStayConsistent(actions[..|actions| - 1]);
    StepKeeps(Run(actions[..|actions| - 1]), actions[|actions| - 1]);
  }

  lemma OutcomesKept(before: Server, middle: Server, after: Server)
    requires KeepsOutcomes(before, middle) && KeepsOutcomes(middle, after)
    ensures KeepsOutcomes(before, after)
  {
  }

  /** In every interleaving, whatever arrives, a future is settled at most once. */
  lemma {:induction false} OutcomesAreFinal(actions: seq<Action>, more: seq<Action>)
    requires DistinctRequests(actions + more)
    ensures KeepsOutcomes(Run(actions), Run(actions + more))
  {
    var all := actions + more;
    if more == [] {
      assert all == actions;
    } else {
      assert all[..|all| - 1] == actions + more[..|more| - 1];
      OutcomesAreFinal(actions, more[..|more| - 1]);
      LastKeepsOutcomes(all);
      OutcomesKept(Run(actions), Run(all[..|all| - 1]), Run(all));
    }
  }

  /**
   In every interleaving, a message changes nothing unless it answers a call that is still waiting, with
   that call's id and kind: unsolicited, repeated, late and mistaken replies have no effect.
   */
  lemma OnlyAnswersChangeRuns(actions: seq<Action>, msg: Incoming)
    requires DistinctRequests(actions)
    ensures Run(actions + [Arrive(msg)]) != Run(actions) <==> IsAwaited(Run(actions), msg)
  {
    RunsStayConsistent(actions);
    assert (actions + [Arrive(msg)])[..|actions|] == actions;
    OnlyAnswersMatter(Run(actions), msg);
  }

  /** Closing in any reachable state leaves nothing waiting, empties the table and changes nothing settled before. */
  lemma ClosedMeansSettled(actions: seq<Action>)
    requires DistinctRequests(actions)
    ensures
      var before, after := Run(actions), Run(actions + [Close]);
      && after.pending == map[] && |after.calls| == |before.calls|
      && forall i :: 0 <= i < |after.calls| ==>
           after.calls[i].outcome == if before.calls[i].outcome.Waiting? then ConnectionClosed
                                     else before.calls[i].outcome
  {
    RunsStayConsistent(actions);
    assert (actions + [Close])[..|actions|] == actions;
    CloseSettlesEverything(Run(actions));
  }
}
