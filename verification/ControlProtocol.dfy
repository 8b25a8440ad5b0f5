/**
 Server and the companion's serial handler together: every interleaving of calls, handling, delivery,
 timeouts, returns and close.
 */
module ControlProtocol {
  import opened Basics
  import opened ControlChannel

  /**
   The companion has handled the first `handled` requests, in order, and each put one reply into
   `inbox`; `delivered` of those replies have reached the server.
   */
  datatype Net = Net(server: Server, handled: nat, delivered: nat, inbox: seq<Incoming>)

  datatype Action =
    | StartCall(request: Request)
    | HandleNext(body: string)
    | SendNotice
    | Deliver
    | TimeOut(call: nat)
    | ReturnFrom(call: nat)
    | Close

  const START := Net(Server([], map[], [], false), 0, 0, [])

  /** One step; an action that is not enabled does nothing. */
  function Step(net: Net, action: Action): Net {
    match action
    case StartCall(request) => net.(server := Register(net.server, request))
    case HandleNext(body) =>
      if net.handled < |net.server.sent| then
        var request := net.server.sent[net.handled];
        net.(handled := net.handled + 1, inbox := net.inbox + [Reply(request.id, request.kind, body)])
      else net
    case SendNotice => net.(inbox := net.inbox + [Notice])
    case Deliver =>
      if net.inbox == [] then net
      else
        net.(server := Receive(net.server, net.inbox[0]), inbox := net.inbox[1..],
             delivered := net.delivered + if net.inbox[0].Reply? then 1 else 0)
    case TimeOut(call) =>
      if call < |net.server.calls| && net.server.calls[call].outcome.Waiting? then
        net.(server := Settle(net.server, call, TimedOut))
      else net
    case ReturnFrom(call) =>
      if call < |net.server.calls| && !net.server.calls[call].outcome.Waiting? then
        net.(server := Resume(net.server, call))
      else net
    case Close => net.(server := CloseAll(net.server))
  }

  function Run(actions: seq<Action>): Net {
    if actions == [] then START else Step(Run(actions[..|actions| - 1]), actions[|actions| - 1])
  }

  ghost predicate DistinctRequests(actions: seq<Action>) {
    forall n :: 0 <= n < |actions| && actions[n].StartCall? ==> NewId(Run(actions[..n]).server, actions[n].request.id)
  }

  function Replies(inbox: seq<Incoming>): seq<Request> {
    if inbox == [] then []
    else Replies(inbox[..|inbox| - 1]) +
         match inbox[|inbox| - 1]
         case Reply(id, kind, _) => [Request(id, kind)]
         case Notice => []
  }

  function RepliesIn(msg: Incoming): seq<Request> {
    if msg.Reply? then [Request(msg.id, msg.kind)] else []
  }

  lemma RepliesNext(inbox: seq<Incoming>, last: Incoming)
    ensures Replies(inbox + [last]) == Replies(inbox) + RepliesIn(last)
  {
    assert (inbox + [last])[..|inbox|] == inbox;
  }

  lemma {:induction false} RepliesHead(first: Incoming, rest: seq<Incoming>)
    ensures Replies([first] + rest) == RepliesIn(first) + Replies(rest)
  {
    if rest == [] {
      assert [first] + rest == [] + [first];
      RepliesNext([], first);
    } else {
      var shorter, last := rest[..|rest| - 1], rest[|rest| - 1];
      RepliesHead(first, shorter);
      assert rest == shorter + [last];
      ConcatAssociates([first], shorter, [last]);
      RepliesNext([first] + shorter, last);
      RepliesNext(shorter, last);
      ConcatAssociates(RepliesIn(first), Replies(shorter), RepliesIn(last));
    }
  }

  /**
   One request per call, one reply per handled request, in order: what is under way is exactly the
   requests not handled and the replies not delivered. A call whose reply was delivered is settled.
   */
  ghost predicate Conserved(net: Net) {
    && Consistent(net.server)
    && |net.server.sent| == |net.server.calls|
    && (forall i :: 0 <= i < |net.server.calls| ==> net.server.calls[i].request == net.server.sent[i])
    && net.delivered <= net.handled <= |net.server.sent|
    && Replies(net.inbox) == net.server.sent[net.delivered..net.handled]
    && forall i :: 0 <= i < net.delivered ==> !net.server.calls[i].outcome.Waiting?
  }

  /** The message at the head of the inbox answers the oldest undelivered request, or is a notice. */
  lemma HeadOfInbox(net: Net, msg: Incoming, rest: seq<Incoming>)
    requires Conserved(net) && net.inbox == [msg] + rest
    ensures msg.Reply? ==>
      net.delivered < net.handled && net.server.calls[net.delivered].request == Request(msg.id, msg.kind)
    ensures Replies(rest) == net.server.sent[if msg.Reply? then net.delivered + 1 else net.delivered..net.handled]
  {
    RepliesHead(msg, rest);
    if msg.Reply? {
      assert Replies(net.inbox)[0] == net.server.sent[net.delivered];
      assert Replies(net.inbox)[1..] == Replies(rest);
    }
  }

  lemma ReceiveKeepsRequests(server: Server, msg: Incoming)
    requires Consistent(server)
    ensures
      var after := Receive(server, msg);
      && after.sent == server.sent && |after.calls| == |server.calls|
      && forall i :: 0 <= i < |server.calls| ==> after.calls[i].request == server.calls[i].request
  {
  }

  /** The call that a reply answers is settled when it is received. */
  lemma ReplySettles(server: Server, msg: Incoming, i: nat)
    requires Consistent(server) && msg.Reply? && i < |server.calls| == |Receive(server, msg).calls|
    requires server.calls[i].request == Request(msg.id, msg.kind)
    ensures !Receive(server, msg).calls[i].outcome.Waiting?
  {
  }

  lemma DeliverConserves(net: Net)
    requires Conserved(net) && net.inbox != []
    ensures Conserved(Step(net, Deliver)) && KeepsOutcomes(net.server, Step(net, Deliver).server)
  {
    HeadOfInbox(net, net.inbox[0], net.inbox[1..]);
    ReceiveConsistent(net.server, net.inbox[0]);
    ReceiveKeepsRequests(net.server, net.inbox[0]);
    if net.inbox[0].Reply? {
      ReplySettles(net.server, net.inbox[0], net.delivered);
    }
  }

  lemma HandleConserves(net: Net, body: string)
    requires Conserved(net) && net.handled < |net.server.sent|
    ensures Conserved(Step(net, HandleNext(body)))
  {
    var request := net.server.sent[net.handled];
    var longer := net.inbox + [Reply(request.id, request.kind, body)];
    assert longer[..|net.inbox|] == net.inbox;
    assert net.server.sent[net.delivered..net.handled + 1] == net.server.sent[net.delivered..net.handled] + [request];
  }

  lemma NoticeConserves(net: Net)
    requires Conserved(net)
    ensures Conserved(Step(net, SendNotice))
  {
    var longer := net.inbox + [Notice];
    assert longer[..|net.inbox|] == net.inbox;
  }

  lemma StartConserves(net: Net, request: Request)
    requires Conserved(net) && NewId(net.server, request.id)
    ensures Conserved(Step(net, StartCall(request)))
  {
    RegisterConsistent(net.server, request);
    var after := Step(net, StartCall(request)).server;
    assert after.sent[net.delivered..net.handled] == net.server.sent[net.delivered..net.handled];
  }

  lemma TimeOutConserves(net: Net, call: nat)
    requires Conserved(net)
    ensures Conserved(Step(net, TimeOut(call))) && KeepsOutcomes(net.server, Step(net, TimeOut(call)).server)
  {
    if call < |net.server.calls| && net.server.calls[call].outcome.Waiting? {
      TimeOutConsistent(net.server, call);
    }
  }

  lemma ReturnConserves(net: Net, call: nat)
    requires Conserved(net)
    ensures Conserved(Step(net, ReturnFrom(call))) && KeepsOutcomes(net.server, Step(net, ReturnFrom(call)).server)
  {
    if call < |net.server.calls| && !net.server.calls[call].outcome.Waiting? {
      ResumeConsistent(net.server, call);
    }
  }

  lemma CloseConserves(net: Net)
    requires Conserved(net)
    ensures Conserved(Step(net, Close)) && KeepsOutcomes(net.server, Step(net, Close).server)
  {
    CloseSettlesEverything(net.server);
  }

  lemma StepConserves(net: Net, action: Action)
    requires Conserved(net) && (action.StartCall? ==> NewId(net.server, action.request.id))
    ensures Conserved(Step(net, action)) && KeepsOutcomes(net.server, Step(net, action).server)
  {
    match action {
      case StartCall(request) => StartConserves(net, request);
      case HandleNext(body) => if net.handled < |net.server.sent| { HandleConserves(net, body); }
      case SendNotice => NoticeConserves(net);
      case Deliver => if net.inbox != [] { DeliverConserves(net); }
      case TimeOut(call) => TimeOutConserves(net, call);
      case ReturnFrom(call) => ReturnConserves(net, call);
      case Close => CloseConserves(net);
    }
  }

  lemma {:induction false} RunsConserve(actions: seq<Action>)
    requires DistinctRequests(actions)
    ensures Conserved(Run(actions))
  {
    if actions == [] {
    } else {
      DistinctPrefix(actions);
      RunsConserve(actions[..|actions| - 1]);
      StepConserves(Run(actions[..|actions| - 1]), actions[|actions| - 1]);
    }
  }

  lemma DistinctPrefix(actions: seq<Action>)
    requires DistinctRequests(actions) && actions != []
    ensures DistinctRequests(actions[..|actions| - 1])
    ensures
      var last := actions[|actions| - 1];
      last.StartCall? ==> NewId(Run(actions[..|actions| - 1]).server, last.request.id)
  {
    var shorter := actions[..|actions| - 1];
    forall n | 0 <= n < |shorter| ensures shorter[n] == actions[n] && shorter[..n] == actions[..n] { }
  }

  /** When nothing is under way any more, no call is left waiting: none was lost. */
  lemma QuietMeansSettled(actions: seq<Action>)
    requires DistinctRequests(actions)
    ensures
      var net := Run(actions);
      net.handled == |net.server.sent| && Replies(net.inbox) == [] ==>
        forall i :: 0 <= i < |net.server.calls| ==> !net.server.calls[i].outcome.Waiting?
  {
    RunsConserve(actions);
    var net := Run(actions);
    assert |net.server.sent[net.delivered..net.handled]| == net.handled - net.delivered;
  }
}
