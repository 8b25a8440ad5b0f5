/**
 The request/response channel between the server's `CompanionConnection` and the companion's serial
 message loop: a table of pending futures, replies that may come late, twice or never, and close.
 */
module ControlChannel {
  import opened Basics

  datatype Kind =
    | Pair | PairingCode | ChooseDirectory | FilesList | FilesRead | FilesRaw
    | AgentStart | AgentTerminate | AgentSend
    | TerminalStart | TerminalStop | TerminalInput | TerminalResize | TerminalListSessions | TerminalMouseMode
    | FloatBallStart | FloatBallUpdate | FloatBallStop

  datatype Request = Request(id: string, kind: Kind)

  /** What the companion sends: a reply, or anything that settles no request (hello, pong, chunks, signals). */
  datatype Incoming = Reply(id: string, kind: Kind, body: string) | Notice

  /** The future of one `request_*` call. */
  datatype Outcome = Waiting | Answered(reply: Incoming) | TimedOut | ConnectionClosed

  /** One `request_*` call; `returned` says that it has left its `finally` block. */
  datatype Call = Call(request: Request, outcome: Outcome, returned: bool)

  datatype Pending = Pending(call: nat, kind: Kind)

  /** The server side. `calls` are all calls ever made, in order; `sent` is what they put on the wire. */
  datatype Server = Server(calls: seq<Call>, pending: map<string, Pending>, sent: seq<Request>, closed: bool)

  function Register(server: Server, request: Request): Server {
    server.(calls := server.calls + [Call(request, Waiting, false)],
            pending := server.pending[request.id := Pending(|server.calls|, request.kind)],
            sent := server.sent + [request])
  }

  /** Whether an incoming message settles a future, and which. */
  function Settles(server: Server, msg: Incoming): Option<nat> {
    if msg.Reply? && msg.id in server.pending then
      var p := server.pending[msg.id];
      if p.kind == msg.kind && p.call < |server.calls| && server.calls[p.call].outcome.Waiting? then Some(p.call)
      else None
    else None
  }

  function Settle(server: Server, call: nat, outcome: Outcome): Server
    requires call < |server.calls|
  {
    server.(calls := server.calls[call := server.calls[call].(outcome := outcome)])
  }

  function Receive(server: Server, msg: Incoming): Server {
    match Settles(server, msg)
    case None => server
    case Some(call) => Settle(server, call, Answered(msg))
  }

  /** A call whose future is settled resumes: it drops its entry and returns or raises. */
  function Resume(server: Server, call: nat): Server
    requires call < |server.calls|
  {
    server.(calls := server.calls[call := server.calls[call].(returned := true)],
            pending := server.pending - {server.calls[call].request.id})
  }

  function CloseAll(server: Server): Server {
    server.(calls := seq(|server.calls|, i requires 0 <= i < |server.calls| => Closing(server, i)),
            pending := map[], closed := true)
  }

  function Closing(server: Server, i: nat): Call
    requires i < |server.calls|
  {
    var call := server.calls[i];
    if call.outcome.Waiting? && call.request.id in server.pending && server.pending[call.request.id].call == i then
      call.(outcome := ConnectionClosed)
    else call
  }

  /** The connection object of the server. */
  class CompanionConnection {
    var calls: seq<Call>
    var pending: map<string, Pending>
    var sent: seq<Request>
    var closed: bool

    constructor ()
      ensures View() == Server([], map[], [], false)
    {
      calls, pending, sent, closed := [], map[], [], false;
    }

    ghost function View(): Server reads this {
      Server(calls, pending, sent, closed)
    }

    /** The first half of every `request_*` method, up to the await. */
    method StartRequest(request: Request) returns (call: nat)
      modifies this
      ensures View() == Register(old(View()), request) && call == |old(calls)|
    {
      call := |calls|;
      calls := calls + [Call(request, Waiting, false)];
      pending := pending[request.id := Pending(call, request.kind)];
      sent := sent + [request];
    }

    /** The `finally` block of every `request_*` method. */
    method FinishRequest(call: nat)
      requires call < |calls|
      modifies this
      ensures View() == Resume(old(View()), call)
    {
      pending := pending - {calls[call].request.id};
      calls := calls[call := calls[call].(returned := true)];
    }

    /** `handle_incoming`. */
    method HandleIncoming(msg: Incoming)
      requires forall id :: id in pending ==> pending[id].call < |calls|
      modifies this
      ensures View() == Receive(old(View()), msg)
    {
      if msg.Notice? {
        return;
      }
      if msg.id in pending {
        var p := pending[msg.id];
        if p.kind == msg.kind && calls[p.call].outcome.Waiting? {
          calls := calls[p.call := calls[p.call].(outcome := Answered(msg))];
        }
      }
    }

    /** `close`. */
    method Close()
      requires forall id :: id in pending ==> pending[id].call < |calls| && calls[pending[id].call].request.id == id
      modifies this
      ensures View() == CloseAll(old(View()))
    {
      ghost var start := View();
      closed := true;
      var ids := pending.Keys;
      while ids != {}
        invariant |calls| == |start.calls| && pending == start.pending && sent == start.sent && closed
        invariant ids <= pending.Keys
        invariant forall i :: 0 <= i < |calls| ==>
                    calls[i] == if start.calls[i].request.id in ids then start.calls[i] else Closing(start, i)
        decreases ids
      {
        var id :| id in ids;
        ids := ids - {id};
        var p := pending[id];
        if calls[p.call].outcome.Waiting? {
          calls := calls[p.call := calls[p.call].(outcome := ConnectionClosed)];
        }
      }
      pending := map[];
      assert calls == CloseAll(start).calls;
    }
  }

  /** Request ids are never used twice, and the table leads every waiting call to its own entry. */
  ghost predicate Consistent(server: Server) {
    && (forall i, j :: 0 <= i < j < |server.calls| ==> server.calls[i].request.id != server.calls[j].request.id)
    && (forall id :: id in server.pending ==>
          var p := server.pending[id];
          p.call < |server.calls| && server.calls[p.call].request == Request(id, p.kind))
    && (forall i :: 0 <= i < |server.calls| && server.calls[i].outcome.Waiting? ==>
          !server.calls[i].returned && server.calls[i].request.id in server.pending &&
          server.pending[server.calls[i].request.id].call == i)
    && (forall i :: 0 <= i < |server.calls| && server.calls[i].outcome.Answered? ==>
          var reply := server.calls[i].outcome.reply;
          reply.Reply? && server.calls[i].request == Request(reply.id, reply.kind))
  }

  /** Once settled, a future keeps its outcome. */
  ghost predicate KeepsOutcomes(before: Server, after: Server) {
    && |before.calls| <= |after.calls|
    && forall i :: 0 <= i < |before.calls| ==>
         after.calls[i].request == before.calls[i].request &&
         (before.calls[i].outcome.Waiting? || after.calls[i].outcome == before.calls[i].outcome)
  }

  ghost predicate NewId(server: Server, id: string) {
    forall i :: 0 <= i < |server.calls| ==> server.calls[i].request.id != id
  }

  lemma RegisterConsistent(server: Server, request: Request)
    requires Consistent(server) && NewId(server, request.id)
    ensures Consistent(Register(server, request)) && KeepsOutcomes(server, Register(server, request))
  {
  }

  lemma ReceiveConsistent(server: Server, msg: Incoming)
    requires Consistent(server)
    ensures Consistent(Receive(server, msg)) && KeepsOutcomes(server, Receive(server, msg))
  {
  }

  lemma TimeOutConsistent(server: Server, call: nat)
    requires Consistent(server) && call < |server.calls| && server.calls[call].outcome.Waiting?
    ensures Consistent(Settle(server, call, TimedOut)) && KeepsOutcomes(server, Settle(server, call, TimedOut))
  {
  }

  lemma ResumeConsistent(server: Server, call: nat)
    requires Consistent(server) && call < |server.calls| && !server.calls[call].outcome.Waiting?
    ensures Consistent(Resume(server, call)) && KeepsOutcomes(server, Resume(server, call))
  {
  }

  /** Closing settles every future that is still waiting, leaves the others alone and empties the table. */
  lemma CloseSettlesEverything(server: Server)
    requires Consistent(server)
    ensures
      var after := CloseAll(server);
      && Consistent(after) && KeepsOutcomes(server, after) && after.pending == map[]
      && forall i :: 0 <= i < |server.calls| ==>
           after.calls[i].outcome == if server.calls[i].outcome.Waiting? then ConnectionClosed
                                     else server.calls[i].outcome
  {
  }

  /** A call is waiting for this message: it has the message's id and kind. */
  ghost predicate IsAwaited(server: Server, msg: Incoming) {
    msg.Reply? && exists i :: 0 <= i < |server.calls| && server.calls[i].outcome.Waiting? &&
                              server.calls[i].request == Request(msg.id, msg.kind)
  }

  /** A message has an effect exactly when it answers a waiting call with that id and kind. */
  lemma OnlyAnswersMatter(server: Server, msg: Incoming)
    requires Consistent(server)
    ensures Receive(server, msg) != server <==> IsAwaited(server, msg)
  {
    if IsAwaited(server, msg) {
      var i :| 0 <= i < |server.calls| && server.calls[i].outcome.Waiting?
          && server.calls[i].request == Request(msg.id, msg.kind);
      assert Settles(server, msg) == Some(i);
      assert Receive(server, msg).calls[i].outcome == Answered(msg);
    }
  }

  /**
   Why the theorems about runs ask for distinct ids: if a waiting call's id were drawn again, no message
   and no close would settle that call any more, only its own timeout.
   */
  lemma ReusedIdOrphansCall(server: Server, call: nat, kind: Kind, msg: Incoming)
    requires Consistent(server) && call < |server.calls| && server.calls[call].outcome.Waiting?
    ensures
      var after := Register(server, Request(server.calls[call].request.id, kind));
      && Receive(after, msg).calls[call].outcome.Waiting? && CloseAll(after).calls[call].outcome.Waiting?
      && Settle(after, call, TimedOut).calls[call].outcome.TimedOut?
  {
    var id := server.calls[call].request.id;
    var after := Register(server, Request(id, kind));
    assert after.calls[call] == server.calls[call];
    assert after.pending[id].call == |server.calls|;
    if Settles(after, msg).Some? {
      assert msg.id != id ==> server.pending[msg.id].call != call;
    }
  }
}
