/**
 The live relay between the command bridge and the agents, as a transition system.

 Each step is the code between two awaits of one task: a call that starts, hands its
 command to a socket, waits, times out or returns; an agent that takes the next command
 off its socket and answers; the backend that takes the next message off an agent's
 socket.  A step that is not enabled leaves the state alone, so every sequence of steps
 is a run and "for every run" is "for every sequence of steps".
 */
module Relay {
  import opened Basics
  import opened CommandBridges

  /** The branches of `agent_websocket`: only `Plain` reaches the bridge. */
  datatype Tag = Plain | Registration | Telemetry | Scan | StreamChunk | StreamEnded | TerminalOutput | TerminalClosed

  /** The branch that a message's `type` field selects.  Seven texts are special; any other is as good as none. */
  function TagOf(typed: Option<string>): Tag {
    if typed == None then Plain
    else if typed.value == "register" then Registration
    else if typed.value == "telemetry" then Telemetry
    else if typed.value == "scan" then Scan
    else if typed.value == "stream_chunk" then StreamChunk
    else if typed.value == "stream_ended" then StreamEnded
    else if typed.value == "terminal_output" then TerminalOutput
    else if typed.value == "terminal_closed" then TerminalClosed
    else Plain
  }

  /** Which texts are special, and that nothing else is. */
  lemma TagsAre(typed: Option<string>)
    ensures TagOf(typed).Plain?
            <==> typed == None
                 || typed.value !in {"register", "telemetry", "scan", "stream_chunk", "stream_ended", "terminal_output",
                                     "terminal_closed"}
    ensures TagOf(typed).Registration? <==> typed == Some("register")
    ensures TagOf(typed).Telemetry? <==> typed == Some("telemetry")
    ensures TagOf(typed).Scan? <==> typed == Some("scan")
    ensures TagOf(typed).StreamChunk? <==> typed == Some("stream_chunk")
    ensures TagOf(typed).StreamEnded? <==> typed == Some("stream_ended")
    ensures TagOf(typed).TerminalOutput? <==> typed == Some("terminal_output")
    ensures TagOf(typed).TerminalClosed? <==> typed == Some("terminal_closed")
  {
  }

  /** What a caller asks for; `fragile` if handling its parameters can raise on the agent. */
  datatype Request = Request(action: string, fragile: bool)

  datatype Phase = Sending | Emitted | Waiting | Returned(outcome: Outcome) | TimedOut | SendFailed

  datatype Call = Call(id: string, conn: nat, request: Request, phase: Phase)

  /** `origin` is history: the call that sent the command.  No step reads it to decide anything. */
  datatype Command = Command(id: string, request: Request, origin: nat)

  datatype Message =
    | Reply(id: string, tag: Tag, body: Outcome, origin: nat)
    | Notice(id: string, tag: Tag)

  /** One agent connection: commands on their way out and messages on their way in, in order. */
  datatype Link = Link(inbox: seq<Command>, outbox: seq<Message>)

  /** `answers` is history: what the agent produced for each call's own command. */
  datatype State = State(
    routes: map<string, nat>,
    links: map<nat, Link>,
    nextConn: nat,
    bridge: Bridge,
    calls: seq<Call>,
    answers: map<nat, Outcome>)

  datatype Step =
    | Connect
    | Disconnect(conn: nat)
    | Route(server: string, conn: nat)
    | Unroute(server: string, conn: nat)
    | Start(server: string, request: Request, id: string)
    | Emit(k: nat)
    | SendReturns(k: nat)
    | SendFails(k: nat)
    | TimerFires(k: nat)
    | Resume(k: nat, late: bool)
    | AgentAnswers(conn: nat, typed: Option<string>, outcome: Outcome, raised: bool)
    | AgentNotice(conn: nat, id: string, kind: string)
    | Deliver(conn: nat)

  const INIT := State(map[], map[], 0, Bridge(map[], []), [], map[])

  /** `_listen` answers every command that has an action, except input and resize that went well. */
  predicate Answered(request: Request, raised: bool) {
    && request.action != ""
    && (request.action == "terminal.input" || request.action == "terminal.resize" ==> raised && request.fragile)
  }

  predicate Reaches(m: Message) {
    m.Reply? && m.tag.Plain? && m.id != ""
  }

  function SetPhase(s: State, k: nat, phase: Phase): State
    requires k < |s.calls|
  {
    s.(calls := s.calls[k := s.calls[k].(phase := phase)])
  }

  /** An entry points at a call that bears its id and whose future is not completed. */
  ghost predicate BridgeInv(s: State) {
    && |s.bridge.futures| == |s.calls|
    && forall id :: id in s.bridge.pending ==>
         s.bridge.pending[id] < |s.calls| && s.calls[s.bridge.pending[id]].id == id
         && !s.bridge.futures[s.bridge.pending[id]].Done?
  }

  ghost predicate CallOk(s: State, k: nat)
    requires k < |s.calls| == |s.bridge.futures|
  {
    && s.calls[k].id != ""
    && s.calls[k].conn < s.nextConn
    && (s.calls[k].phase.Returned? ==> s.bridge.futures[k] == Done(s.calls[k].phase.outcome))
    && (s.bridge.futures[k].Cancelled? ==> s.calls[k].phase.Waiting? || s.calls[k].phase.TimedOut?)
    && (s.calls[k].phase.TimedOut? ==> !s.bridge.futures[k].Pending?)
  }

  ghost predicate CallsInv(s: State)
    requires |s.bridge.futures| == |s.calls|
  {
    && (forall k :: 0 <= k < |s.calls| ==> CallOk(s, k))
    && (forall server :: server in s.routes ==> s.routes[server] < s.nextConn)
    && (forall k :: k in s.answers ==> k < |s.calls| && !s.calls[k].phase.Sending?)
  }

  ghost predicate CommandOk(s: State, c: nat, cmd: Command) {
    && cmd.origin < |s.calls|
    && cmd.origin !in s.answers
    && var call := s.calls[cmd.origin];
       call.id == cmd.id && call.request == cmd.request && call.conn == c && !call.phase.Sending?
  }

  /** A command on its way is unanswered, was emitted once, and is on its call's own socket. */
  ghost predicate InboxInv(s: State) {
    && (forall c :: c in s.links ==> c < s.nextConn)
    && (forall c, i :: c in s.links && 0 <= i < |s.links[c].inbox| ==> CommandOk(s, c, s.links[c].inbox[i]))
    && (forall c, i, j :: c in s.links && 0 <= i < j < |s.links[c].inbox| ==>
          s.links[c].inbox[i].origin != s.links[c].inbox[j].origin)
  }

  ghost predicate MessageOk(s: State, c: nat, m: Message) {
    m.Reply? ==>
      && m.origin < |s.calls|
      && s.calls[m.origin].id == m.id && s.calls[m.origin].conn == c
      && m.origin in s.answers && s.answers[m.origin] == m.body
  }

  /** A reply on its way is what the agent answered to the call it stems from. */
  ghost predicate OutboxInv(s: State) {
    forall c, i :: c in s.links && 0 <= i < |s.links[c].outbox| ==> MessageOk(s, c, s.links[c].outbox[i])
  }

  /** What every run keeps, whatever the callers do. */
  ghost predicate Inv(s: State) {
    BridgeInv(s) && CallsInv(s) && InboxInv(s) && OutboxInv(s)
  }

  function StartCall(s: State, server: string, request: Request, id: string): State {
    if server in s.routes && id != "" then
      s.(bridge := Register(s.bridge, id),
         calls := s.calls + [Call(id, s.routes[server], request, Sending)])
    else s
  }

  function EmitCommand(s: State, k: nat): State {
    if k < |s.calls| && s.calls[k].phase.Sending? && s.calls[k].conn in s.links then
      var call := s.calls[k];
      var link := s.links[call.conn];
      SetPhase(s, k, Emitted).(
        links := s.links[call.conn := link.(inbox := link.inbox + [Command(call.id, call.request, k)])])
    else s
  }

  /**
   `wait_for` returns: with the reply, or with the pop and the timeout error.  `late`: the timer
   fired after the reply came and before the task resumed, which Python 3.12 and later report
   as a timeout.
   */
  function ResumeCall(s: State, k: nat, late: bool): State {
    if k < |s.calls| && k < |s.bridge.futures| && s.calls[k].phase.Waiting? then
      match s.bridge.futures[k]
      case Pending => s
      case Done(outcome) =>
        if late then SetPhase(s, k, TimedOut).(bridge := Forget(s.bridge, s.calls[k].id))
        else SetPhase(s, k, Returned(outcome))
      case Cancelled => SetPhase(s, k, TimedOut).(bridge := Forget(s.bridge, s.calls[k].id))
    else s
  }

  /** The agent takes its next command, runs the handler and, unless it stays quiet, replies. */
  function AnswerCommand(s: State, c: nat, tag: Tag, outcome: Outcome, raised: bool): State {
    if c in s.links && s.links[c].inbox != [] then
      var link := s.links[c];
      var cmd := link.inbox[0];
      if Answered(cmd.request, raised) then
        s.(links := s.links[c := Link(link.inbox[1..], link.outbox + [Reply(cmd.id, tag, outcome, cmd.origin)])],
           answers := s.answers[cmd.origin := outcome])
      else
        s.(links := s.links[c := link.(inbox := link.inbox[1..])])
    else s
  }

  /** The backend reads the next message of a socket; only a plain one with an id resolves. */
  function DeliverMessage(s: State, c: nat): State {
    if c in s.links && s.links[c].outbox != [] then
      var link := s.links[c];
      var m := link.outbox[0];
      s.(links := s.links[c := link.(outbox := link.outbox[1..])],
         bridge := if Reaches(m) then Resolve(s.bridge, m.id, m.body) else s.bridge)
    else s
  }

  function Next(s: State, step: Step): State {
    match step
    case Connect =>
      s.(links := s.links[s.nextConn := Link([], [])], nextConn := s.nextConn + 1)
    case Disconnect(c) =>
      s.(links := s.links - {c})
    case Route(server, c) =>
      if c in s.links then s.(routes := s.routes[server := c]) else s
    case Unroute(server, _) =>
      s.(routes := s.routes - {server})
    case Start(server, request, id) => StartCall(s, server, request, id)
    case Emit(k) => EmitCommand(s, k)
    case SendReturns(k) =>
      if k < |s.calls| && s.calls[k].phase.Emitted? then SetPhase(s, k, Waiting) else s
    case SendFails(k) =>
      if k < |s.calls| && (s.calls[k].phase.Sending? || s.calls[k].phase.Emitted?)
      then SetPhase(s, k, SendFailed) else s
    case TimerFires(k) =>
      if k < |s.calls| && s.calls[k].phase.Waiting? then s.(bridge := Expire(s.bridge, k)) else s
    case Resume(k, late) => ResumeCall(s, k, late)
    case AgentAnswers(c, typed, outcome, raised) => AnswerCommand(s, c, TagOf(typed), outcome, raised)
    case AgentNotice(c, id, kind) =>
      if c in s.links && !TagOf(Some(kind)).Plain? then
        s.(links := s.links[c := s.links[c].(outbox := s.links[c].outbox + [Notice(id, TagOf(Some(kind)))])])
      else s
    case Deliver(c) => DeliverMessage(s, c)
  }

  function Exec(s: State, steps: seq<Step>): State
    decreases |steps|
  {
    if steps == [] then s else Exec(Next(s, steps[0]), steps[1..])
  }

  lemma InvEmit(s: State, k: nat)
    requires Inv(s)
    ensures Inv(EmitCommand(s, k))
  {
    var t := EmitCommand(s, k);
    assert CallsInv(t) by {
      forall j | 0 <= j < |t.calls| ensures CallOk(t, j) {
        assert CallOk(s, j);
      }
    }
  }

  /** Answering takes the command off the socket for good: no copy of it is left anywhere. */
  lemma InvAnswerInbox(s: State, c: nat, tag: Tag, outcome: Outcome, raised: bool)
    requires Inv(s)
    ensures InboxInv(AnswerCommand(s, c, tag, outcome, raised))
  {
    var t := AnswerCommand(s, c, tag, outcome, raised);
    if c in s.links && s.links[c].inbox != [] {
      assert CommandOk(s, c, s.links[c].inbox[0]);
      assert t.links[c].inbox == s.links[c].inbox[1..];
      forall d, i | d in t.links && 0 <= i < |t.links[d].inbox| ensures CommandOk(t, d, t.links[d].inbox[i]) {
        assert CommandOk(s, d, if d == c then s.links[d].inbox[i + 1] else s.links[d].inbox[i]);
      }
    }
  }

  lemma InvAnswer(s: State, c: nat, tag: Tag, outcome: Outcome, raised: bool)
    requires Inv(s)
    ensures Inv(AnswerCommand(s, c, tag, outcome, raised))
  {
    var t := AnswerCommand(s, c, tag, outcome, raised);
    InvAnswerInbox(s, c, tag, outcome, raised);
    if c in s.links && s.links[c].inbox != [] {
      assert CommandOk(s, c, s.links[c].inbox[0]);
      assert OutboxInv(t);
      forall j | 0 <= j < |t.calls| ensures CallOk(t, j) {
        assert CallOk(s, j);
      }
    }
  }

  lemma InvDeliver(s: State, c: nat)
    requires Inv(s)
    ensures Inv(DeliverMessage(s, c))
  {
    var t := DeliverMessage(s, c);
    forall j | 0 <= j < |t.calls| ensures CallOk(t, j) {
      assert CallOk(s, j);
    }
  }

  /** Moving a call on to a later phase that suits its future. */
  lemma InvSetPhase(s: State, k: nat, phase: Phase)
    requires Inv(s) && k < |s.calls| && !phase.Sending?
    requires CallOk(SetPhase(s, k, phase), k)
    ensures Inv(SetPhase(s, k, phase))
  {
    var t := SetPhase(s, k, phase);
    forall j | 0 <= j < |t.calls| ensures CallOk(t, j) {
      assert CallOk(s, j);
    }
    forall c, i | c in t.links && 0 <= i < |t.links[c].inbox| ensures CommandOk(t, c, t.links[c].inbox[i]) {
      assert CommandOk(s, c, s.links[c].inbox[i]);
    }
    forall c, i | c in t.links && 0 <= i < |t.links[c].outbox| ensures MessageOk(t, c, t.links[c].outbox[i]) {
      assert MessageOk(s, c, s.links[c].outbox[i]);
    }
  }

  lemma InvForget(s: State, id: string)
    requires Inv(s)
    ensures Inv(s.(bridge := Forget(s.bridge, id)))
  {
    var t := s.(bridge := Forget(s.bridge, id));
    forall j | 0 <= j < |t.calls| ensures CallOk(t, j) {
      assert CallOk(s, j);
    }
    forall c, i | c in t.links && 0 <= i < |t.links[c].inbox| ensures CommandOk(t, c, t.links[c].inbox[i]) {
      assert CommandOk(s, c, s.links[c].inbox[i]);
    }
    forall c, i | c in t.links && 0 <= i < |t.links[c].outbox| ensures MessageOk(t, c, t.links[c].outbox[i]) {
      assert MessageOk(s, c, s.links[c].outbox[i]);
    }
  }

  lemma InvResume(s: State, k: nat, late: bool)
    requires Inv(s)
    ensures Inv(ResumeCall(s, k, late))
  {
    if k < |s.calls| && s.calls[k].phase.Waiting? {
      assert CallOk(s, k);
      match s.bridge.futures[k]
      case Pending =>
      case Done(outcome) =>
        if late {
          InvSetPhase(s, k, TimedOut);
          InvForget(SetPhase(s, k, TimedOut), s.calls[k].id);
        } else {
          InvSetPhase(s, k, Returned(outcome));
        }
      case Cancelled =>
        InvSetPhase(s, k, TimedOut);
        InvForget(SetPhase(s, k, TimedOut), s.calls[k].id);
    }
  }

  lemma InvStart(s: State, server: string, request: Request, id: string)
    requires Inv(s)
    ensures Inv(StartCall(s, server, request, id))
  {
    var t := StartCall(s, server, request, id);
    forall j | 0 <= j < |t.calls| ensures |t.bridge.futures| == |t.calls| && CallOk(t, j) {
      if j < |s.calls| {
        assert CallOk(s, j);
      }
    }
  }

  lemma InvRouting(s: State, step: Step)
    requires Inv(s) && (step.Connect? || step.Disconnect? || step.Route? || step.Unroute? || step.AgentNotice?)
    ensures Inv(Next(s, step))
  {
    forall j | 0 <= j < |s.calls| ensures CallOk(Next(s, step), j) {
      assert CallOk(s, j);
    }
  }

  lemma InvTimer(s: State, k: nat)
    requires Inv(s)
    ensures Inv(Next(s, TimerFires(k)))
  {
    var t := Next(s, TimerFires(k));
    forall j | 0 <= j < |s.calls| ensures CallOk(t, j) {
      assert CallOk(s, j);
    }
  }

  /** Every step keeps the invariant; `InvRun` extends it to every run. */
  lemma InvStep(s: State, step: Step)
    requires Inv(s)
    ensures Inv(Next(s, step))
  {
    match step
    case Start(server, request, id) => InvStart(s, server, request, id);
    case Emit(k) => InvEmit(s, k);
    case Resume(k, late) => InvResume(s, k, late);
    case AgentAnswers(c, typed, outcome, raised) => InvAnswer(s, c, TagOf(typed), outcome, raised);
    case Deliver(c) => InvDeliver(s, c);
    case TimerFires(k) => InvTimer(s, k);
    case SendReturns(k) => if Next(s, step) != s { assert CallOk(s, k); InvSetPhase(s, k, Waiting); }
    case SendFails(k) => if Next(s, step) != s { assert CallOk(s, k); InvSetPhase(s, k, SendFailed); }
    case _ => InvRouting(s, step);
  }

  lemma {:induction false} InvRun(s: State, steps: seq<Step>)
    requires Inv(s)
    ensures Inv(Exec(s, steps))
    decreases |steps|
  {
    if steps != [] {
      InvStep(s, steps[0]);
      InvRun(Next(s, steps[0]), steps[1..]);
    }
  }
}
