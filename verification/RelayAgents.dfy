/**
 The relay put together with its two ends: the agent's dispatcher, which decides what reply a
 command gets, and the backend's registry, which decides what socket a command goes to.
 */
module RelayAgents {
  import opened Basics
  import opened CommandBridges
  import opened Relay
  import opened RelayTheorems
  import Agents = AgentConnections
  import Registry = AgentRegistry

  // ----- Which replies complete their call -----

  /** Once its only answer has gone down another branch, nothing on its way can answer for the call. */
  lemma AnswerSpent(s: State, c: nat, typed: Option<string>, outcome: Outcome, raised: bool, k: nat)
    requires Inv(s) && Guarded(s, k) && c in s.links && s.links[c].inbox != [] && s.links[c].inbox[0].origin == k
    requires Answered(s.links[c].inbox[0].request, raised)
    ensures k < |Next(s, AgentAnswers(c, typed, outcome, raised)).calls|
    ensures MayAnswer(Next(s, AgentAnswers(c, typed, outcome, raised)), k) <==> TagOf(typed).Plain?
  {
    var link, cmd := s.links[c], s.links[c].inbox[0];
    var t := Next(s, AgentAnswers(c, typed, outcome, raised));
    var reply := Reply(cmd.id, TagOf(typed), outcome, k);
    assert CommandOk(s, c, cmd) && CallOk(s, k);
    InvStep(s, AgentAnswers(c, typed, outcome, raised));
    assert t.links[c].outbox == link.outbox + [reply];
    assert reply in t.links[c].outbox;
    assert ReplyTo(reply, k) <==> TagOf(typed).Plain?;
    forall m | m in link.outbox ensures !ReplyTo(m, k) {
      assert MessageOk(s, c, m);
    }
    forall other | other in t.links[c].inbox ensures other.origin != k {
      assert CommandOk(t, c, other);
    }
  }

  lemma AnswerDecides(s: State, c: nat, typed: Option<string>, outcome: Outcome, raised: bool, k: nat)
    requires Inv(s) && Guarded(s, k) && c in s.links && s.links[c].inbox != [] && s.links[c].inbox[0].origin == k
    requires Answered(s.links[c].inbox[0].request, raised) && s.bridge.futures[k].Pending?
    ensures CanComplete(Next(s, AgentAnswers(c, typed, outcome, raised)), k) <==> Owns(s, k) && TagOf(typed).Plain?
  {
    var step := AgentAnswers(c, typed, outcome, raised);
    var t := Next(s, step);
    InvStep(s, step);
    AnswerSpent(s, c, typed, outcome, raised, k);
    assert t.bridge == s.bridge && t.calls == s.calls;
    CanCompleteIff(t, k);
    forall j | 0 <= j < |t.calls| && t.calls[j].id == t.calls[k].id && Owns(t, k) && j != k ensures !MayAnswer(t, j) {
      assert j < k;
      SilentStays(s, step, j);
    }
  }

  /**
   Exactly when the agent's answer completes its call.  In a run whose calls start under clear
   ids, when the agent takes the command of a call that still waits and replies as its
   dispatcher does, that call can complete on some future if and only if it owns its entry and
   the reply's `type` is not one of the seven texts that the backend branches on.
   */
  lemma AnswerCompletesIff(past: seq<Step>, c: nat, agent: Agents.State, m: Agents.Incoming, handled: Agents.Handled,
                           forks: bool, outcome: Outcome)
    requires ClearStarts(INIT, past)
    requires var s := Exec(INIT, past);
             && c in s.links && s.links[c].inbox != []
             && m.id == s.links[c].inbox[0].id
             && s.links[c].inbox[0].request == Request(m.action, Agents.CanRaise(m))
             && s.links[c].inbox[0].origin < |s.bridge.futures|
             && s.bridge.futures[s.links[c].inbox[0].origin].Pending?
    requires Agents.Dispatch(agent, m, handled, forks).1 != []
    ensures var s, typed := Exec(INIT, past), Agents.Dispatch(agent, m, handled, forks).1[0].typed;
            var k, t := s.links[c].inbox[0].origin, Next(s, AgentAnswers(c, typed, outcome, Agents.Raised(agent, m)));
            && k < |s.calls|
            && (CanComplete(t, k)
                <==> && Owns(s, k)
                     && (typed == None
                         || typed.value !in {"register", "telemetry", "scan", "stream_chunk", "stream_ended",
                                             "terminal_output", "terminal_closed"}))
  {
    TagsAre(Agents.Dispatch(agent, m, handled, forks).1[0].typed);
    var s, typed := Exec(INIT, past), Agents.Dispatch(agent, m, handled, forks).1[0].typed;
    var cmd := s.links[c].inbox[0];
    AllGuarded(INIT, past);
    assert CommandOk(s, c, cmd) && CallOk(s, cmd.origin);
    Agents.AnswersOnce(agent, m, handled, forks);
    AnswerDecides(s, c, typed, outcome, Agents.Raised(agent, m), cmd.origin);
  }

  lemma {:induction false} ExecThen(s: State, steps: seq<Step>, step: Step)
    ensures Exec(s, steps + [step]) == Next(Exec(s, steps), step)
    decreases |steps|
  {
    if steps == [] {
      assert Exec(Next(s, step), []) == Next(s, step);
    } else {
      assert (steps + [step])[1..] == steps[1..] + [step];
      ExecThen(Next(s, steps[0]), steps[1..], step);
    }
  }

  function SentCommand(server: string, request: Request, id: string): seq<Step> {
    [Connect, Route(server, 0), Start(server, request, id), Emit(0), SendReturns(0)]
  }

  /** The first connection, the first call: its command is on the socket and its entry is its own. */
  lemma CommandIsOut(server: string, request: Request, id: string)
    requires id != ""
    ensures ClearStarts(INIT, SentCommand(server, request, id))
    ensures var s := Exec(INIT, SentCommand(server, request, id));
            && 0 in s.links && s.links[0] == Link([Command(id, request, 0)], [])
            && s.bridge == Bridge(map[id := 0], [Pending])
            && s.routes == map[server := 0]
            && s.calls == [Call(id, 0, request, Waiting)]
  {
    var all := SentCommand(server, request, id);
    var s1 := Next(INIT, all[0]);
    var s2 := Next(s1, all[1]);
    var s3 := Next(s2, all[2]);
    var s4 := Next(s3, all[3]);
    var s5 := Next(s4, all[4]);
    assert all[4..] == [all[4]] && all[4..][1..] == [];
    assert all[3..][1..] == all[4..] && all[2..][1..] == all[3..] && all[1..][1..] == all[2..];
    assert Exec(s5, []) == s5 && ClearStarts(s5, []);
    assert Exec(s4, all[4..]) == s5 && ClearStarts(s4, all[4..]);
    assert Exec(s3, all[3..]) == s5 && ClearStarts(s3, all[3..]);
    assert Exec(s2, all[2..]) == s5 && ClearStarts(s2, all[2..]);
    assert Exec(s1, all[1..]) == s5 && ClearStarts(s1, all[1..]);
  }

  /** How a call goes when all goes well: it returns what the agent answered. */
  lemma CallReturnsAnswer(server: string, request: Request, id: string, typed: Option<string>, outcome: Outcome)
    requires id != "" && Answered(request, false)
    requires typed.Some? ==> typed.value !in {"register", "telemetry", "scan", "stream_chunk", "stream_ended",
                                              "terminal_output", "terminal_closed"}
    ensures var run := SentCommand(server, request, id) + [AgentAnswers(0, typed, outcome, false)] + [Deliver(0)]
                       + [Resume(0, false)];
            && Exec(INIT, run).calls == [Call(id, 0, request, Returned(outcome))]
            && id !in Exec(INIT, run).bridge.pending
  {
    var sent := SentCommand(server, request, id);
    var answered := sent + [AgentAnswers(0, typed, outcome, false)];
    var delivered := answered + [Deliver(0)];
    TagsAre(typed);
    CommandIsOut(server, request, id);
    ExecThen(INIT, sent, AgentAnswers(0, typed, outcome, false));
    ExecThen(INIT, answered, Deliver(0));
    ExecThen(INIT, delivered, Resume(0, false));
  }

  /** And when the send fails: the call ends there, and its entry stays behind. */
  lemma FailedSendLeavesEntry(server: string, request: Request, id: string)
    requires id != ""
    ensures var s := Exec(INIT, [Connect, Route(server, 0), Start(server, request, id), SendFails(0)]);
            s.calls == [Call(id, 0, request, SendFailed)] && Owns(s, 0)
  {
    var all := [Connect, Route(server, 0), Start(server, request, id), SendFails(0)];
    var s1 := Next(INIT, all[0]);
    var s2 := Next(s1, all[1]);
    var s3 := Next(s2, all[2]);
    var s4 := Next(s3, all[3]);
    assert all[3..] == [all[3]] && all[3..][1..] == [] && all[2..][1..] == all[3..] && all[1..][1..] == all[2..];
    assert Exec(s4, []) == s4;
    assert Exec(s3, all[3..]) == s4;
    assert Exec(s2, all[2..]) == s4;
    assert Exec(s1, all[1..]) == s4;
  }

  /** A second call under the id of a command that is still out does get its answer on some run. */
  lemma ReusedIdGetsForeignAnswer(server: string, request: Request, id: string)
    requires id != "" && Answered(request, true)
    ensures var again := Next(Exec(INIT, SentCommand(server, request, id)), Start(server, request, id));
            exists future :: ForeignAnswer(Exec(again, future), 1)
  {
    var past := SentCommand(server, request, id);
    var s := Exec(INIT, past);
    CommandIsOut(server, request, id);
    assert Command(id, request, 0) in s.links[0].inbox && Carries(s.links[0].inbox, 0);
    assert MayAnswer(s, 0) && s.calls[0].id == id;
    ForeignAnswerIff(past, server, request, id);
  }

  /** Nor does it help that no live call uses the id: a call that timed out can still be answered. */
  lemma TimedOutIdGetsForeignAnswer(server: string, request: Request, id: string)
    requires id != "" && Answered(request, true)
    ensures var past := SentCommand(server, request, id) + [TimerFires(0)] + [Resume(0, false)];
            var s := Exec(INIT, past);
            && IdFree(s, id) && |s.calls| == 1 && s.calls[0].phase.TimedOut?
            && exists future :: ForeignAnswer(Exec(Next(s, Start(server, request, id)), future), 1)
  {
    var sent := SentCommand(server, request, id);
    var past := sent + [TimerFires(0)] + [Resume(0, false)];
    var s := Exec(INIT, past);
    CommandIsOut(server, request, id);
    ExecThen(INIT, sent, TimerFires(0));
    ExecThen(INIT, sent + [TimerFires(0)], Resume(0, false));
    assert |s.calls| == 1 && s.calls[0].id == id && s.calls[0].phase.TimedOut?;
    assert Command(id, request, 0) in s.links[0].inbox && Carries(s.links[0].inbox, 0);
    assert MayAnswer(s, 0);
    ForeignAnswerIff(past, server, request, id);
  }

  /**
   `handle_create` of nginx: the result brings along the request's own `type`, "backend" if it
   has none; when nginx rejects the configuration the result is an error alone.
   */
  function CreateSite(siteType: Option<string>, accepted: bool): Agents.Handled {
    if !accepted then Agents.Returns(None, true)
    else Agents.Returns(Some(if siteType.Some? then siteType.value else "backend"), false)
  }

  lemma SiteIsAnswered(agent: Agents.State, m: Agents.Incoming, siteType: Option<string>, accepted: bool)
    requires m.action == "nginx.create"
    ensures var handled := CreateSite(siteType, accepted);
            Agents.Dispatch(agent, m, handled, false).1 == [Agents.Reply(m.id, handled.typed, accepted)]
  {
    assert m.action[..9][0] == 'n' && "terminal."[0] == 't';
  }

  lemma FirstAnswerDecides(server: string, request: Request, id: string, typed: Option<string>, outcome: Outcome)
    requires id != "" && Answered(request, false)
    ensures CanComplete(Exec(INIT, SentCommand(server, request, id) + [AgentAnswers(0, typed, outcome, false)]), 0)
            <==> TagOf(typed).Plain?
  {
    var past := SentCommand(server, request, id);
    CommandIsOut(server, request, id);
    AllGuarded(INIT, past);
    assert Owns(Exec(INIT, past), 0) && Guarded(Exec(INIT, past), 0);
    AnswerDecides(Exec(INIT, past), 0, typed, outcome, false, 0);
    ExecThen(INIT, past, AgentAnswers(0, typed, outcome, false));
  }

  /**
   Creating a site is answered unless the site is created and its `type`, which the client
   chose, is one of the seven texts that the backend branches on: then its call can only time
   out.  "register" is such a type, and "backend" is not.
   */
  lemma SiteTypeDecides(server: string, id: string, siteType: Option<string>, accepted: bool, agent: Agents.State,
                        params: Agents.Params, outcome: Outcome)
    requires id != "" && params.Params?
    ensures var m := Agents.Incoming(id, "nginx.create", params);
            var sent := Agents.Dispatch(agent, m, CreateSite(siteType, accepted), false).1;
            var typed := if !accepted then None else if siteType.Some? then siteType else Some("backend");
            && sent == [Agents.Reply(id, typed, accepted)]
            && (CanComplete(Exec(INIT, SentCommand(server, Request("nginx.create", false), id)
                                       + [AgentAnswers(0, typed, outcome, false)]), 0)
                <==> !accepted || siteType == None
                     || siteType.value !in {"register", "telemetry", "scan", "stream_chunk", "stream_ended",
                                            "terminal_output", "terminal_closed"})
  {
    var m := Agents.Incoming(id, "nginx.create", params);
    TagsAre(CreateSite(siteType, accepted).typed);
    SiteIsAnswered(agent, m, siteType, accepted);
    FirstAnswerDecides(server, Request("nginx.create", false), id, CreateSite(siteType, accepted).typed, outcome);
  }

  // ----- Which sockets a command reaches -----

  /** The registry events of a run; a server's token is `tokenOf` it. */
  function EventOf(s: State, step: Step, tokenOf: string -> string): seq<Registry.Event> {
    match step
    case Route(server, c) =>
      if c in s.links then [Registry.Register(c, Registry.Agent(tokenOf(server), server))] else []
    case Unroute(server, c) => [Registry.Cleanup(c, Registry.Agent(tokenOf(server), server))]
    case _ => []
  }

  function Events(s: State, steps: seq<Step>, tokenOf: string -> string): seq<Registry.Event>
    decreases |steps|
  {
    if steps == [] then [] else EventOf(s, steps[0], tokenOf) + Events(Next(s, steps[0]), steps[1..], tokenOf)
  }

  lemma RoutesUntouched(s: State, step: Step, tokenOf: string -> string)
    requires EventOf(s, step, tokenOf) == []
    ensures Next(s, step).routes == s.routes
  {
  }

  lemma RoutesApplied(s: State, step: Step, tokenOf: string -> string, maps: Registry.Maps)
    requires EventOf(s, step, tokenOf) != [] && s.routes == maps.byServer
    ensures Next(s, step).routes == Registry.Apply(maps, EventOf(s, step, tokenOf)[0]).byServer
  {
  }

  lemma RouteStep(s: State, step: Step, tokenOf: string -> string, before: seq<Registry.Event>)
    requires s.routes == Registry.After(before).byServer
    ensures Next(s, step).routes == Registry.After(before + EventOf(s, step, tokenOf)).byServer
  {
    var event := EventOf(s, step, tokenOf);
    if event == [] {
      RoutesUntouched(s, step, tokenOf);
      assert before + event == before;
    } else {
      Registry.AfterOneMore(before, event[0]);
      RoutesApplied(s, step, tokenOf, Registry.After(before));
      assert event == [event[0]];
    }
  }

  lemma Regroup(a: seq<Registry.Event>, b: seq<Registry.Event>, c: seq<Registry.Event>)
    ensures a + b + c == a + (b + c)
  {
  }

  /** The relay's routes are the registry's `agent_by_server_id`. */
  lemma {:induction false} RoutesAreRegistry(s: State, steps: seq<Step>, tokenOf: string -> string,
                                             before: seq<Registry.Event>)
    requires s.routes == Registry.After(before).byServer
    ensures Exec(s, steps).routes == Registry.After(before + Events(s, steps, tokenOf)).byServer
    decreases |steps|
  {
    if steps == [] {
      assert before + [] == before;
    } else {
      var t, event := Next(s, steps[0]), EventOf(s, steps[0], tokenOf);
      RouteStep(s, steps[0], tokenOf, before);
      RoutesAreRegistry(t, steps[1..], tokenOf, before + event);
      Regroup(before, event, Events(t, steps[1..], tokenOf));
    }
  }

  lemma RoutesFromInit(steps: seq<Step>, tokenOf: string -> string)
    ensures Exec(INIT, steps).routes == Registry.After(Events(INIT, steps, tokenOf)).byServer
  {
    RoutesAreRegistry(INIT, steps, tokenOf, []);
    assert [] + Events(INIT, steps, tokenOf) == Events(INIT, steps, tokenOf);
  }

  ghost predicate Paired(e: Registry.Event, tokenOf: string -> string) {
    e.agent.token == tokenOf(e.agent.server)
  }

  lemma {:induction false} TokensMatch(s: State, steps: seq<Step>, tokenOf: string -> string)
    ensures forall e :: e in Events(s, steps, tokenOf) ==> Paired(e, tokenOf)
    decreases |steps|
  {
    if steps != [] {
      TokensMatch(Next(s, steps[0]), steps[1..], tokenOf);
    }
  }

  /** A token names one server. */
  ghost predicate Injective(tokenOf: string -> string) {
    forall a, b :: tokenOf(a) == tokenOf(b) ==> a == b
  }

  lemma PairedIsOneToOne(events: seq<Registry.Event>, tokenOf: string -> string, server: string)
    requires Injective(tokenOf)
    requires forall e :: e in events ==> Paired(e, tokenOf)
    ensures Registry.OneToOne(events)
    ensures forall i :: 0 <= i < |events| ==>
              (events[i].agent.token == tokenOf(server) <==> events[i].agent.server == server)
  {
    forall i | 0 <= i < |events| ensures Paired(events[i], tokenOf) {
      assert events[i] in events;
    }
  }

  /** A routed socket was registered for its server by that server's last event. */
  lemma RoutedSocket(past: seq<Step>, server: string, tokenOf: string -> string) returns (i: nat)
    requires server in Exec(INIT, past).routes
    requires Injective(tokenOf)
    requires Registry.WellOrdered(Events(INIT, past, tokenOf))
    ensures var events := Events(INIT, past, tokenOf);
            && i < |events|
            && events[i] == Registry.Register(Exec(INIT, past).routes[server], Registry.Agent(tokenOf(server), server))
            && Registry.Routed(events, i) && Registry.LiveFrom(events, i)
  {
    var events, agent := Events(INIT, past, tokenOf), Registry.Agent(tokenOf(server), server);
    RoutesFromInit(past, tokenOf);
    TokensMatch(INIT, past, tokenOf);
    PairedIsOneToOne(events, tokenOf, server);
    i := Registry.RoutedIsRegistered(events, agent);
  }

  /**
   A command only ever travels on a socket that had registered for its server, was the one the
   registry gave for it when the call started, and whose handler was then still running; the
   reply comes back on the same socket.
   */
  lemma CommandReachesItsServer(past: seq<Step>, later: seq<Step>, server: string, request: Request, id: string, c: nat,
                                tokenOf: string -> string)
    requires id != "" && server in Exec(INIT, past).routes
    requires Injective(tokenOf)
    requires Registry.WellOrdered(Events(INIT, past, tokenOf))
    requires var s := Exec(INIT, past);
             var end := Exec(Next(s, Start(server, request, id)), later);
             c in end.links && (Carries(end.links[c].inbox, |s.calls|) || Replies(end.links[c].outbox, |s.calls|))
    ensures var events := Events(INIT, past, tokenOf);
            exists i :: 0 <= i < |events| && events[i] == Registry.Register(c, Registry.Agent(tokenOf(server), server))
                        && Registry.Routed(events, i) && Registry.LiveFrom(events, i)
  {
    if c != Exec(INIT, past).routes[server] {
      TrafficStaysOnRoute(past, later, server, request, id, c);
    }
    var i := RoutedSocket(past, server, tokenOf);
  }
}
