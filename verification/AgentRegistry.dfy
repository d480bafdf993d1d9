/**
 The agent registry: `connected_agents`, `agent_by_server_id` and `server_token_map`.

 A handler registers its socket once and cleans up once; the cleanup pops by token and by
 server id, whoever is registered there by then.  Overlapping connections of one server are
 what makes this interesting: runs are arbitrary interleavings of the two events.
 */
module AgentRegistry {

  /** A token names one server and a server has one token, as the unique column guarantees. */
  datatype Agent = Agent(token: string, server: string)

  datatype Event =
    | Register(socket: nat, agent: Agent)
    | Cleanup(socket: nat, agent: Agent)

  datatype Maps = Maps(connected: map<string, nat>, byServer: map<string, nat>, tokenOf: map<string, string>)

  const EMPTY := Maps(map[], map[], map[])

  function Apply(m: Maps, e: Event): Maps {
    match e
    case Register(socket, a) =>
      Maps(m.connected[a.token := socket], m.byServer[a.server := socket], m.tokenOf[a.server := a.token])
    case Cleanup(_, a) =>
      Maps(m.connected - {a.token}, m.byServer - {a.server}, m.tokenOf - {a.server})
  }

  /** The maps after a history, latest event last. */
  function After(events: seq<Event>): Maps {
    if events == [] then EMPTY else Apply(After(events[..|events| - 1]), events[|events| - 1])
  }

  lemma AfterOneMore(events: seq<Event>, e: Event)
    ensures After(events + [e]) == Apply(After(events), e)
  {
    assert (events + [e])[..|events|] == events;
  }

  /** Tokens and server ids pair up one to one over the whole history. */
  ghost predicate OneToOne(events: seq<Event>) {
    forall i, j :: 0 <= i < |events| && 0 <= j < |events| ==>
      (events[i].agent.token == events[j].agent.token <==> events[i].agent.server == events[j].agent.server)
  }

  /** Each socket's handler registers at most once, and cleans up at most once, after it registered. */
  ghost predicate WellOrdered(events: seq<Event>) {
    && (forall i, j :: 0 <= i < j < |events| && events[i].socket == events[j].socket ==>
          events[i].Register? && events[j].Cleanup?)
    && (forall j :: 0 <= j < |events| && events[j].Cleanup? ==>
          exists i :: 0 <= i < j && events[i] == Register(events[j].socket, events[j].agent))
  }

  /** The index of the last event of `server`, or -1. */
  function LastEvent(events: seq<Event>, server: string): (i: int)
    ensures -1 <= i < |events|
    ensures i >= 0 ==> events[i].agent.server == server
    ensures forall j :: i < j < |events| ==> events[j].agent.server != server
  {
    if events == [] then -1
    else if events[|events| - 1].agent.server == server then |events| - 1
    else LastEvent(events[..|events| - 1], server)
  }

  /**
   Each lookup is decided by the last event of that server alone: a registration gives that
   socket and token, a cleanup or no event gives nothing.  So the three maps agree.
   */
  lemma {:induction false} LookupIsLastEvent(events: seq<Event>, agent: Agent)
    requires OneToOne(events)
    requires forall i :: 0 <= i < |events| ==>
               (events[i].agent.token == agent.token <==> events[i].agent.server == agent.server)
    ensures var m, last := After(events), LastEvent(events, agent.server);
            if last >= 0 && events[last].Register? then
              && agent.server in m.byServer && m.byServer[agent.server] == events[last].socket
              && agent.token in m.connected && m.connected[agent.token] == events[last].socket
              && agent.server in m.tokenOf && m.tokenOf[agent.server] == agent.token
            else
              agent.server !in m.byServer && agent.token !in m.connected && agent.server !in m.tokenOf
  {
    if events != [] {
      LookupIsLastEvent(events[..|events| - 1], agent);
    }
  }

  ghost predicate Valid(events: seq<Event>) {
    OneToOne(events) && WellOrdered(events)
  }

  lemma PrefixValid(events: seq<Event>, n: nat)
    requires Valid(events) && n <= |events|
    ensures Valid(events[..n])
  {
    forall j | 0 <= j < n && events[j].Cleanup?
      ensures exists i :: 0 <= i < j && events[..n][i] == Register(events[j].socket, events[j].agent)
    {
      var i :| 0 <= i < j && events[i] == Register(events[j].socket, events[j].agent);
      assert events[..n][i] == events[i];
    }
  }

  /** Event `i` registered a socket whose handler has not cleaned up. */
  ghost predicate LiveFrom(events: seq<Event>, i: nat)
    requires i < |events|
  {
    events[i].Register? && forall j :: 0 <= j < |events| && events[j].Cleanup? ==> events[j].socket != events[i].socket
  }

  predicate Routed(events: seq<Event>, i: nat)
    requires i < |events|
  {
    var routes := After(events).byServer;
    events[i].agent.server in routes && routes[events[i].agent.server] == events[i].socket
  }

  /** A registration is what commands are routed to exactly when it is its server's last event. */
  lemma RoutedIffLast(events: seq<Event>, i: nat)
    requires Valid(events) && i < |events| && events[i].Register?
    ensures Routed(events, i) <==> LastEvent(events, events[i].agent.server) == i
  {
    LookupIsLastEvent(events, events[i].agent);
  }

  /** A socket that commands are routed to belongs to a handler that has not finished. */
  lemma RoutedHandlerIsRunning(events: seq<Event>, i: nat)
    requires Valid(events) && i < |events| && events[i].Register? && Routed(events, i)
    ensures LiveFrom(events, i)
  {
    RoutedIffLast(events, i);
    forall j | 0 <= j < |events| && events[j].Cleanup? ensures events[j].socket != events[i].socket {
      var k :| 0 <= k < j && events[k] == Register(events[j].socket, events[j].agent);
    }
  }

  /** What the registry gives for a server is what a handler that still runs had registered for it. */
  lemma RoutedIsRegistered(events: seq<Event>, agent: Agent) returns (i: nat)
    requires Valid(events) && agent.server in After(events).byServer
    requires forall j :: 0 <= j < |events| ==>
               (events[j].agent.token == agent.token <==> events[j].agent.server == agent.server)
    ensures i < |events| && events[i] == Register(After(events).byServer[agent.server], agent)
    ensures Routed(events, i) && LiveFrom(events, i)
  {
    LookupIsLastEvent(events, agent);
    i := LastEvent(events, agent.server);
    RoutedHandlerIsRunning(events, i);
  }

  /** Every live socket of the server is the one commands are routed to. */
  ghost predicate LiveIsRouted(events: seq<Event>, server: string) {
    forall i :: 0 <= i < |events| && LiveFrom(events, i) && events[i].agent.server == server ==> Routed(events, i)
  }

  /** No two sockets of the server are live. */
  ghost predicate OneLive(events: seq<Event>, server: string) {
    forall i, j :: 0 <= i < j < |events| && LiveFrom(events, i) && LiveFrom(events, j) ==>
      !(events[i].agent.server == events[j].agent.server == server)
  }

  lemma TwoLive(events: seq<Event>, i: nat, j: nat)
    requires i < |events| && j < |events| && i != j
    requires LiveFrom(events, i) && LiveFrom(events, j) && events[i].agent.server == events[j].agent.server
    ensures !OneLive(events, events[i].agent.server)
  {
    assert LiveFrom(events, if i < j then i else j) && LiveFrom(events, if i < j then j else i);
  }

  /** Two registrations of one server that no cleanup among the first `n` events ends are live then. */
  lemma TwoLiveAt(events: seq<Event>, n: nat, i: nat, j: nat)
    requires i < n <= |events| && j < n && i != j && events[i].agent.server == events[j].agent.server
    requires events[i].Register? && events[j].Register?
    requires forall k :: 0 <= k < n && events[k].Cleanup? ==>
               events[k].socket != events[i].socket && events[k].socket != events[j].socket
    ensures !OneLive(events[..n], events[i].agent.server)
  {
    assert LiveFrom(events[..n], i) && LiveFrom(events[..n], j);
    TwoLive(events[..n], i, j);
  }

  /** If some later event of its server follows a live registration, two of that server were live at some point. */
  lemma OvertakenMeansOverlap(events: seq<Event>, i: nat)
    requires Valid(events) && i < |events| && LiveFrom(events, i)
    requires i < LastEvent(events, events[i].agent.server)
    ensures exists n :: 0 <= n <= |events| && !OneLive(events[..n], events[i].agent.server)
  {
    var last := LastEvent(events, events[i].agent.server);
    if events[last].Register? {
      TwoLiveAt(events, last + 1, i, last);
    } else {
      var k :| 0 <= k < last && events[k] == Register(events[last].socket, events[last].agent);
      TwoLiveAt(events, last, i, k);
    }
  }

  lemma NotOvertaken(events: seq<Event>, i: nat)
    requires Valid(events) && i < |events| && LiveFrom(events, i)
    ensures (forall n :: 0 <= n <= |events| ==> OneLive(events[..n], events[i].agent.server)) ==>
              LastEvent(events, events[i].agent.server) == i
  {
    if i < LastEvent(events, events[i].agent.server) {
      OvertakenMeansOverlap(events, i);
    }
  }

  lemma RoutedMeansOneLive(events: seq<Event>, server: string)
    requires Valid(events) && LiveIsRouted(events, server)
    ensures OneLive(events, server)
  {
    forall i, j | 0 <= i < j < |events| && LiveFrom(events, i) && LiveFrom(events, j)
      ensures !(events[i].agent.server == events[j].agent.server == server)
    {
      assert events[i].socket != events[j].socket;
    }
  }

  /**
   Exactly when routing to a server is reliable, whatever other servers' connections do: in
   every prefix of a history each registered, unfinished socket of the server is the one
   commands are routed to, if and only if in no prefix do two of its connections overlap.
   */
  lemma RoutingReliableIff(events: seq<Event>, server: string)
    requires Valid(events)
    ensures (forall n :: 0 <= n <= |events| ==> LiveIsRouted(events[..n], server))
            <==> (forall n :: 0 <= n <= |events| ==> OneLive(events[..n], server))
  {
    forall n | 0 <= n <= |events| && LiveIsRouted(events[..n], server) ensures OneLive(events[..n], server) {
      PrefixValid(events, n);
      RoutedMeansOneLive(events[..n], server);
    }
    if forall n :: 0 <= n <= |events| ==> OneLive(events[..n], server) {
      forall n, i | 0 <= n <= |events| && 0 <= i < n && LiveFrom(events[..n], i) && events[i].agent.server == server
        ensures Routed(events[..n], i)
      {
        var past := events[..n];
        PrefixValid(events, n);
        forall m | 0 <= m <= |past| ensures OneLive(past[..m], server) {
          assert past[..m] == events[..m];
        }
        NotOvertaken(past, i);
        RoutedIffLast(past, i);
      }
    }
  }

  /** A reconnect that overtakes its predecessor's cleanup ends up registered but not routed. */
  lemma OverlappingReconnectIsUnrouted(earlier: nat, later: nat, agent: Agent)
    requires earlier != later
    ensures var events := [Register(earlier, agent), Register(later, agent), Cleanup(earlier, agent)];
            Valid(events) && LiveFrom(events, 1) && !Routed(events, 1)
  {
    var events := [Register(earlier, agent), Register(later, agent), Cleanup(earlier, agent)];
    assert events[0] == Register(events[2].socket, events[2].agent);
    assert Valid(events);
    assert LastEvent(events, agent.server) == 2;
    LookupIsLastEvent(events, agent);
  }

  class Registry {
    var connectedAgents: map<string, nat>
    var agentByServerId: map<string, nat>
    var serverTokenMap: map<string, string>
    ghost var history: seq<Event>

    ghost function View(): Maps
      reads this
    {
      Maps(connectedAgents, agentByServerId, serverTokenMap)
    }

    /** The maps are what the history of registrations and cleanups makes them. */
    ghost predicate Consistent()
      reads this
    {
      View() == After(history)
    }

    constructor ()
      ensures Consistent() && history == []
    {
      connectedAgents, agentByServerId, serverTokenMap := map[], map[], map[];
      history := [];
    }

    method Register(socket: nat, agent: Agent)
      requires Consistent()
      modifies this
      ensures Consistent() && history == old(history) + [Event.Register(socket, agent)]
    {
      connectedAgents := connectedAgents[agent.token := socket];
      agentByServerId := agentByServerId[agent.server := socket];
      serverTokenMap := serverTokenMap[agent.server := agent.token];
      history := history + [Event.Register(socket, agent)];
    }

    method Cleanup(socket: nat, agent: Agent)
      requires Consistent()
      modifies this
      ensures Consistent() && history == old(history) + [Event.Cleanup(socket, agent)]
    {
      connectedAgents := connectedAgents - {agent.token};
      agentByServerId := agentByServerId - {agent.server};
      serverTokenMap := serverTokenMap - {agent.server};
      history := history + [Event.Cleanup(socket, agent)];
    }
  }
}
