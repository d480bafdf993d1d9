/**
 Where the output of a stream or a terminal session ends up: the frames that agents send,
 put together with the stream subscriptions and the server watches of the browser sockets.

 An agent's handler awaits the send of a frame to its subscriber before it reads on, so other
 steps fall between the lookup and the end of the send.
 */
module RelayStreams {
  import opened Basics
  import Relay
  import opened Subscriptions

  /** A frame taken off an agent's socket, and the browser sockets that got it. */
  datatype Shown = Shown(id: string, tag: Relay.Tag, sockets: set<Socket>)

  /** A frame on its way to the subscriber found for it. */
  datatype Sending = Sending(frame: Relay.Message, target: Socket)

  /** `servers`: the server that each agent connection registered for. */
  datatype State = State(
    relay: Relay.State,
    servers: map<nat, string>,
    index: Index,
    hub: Streams,
    sending: map<nat, Sending>,
    shown: seq<Shown>)

  const INIT := State(Relay.INIT, map[], Index(map[], map[]), Streams(map[], map[]), map[], [])

  /**
   `SendEnds`: the send to a subscriber returns or raises; `failed` are the watchers that a
   broadcast in the same step does not reach.  `Browser` is what browser sockets do about
   streams, and `Watcher` what they, or other broadcasts, do about watches.
   */
  datatype Step =
    | Agent(step: Relay.Step, failed: set<Socket>)
    | SendEnds(conn: nat, raises: bool, failed: set<Socket>)
    | Browser(event: StreamEvent)
    | Watcher(watch: Event)

  /** Of a log stream: such a frame has the server's watchers to fall back on. */
  predicate OfStream(m: Relay.Message) {
    m.tag.StreamChunk? || m.tag.StreamEnded?
  }

  predicate IsFrame(m: Relay.Message) {
    OfStream(m) || m.tag.TerminalOutput? || m.tag.TerminalClosed?
  }

  /** The frame next in line on connection `c`, unless its handler is busy with the one before. */
  function FrameAt(s: State, c: nat): Option<Relay.Message> {
    if c !in s.sending && c in s.relay.links && s.relay.links[c].outbox != [] && IsFrame(s.relay.links[c].outbox[0])
    then Some(s.relay.links[c].outbox[0])
    else None
  }

  predicate HasSubscriber(x: Streams, m: Relay.Message) {
    m.id != "" && m.id in x.subscriber
  }

  function Watchers(s: State, c: nat): set<Socket> {
    if c in s.servers && s.servers[c] in s.index.forward then s.index.forward[s.servers[c]] else {}
  }

  /** A frame that was not delivered to a subscriber. */
  function Undelivered(s: State, c: nat, m: Relay.Message, failed: set<Socket>): State {
    if OfStream(m) then
      s.(shown := s.shown + [Shown(m.id, m.tag, Watchers(s, c) - failed)],
         index := if c in s.servers then Apply(s.index, SendsFailed(s.servers[c], failed)) else s.index)
    else s.(shown := s.shown + [Shown(m.id, m.tag, {})])
  }

  /** The handler of connection `c` reads its next message. */
  function Receive(s: State, c: nat, failed: set<Socket>): State {
    var frame, t := FrameAt(s, c), s.(relay := Relay.Next(s.relay, Relay.Deliver(c)));
    if c in s.sending then s
    else if frame == None then t
    else if HasSubscriber(s.hub, frame.value) then
      t.(sending := s.sending[c := Sending(frame.value, s.hub.subscriber[frame.value.id])])
    else Undelivered(t, c, frame.value, failed)
  }

  function EndSend(s: State, c: nat, raises: bool, failed: set<Socket>): State {
    if c !in s.sending then s
    else
      var frame, t := s.sending[c].frame, s.(sending := s.sending - {c});
      if raises then Undelivered(t.(hub := ApplyStream(s.hub, SendFailed(frame.id))), c, frame, failed)
      else t.(shown := s.shown + [Shown(frame.id, frame.tag, {s.sending[c].target})])
  }

  function Next(s: State, step: Step): State {
    match step
    case Agent(step, failed) =>
      if step.Deliver? then Receive(s, step.conn, failed)
      else
        s.(relay := Relay.Next(s.relay, step),
           servers := if step.Route? && step.conn in s.relay.links then s.servers[step.conn := step.server]
                      else s.servers)
    case SendEnds(c, raises, failed) => EndSend(s, c, raises, failed)
    case Browser(e) =>
      // a failed send is for `SendEnds` to report
      if e.SendFailed? then s
      else
        s.(hub := ApplyStream(s.hub, e),
           index := if e.Opens? then Apply(s.index, Connect(e.socket))
                    else if e.Closes? then Apply(s.index, Disconnect(e.socket))
                    else s.index)
    case Watcher(e) => if e.Connect? || e.Disconnect? then s else s.(index := Apply(s.index, e))
  }

  function Exec(s: State, steps: seq<Step>): State
    decreases |steps|
  {
    if steps == [] then s else Exec(Next(s, steps[0]), steps[1..])
  }

  /** What the step does to the subscriptions. */
  function EventOf(s: State, step: Step): Option<StreamEvent> {
    match step
    case Browser(e) => if e.SendFailed? then None else Some(e)
    case SendEnds(c, raises, _) => if raises && c in s.sending then Some(SendFailed(s.sending[c].frame.id)) else None
    case _ => None
  }

  /**
   The step takes stream `id` from its subscriber: another socket claims the id, somebody ends
   it, a send of it fails, whoever it was to, or a socket closes that had ever claimed it.
   */
  predicate Takes(s: State, step: Step, w: Socket, id: string) {
    match EventOf(s, step)
    case None => false
    case Some(e) =>
      match e
      case Opens(_) => false
      case Subscribe(v, i) => i == id && v != w
      case Unsubscribe(i) => i == id
      case SendFailed(i) => i == id
      case Closes(v) => id in Owned(s.hub, v)
  }

  predicate EverTaken(s: State, steps: seq<Step>, w: Socket, id: string)
    decreases |steps|
  {
    steps != [] && (Takes(s, steps[0], w, id) || EverTaken(Next(s, steps[0]), steps[1..], w, id))
  }

  /** `w` does not claim `id` again. */
  predicate NotReclaimed(steps: seq<Step>, w: Socket, id: string) {
    forall i :: 0 <= i < |steps| ==> steps[i] != Browser(Subscribe(w, id))
  }

  lemma HubFollowsEvents(s: State, step: Step)
    ensures Next(s, step).hub == if EventOf(s, step).Some? then ApplyStream(s.hub, EventOf(s, step).value) else s.hub
  {
  }

  lemma KeptIff(s: State, step: Step, w: Socket, id: string)
    requires step != Browser(Subscribe(w, id))
    ensures Gets(Next(s, step).hub, w, id) <==> Gets(s.hub, w, id) && !Takes(s, step, w, id)
  {
    HubFollowsEvents(s, step);
  }

  lemma {:induction false} NeverRegained(s: State, steps: seq<Step>, w: Socket, id: string)
    requires !Gets(s.hub, w, id) && NotReclaimed(steps, w, id)
    ensures !Gets(Exec(s, steps).hub, w, id)
    decreases |steps|
  {
    if steps != [] {
      assert steps[0] != Browser(Subscribe(w, id));
      KeptIff(s, steps[0], w, id);
      NeverRegained(Next(s, steps[0]), steps[1..], w, id);
    }
  }

  lemma {:induction false} StaysSubscribedIff(s: State, steps: seq<Step>, w: Socket, id: string)
    requires Gets(s.hub, w, id) && NotReclaimed(steps, w, id)
    ensures Gets(Exec(s, steps).hub, w, id) <==> !EverTaken(s, steps, w, id)
    decreases |steps|
  {
    if steps != [] {
      assert steps[0] != Browser(Subscribe(w, id));
      KeptIff(s, steps[0], w, id);
      if Gets(Next(s, steps[0]).hub, w, id) {
        StaysSubscribedIff(Next(s, steps[0]), steps[1..], w, id);
      } else {
        NeverRegained(Next(s, steps[0]), steps[1..], w, id);
      }
    }
  }

  // ----- One frame, from its agent's socket to the browsers -----

  /** The send that connection `c` is in the middle of does not end. */
  predicate Unended(steps: seq<Step>, c: nat) {
    forall i :: 0 <= i < |steps| ==> !(steps[i].SendEnds? && steps[i].conn == c)
  }

  lemma {:induction false} SendingKept(s: State, steps: seq<Step>, c: nat)
    requires c in s.sending && Unended(steps, c)
    ensures c in Exec(s, steps).sending && Exec(s, steps).sending[c] == s.sending[c]
    decreases |steps|
  {
    if steps != [] {
      assert !(steps[0].SendEnds? && steps[0].conn == c);
      SendingKept(Next(s, steps[0]), steps[1..], c);
    }
  }

  /** The state in which it is settled who gets the next frame of `c`: at once, or after `meanwhile`. */
  function Settling(s: State, c: nat, meanwhile: seq<Step>): State {
    var taken := Next(s, Agent(Relay.Deliver(c), {}));
    if c in taken.sending then Exec(taken, meanwhile) else s
  }

  /** The next frame of `c` is taken, and its forwarding comes to an end. */
  function Forwarded(s: State, c: nat, meanwhile: seq<Step>, raises: bool, failed: set<Socket>): State {
    var x := Settling(s, c, meanwhile);
    Next(x, if c in x.sending then SendEnds(c, raises, failed) else Agent(Relay.Deliver(c), failed))
  }

  /** The frame is not delivered to a subscriber, and the watcher `w` of its server gets it instead. */
  predicate ReachedByBroadcast(s: State, c: nat, meanwhile: seq<Step>, raises: bool, failed: set<Socket>, w: Socket) {
    var frame := FrameAt(s, c);
    && frame.Some? && OfStream(frame.value)
    && (raises || !HasSubscriber(s.hub, frame.value))
    && w in Watchers(Settling(s, c, meanwhile), c) && w !in failed
  }

  /** A frame with a subscriber: whatever happens meanwhile, it is settled when the send to that one ends. */
  lemma SentTo(s: State, c: nat, meanwhile: seq<Step>, raises: bool, failed: set<Socket>)
    requires FrameAt(s, c).Some? && Unended(meanwhile, c) && HasSubscriber(s.hub, FrameAt(s, c).value)
    ensures var frame, x := FrameAt(s, c).value, Settling(s, c, meanwhile);
            var sockets := if !raises then {s.hub.subscriber[frame.id]}
                           else if OfStream(frame) then Watchers(x, c) - failed
                           else {};
            Forwarded(s, c, meanwhile, raises, failed).shown == x.shown + [Shown(frame.id, frame.tag, sockets)]
  {
    SendingKept(Next(s, Agent(Relay.Deliver(c), {})), meanwhile, c);
  }

  lemma ForwardedTo(s: State, c: nat, meanwhile: seq<Step>, raises: bool, failed: set<Socket>, w: Socket)
    requires FrameAt(s, c).Some? && Unended(meanwhile, c)
    ensures var frame, shown := FrameAt(s, c).value, Forwarded(s, c, meanwhile, raises, failed).shown;
            && shown != [] && shown[|shown| - 1].id == frame.id && shown[|shown| - 1].tag == frame.tag
            && (w in shown[|shown| - 1].sockets
                <==> (frame.id != "" && Gets(s.hub, w, frame.id) && !raises)
                     || ReachedByBroadcast(s, c, meanwhile, raises, failed, w))
  {
    if HasSubscriber(s.hub, FrameAt(s, c).value) {
      SentTo(s, c, meanwhile, raises, failed);
    }
  }

  /**
   Which browsers see a session's output.  After a socket has claimed the id, on any run on
   which it does not claim it again, the next frame of that id reaches it if and only if
   nothing took the id meanwhile and the send to it works, or the frame is one of a log stream,
   is not delivered to a subscriber, and the socket is reached as a watcher of the server.
   `meanwhile` is what happens while the send is under way.
   */
  lemma FrameReachesClaimantIff(s: State, w: Socket, id: string, steps: seq<Step>, c: nat, meanwhile: seq<Step>,
                                raises: bool, failed: set<Socket>)
    requires id != "" && NotReclaimed(steps, w, id) && Unended(meanwhile, c)
    requires var frame := FrameAt(Exec(Next(s, Browser(Subscribe(w, id))), steps), c);
             frame.Some? && frame.value.id == id
    ensures var claimed := Next(s, Browser(Subscribe(w, id)));
            var end := Exec(claimed, steps);
            var shown := Forwarded(end, c, meanwhile, raises, failed).shown;
            && shown != [] && shown[|shown| - 1].id == id
            && (w in shown[|shown| - 1].sockets
                <==> (!EverTaken(claimed, steps, w, id) && !raises)
                     || ReachedByBroadcast(end, c, meanwhile, raises, failed, w))
  {
    var claimed := Next(s, Browser(Subscribe(w, id)));
    StaysSubscribedIff(claimed, steps, w, id);
    ForwardedTo(Exec(claimed, steps), c, meanwhile, raises, failed, w);
  }

  /** What is forwarded at all: the four kinds of frame, one at a time for each connection. */
  lemma ForwardedKinds(s: State, c: nat)
    ensures FrameAt(s, c).Some?
            <==> c !in s.sending && c in s.relay.links && s.relay.links[c].outbox != []
                 && s.relay.links[c].outbox[0].tag in {Relay.StreamChunk, Relay.StreamEnded, Relay.TerminalOutput,
                                                       Relay.TerminalClosed}
  {
  }

  /** A terminal's frame reaches its subscriber, if the send works, and nobody else ever. */
  lemma TerminalFrameIsPrivate(s: State, c: nat, meanwhile: seq<Step>, raises: bool, failed: set<Socket>, w: Socket)
    requires FrameAt(s, c).Some? && Unended(meanwhile, c)
    requires FrameAt(s, c).value.tag == Relay.TerminalOutput || FrameAt(s, c).value.tag == Relay.TerminalClosed
    ensures var frame, shown := FrameAt(s, c).value, Forwarded(s, c, meanwhile, raises, failed).shown;
            && shown != []
            && (w in shown[|shown| - 1].sockets <==> frame.id != "" && Gets(s.hub, w, frame.id) && !raises)
  {
    ForwardedTo(s, c, meanwhile, raises, failed, w);
  }

  // ----- No frame is lost or read out of turn -----

  /** The step takes a frame off connection `c`: its handler is idle and a frame is next. */
  predicate TakesFrame(s: State, step: Step) {
    step.Agent? && step.step.Deliver? && FrameAt(s, step.step.conn).Some?
  }

  function FramesTaken(s: State, steps: seq<Step>): nat
    decreases |steps|
  {
    if steps == [] then 0
    else (if TakesFrame(s, steps[0]) then 1 else 0) + FramesTaken(Next(s, steps[0]), steps[1..])
  }

  lemma SendEnded(s: State, c: nat, raises: bool, failed: set<Socket>)
    ensures |EndSend(s, c, raises, failed).shown| + |EndSend(s, c, raises, failed).sending| == |s.shown| + |s.sending|
  {
    if c in s.sending {
      assert s.sending == (s.sending - {c})[c := s.sending[c]];
    }
  }

  lemma FrameReceived(s: State, c: nat, failed: set<Socket>)
    ensures |Receive(s, c, failed).shown| + |Receive(s, c, failed).sending|
            == |s.shown| + |s.sending| + if FrameAt(s, c).Some? then 1 else 0
  {
  }

  lemma FrameStep(s: State, step: Step)
    ensures |Next(s, step).shown| + |Next(s, step).sending|
            == |s.shown| + |s.sending| + if TakesFrame(s, step) then 1 else 0
  {
    match step
    case SendEnds(c, raises, failed) => SendEnded(s, c, raises, failed);
    case Agent(relayed, failed) =>
      if relayed.Deliver? {
        FrameReceived(s, relayed.conn, failed);
      }
    case _ =>
  }

  /** Over any run, every frame taken off an agent's socket is settled exactly once or still being sent. */
  lemma {:induction false} FramesAreConserved(s: State, steps: seq<Step>)
    ensures var end := Exec(s, steps);
            |end.shown| + |end.sending| == |s.shown| + |s.sending| + FramesTaken(s, steps)
    decreases |steps|
  {
    if steps != [] {
      FrameStep(s, steps[0]);
      FramesAreConserved(Next(s, steps[0]), steps[1..]);
    }
  }

  /** While a send is under way its connection is not read, so a connection's frames are settled in their order. */
  lemma BusyHandlerWaits(s: State, c: nat, failed: set<Socket>)
    ensures c in s.sending ==> Next(s, Agent(Relay.Deliver(c), failed)) == s
    ensures c !in s.sending && c in s.relay.links && s.relay.links[c].outbox != [] ==>
              c in Next(s, Agent(Relay.Deliver(c), failed)).relay.links
              && Next(s, Agent(Relay.Deliver(c), failed)).relay.links[c].outbox == s.relay.links[c].outbox[1..]
  {
  }

  /** A broadcast leaves the watchers it reached, and no other. */
  lemma FailedWatchersDrop(s: State, c: nat, failed: set<Socket>)
    requires FrameAt(s, c).Some? && !HasSubscriber(s.hub, FrameAt(s, c).value)
    requires FrameAt(s, c).value.tag == Relay.StreamChunk || FrameAt(s, c).value.tag == Relay.StreamEnded
    ensures Watchers(Next(s, Agent(Relay.Deliver(c), failed)), c) == Watchers(s, c) - failed
  {
  }

  /** A browser socket that has closed gets no stream, and no broadcast of any server. */
  lemma ClosedBrowserGetsNothing(s: State, w: Socket, c: nat, id: string)
    requires Recorded(s.index) && StreamsRecorded(s.hub)
    ensures var t := Next(s, Browser(Closes(w)));
            && w !in Watchers(t, c) && !Gets(t.hub, w, id)
            && forall v :: v != w ==> (v in Watchers(t, c) <==> v in Watchers(s, c))
  {
    var t := Next(s, Browser(Closes(w)));
    CloseExact(s.hub, w, w, id);
    if c in s.servers {
      forall v ensures Receives(t.index, v, s.servers[c]) <==> Receives(s.index, v, s.servers[c]) && v != w {
        DisconnectExact(s.index, w, v, s.servers[c]);
      }
      assert forall v :: v in Watchers(t, c) <==> Receives(t.index, v, s.servers[c]);
      assert forall v :: v in Watchers(s, c) <==> Receives(s.index, v, s.servers[c]);
    }
    assert t.hub == ApplyStream(s.hub, Closes(w));
  }

  // ----- Ways to lose a stream, at work -----

  /** A later claim of the id gets the output of the earlier claimant's session. */
  lemma LaterClaimTakesOver(s: State, w: Socket, v: Socket, id: string, c: nat)
    requires v != w && id != "" && FrameAt(s, c).Some? && FrameAt(s, c).value.id == id
    ensures var both := Next(Next(s, Browser(Subscribe(w, id))), Browser(Subscribe(v, id)));
            var shown := Forwarded(both, c, [], false, {}).shown;
            shown == s.shown + [Shown(id, FrameAt(s, c).value.tag, {v})]
  {
    var both := Next(Next(s, Browser(Subscribe(w, id))), Browser(Subscribe(v, id)));
    var taken := Next(both, Agent(Relay.Deliver(c), {}));
    assert taken.sending[c] == Sending(FrameAt(s, c).value, v);
    assert Exec(taken, []) == taken;
  }

  /** The claim that is made while a send to the previous claimant fails is lost with it. */
  lemma LateFailureTakesNewClaim(s: State, w: Socket, v: Socket, id: string, c: nat, failed: set<Socket>)
    requires id != "" && FrameAt(s, c).Some? && FrameAt(s, c).value.id == id
    ensures var sending := Next(Next(s, Browser(Subscribe(w, id))), Agent(Relay.Deliver(c), {}));
            var claimed := Next(sending, Browser(Subscribe(v, id)));
            Gets(claimed.hub, v, id) && !Gets(Next(claimed, SendEnds(c, true, failed)).hub, v, id)
  {
  }

  /** A chunk of a stream whose claim was ended goes to every watcher of the server, the claimant or not. */
  lemma EndedStreamIsBroadcast(s: State, w: Socket, id: string, c: nat, failed: set<Socket>)
    requires id != "" && FrameAt(s, c).Some? && FrameAt(s, c).value.id == id
    requires FrameAt(s, c).value.tag == Relay.StreamChunk || FrameAt(s, c).value.tag == Relay.StreamEnded
    ensures var ended := Next(Next(s, Browser(Subscribe(w, id))), Browser(Unsubscribe(id)));
            Forwarded(ended, c, [], false, failed).shown
            == s.shown + [Shown(id, FrameAt(s, c).value.tag, Watchers(s, c) - failed)]
  {
  }

  /** An agent is connected for `server`. */
  function OneAgent(server: string): State {
    Next(Next(INIT, Agent(Relay.Connect, {})), Agent(Relay.Route(server, 0), {}))
  }

  /** Two browsers watch the server, and a chunk of stream `id` is on its way. */
  function TwoWatchers(server: string, w: Socket, v: Socket, id: string): State {
    var open := Next(Next(OneAgent(server), Browser(Opens(w))), Browser(Opens(v)));
    var watched := Next(Next(open, Watcher(Watch(w, server))), Watcher(Watch(v, server)));
    Next(watched, Agent(Relay.AgentNotice(0, id, "stream_chunk"), {}))
  }

  lemma OneAgentIs(server: string)
    ensures var s := OneAgent(server);
            && s.relay.links == map[0 := Relay.Link([], [])] && s.servers == map[0 := server]
            && s.index == Index(map[], map[]) && s.sending == map[] && s.shown == []
  {
  }

  lemma TwoWatchersAre(server: string, w: Socket, v: Socket, id: string)
    ensures var s := TwoWatchers(server, w, v, id);
            && FrameAt(s, 0) == Some(Relay.Notice(id, Relay.StreamChunk))
            && Watchers(s, 0) == {w, v} && s.shown == []
  {
    OneAgentIs(server);
  }

  lemma EndedIsTaken(s: State, w: Socket, id: string)
    ensures EverTaken(s, [Browser(Unsubscribe(id))], w, id)
    ensures Exec(s, [Browser(Unsubscribe(id))]) == Next(s, Browser(Unsubscribe(id)))
  {
    assert Exec(Next(s, Browser(Unsubscribe(id))), []) == Next(s, Browser(Unsubscribe(id)));
  }

  /** So a claimant can get its frame although its claim was taken, and another browser gets it too. */
  lemma TakenFrameStillReaches(server: string, w: Socket, v: Socket, id: string)
    requires id != "" && w != v
    ensures var claimed := Next(TwoWatchers(server, w, v, id), Browser(Subscribe(w, id)));
            var ended := Exec(claimed, [Browser(Unsubscribe(id))]);
            && EverTaken(claimed, [Browser(Unsubscribe(id))], w, id)
            && Forwarded(ended, 0, [], false, {}).shown == [Shown(id, Relay.StreamChunk, {w, v})]
  {
    var s := TwoWatchers(server, w, v, id);
    EndedIsTaken(Next(s, Browser(Subscribe(w, id))), w, id);
    TwoWatchersAre(server, w, v, id);
    EndedStreamIsBroadcast(s, w, id, 0, {});
    assert Watchers(s, 0) - {} == {w, v};
  }
}
