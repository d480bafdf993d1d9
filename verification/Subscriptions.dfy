/**
 The browser side of the relay: who watches which server or ticket, and who receives which
 stream.  Every subscription is kept twice, forwards (key to sockets) and backwards (socket
 to keys); failed sends remove from the forward side only, and a disconnect relies on the
 backward side to find what to remove.
 */
module Subscriptions {
  import opened Basics

  type Socket = nat

  // ----- Server and ticket watches -----

  /** `server_watchers` with `client_watches`, or `ticket_watchers` with `client_ticket_watches`. */
  datatype Index = Index(forward: map<string, set<Socket>>, backward: map<Socket, set<string>>)

  datatype Event =
    | Connect(socket: Socket)
    | Watch(socket: Socket, key: string)
    | Unwatch(socket: Socket, key: string)
    | SendsFailed(key: string, failed: set<Socket>)
    | Disconnect(socket: Socket)

  /** The cleanup loop: `socket` leaves each of `keys`, and a key nobody is left on is deleted. */
  function Leave(forward: map<string, set<Socket>>, socket: Socket, keys: set<string>): map<string, set<Socket>> {
    map k | k in forward && !(k in keys && forward[k] <= {socket}) ::
      if k in keys then forward[k] - {socket} else forward[k]
  }

  /** One turn of the loop. */
  lemma LeaveOneMore(forward: map<string, set<Socket>>, socket: Socket, done: set<string>, k: string)
    requires k !in done
    ensures var before, after := Leave(forward, socket, done), Leave(forward, socket, done + {k});
            after == if k !in before then before
                     else if before[k] - {socket} == {} then before - {k}
                     else before[k := before[k] - {socket}]
  {
  }

  /** A socket's own handler runs between its connect and its disconnect, so it finds its sets. */
  function Apply(x: Index, e: Event): Index {
    match e
    case Connect(w) => x.(backward := x.backward[w := {}])
    case Watch(w, k) =>
      if w in x.backward then
        Index(x.forward[k := (if k in x.forward then x.forward[k] else {}) + {w}], x.backward[w := x.backward[w] + {k}])
      else x
    case Unwatch(w, k) =>
      if w in x.backward && k in x.forward then
        Index(x.forward[k := x.forward[k] - {w}], x.backward[w := x.backward[w] - {k}])
      else x
    case SendsFailed(k, failed) =>
      if k in x.forward then x.(forward := x.forward[k := x.forward[k] - failed]) else x
    case Disconnect(w) =>
      if w in x.backward then Index(Leave(x.forward, w, x.backward[w]), x.backward - {w}) else x
  }

  function After(events: seq<Event>): Index {
    if events == [] then Index(map[], map[]) else Apply(After(events[..|events| - 1]), events[|events| - 1])
  }

  predicate Receives(x: Index, w: Socket, k: string) {
    k in x.forward && w in x.forward[k]
  }

  /** Each forward entry is recorded in its socket's backward set. */
  ghost predicate Recorded(x: Index) {
    forall k, w :: Receives(x, w, k) ==> w in x.backward && k in x.backward[w]
  }

  lemma RecordedStep(x: Index, e: Event)
    requires Recorded(x) && (e.Connect? ==> e.socket !in x.backward)
    ensures Recorded(Apply(x, e))
  {
    var y := Apply(x, e);
    forall k, w | Receives(y, w, k) ensures w in y.backward && k in y.backward[w] {
      assert Receives(x, w, k) || e == Watch(w, k);
    }
  }

  /** A disconnect leaves no trace of the socket and takes nothing from any other. */
  lemma DisconnectExact(x: Index, gone: Socket, w: Socket, k: string)
    requires Recorded(x)
    ensures Receives(Apply(x, Disconnect(gone)), w, k) <==> Receives(x, w, k) && w != gone
    ensures gone !in Apply(x, Disconnect(gone)).backward
  {
  }

  /** Nor does a disconnect leave a key behind that nobody watches any more. */
  lemma NoEmptyKeyLeft(x: Index, gone: Socket, k: string)
    requires gone in x.backward && k in x.backward[gone] && k in x.forward && x.forward[k] == {gone}
    ensures k !in Apply(x, Disconnect(gone)).forward
  {
  }

  /** The backward sets are what the socket watches: an unwatch and a disconnect clear them. */
  lemma BackwardFollows(x: Index, w: Socket, k: string)
    ensures w in x.backward && k in x.forward ==>
              w in Apply(x, Unwatch(w, k)).backward && Apply(x, Unwatch(w, k)).backward[w] == x.backward[w] - {k}
    ensures w in x.backward ==>
              w in Apply(x, Watch(w, k)).backward && Apply(x, Watch(w, k)).backward[w] == x.backward[w] + {k}
    ensures w !in Apply(x, Disconnect(w)).backward
  {
  }

  /** Sockets connect once, as each stands for one connection. */
  ghost predicate ConnectOnce(events: seq<Event>) {
    forall i, j :: 0 <= i < j < |events| && events[i].Connect? && events[j].Connect? ==>
      events[i].socket != events[j].socket
  }

  /** A socket is connected when it has connected and not disconnected since. */
  predicate Connected(events: seq<Event>, w: Socket) {
    events != [] &&
    var init, e := events[..|events| - 1], events[|events| - 1];
    e == Connect(w) || (e != Disconnect(w) && Connected(init, w))
  }

  /**
   What a subscription means, with no index at all: the latest event that concerns the socket
   and the key is its watch, and not an unwatch, a failed send to it, or its disconnect.
   */
  predicate Watching(events: seq<Event>, w: Socket, k: string) {
    events != [] &&
    var init, e := events[..|events| - 1], events[|events| - 1];
    if e == Watch(w, k) then Connected(init, w)
    else e != Unwatch(w, k) && e != Disconnect(w)
         && !(e.SendsFailed? && e.key == k && w in e.failed) && Watching(init, w, k)
  }

  lemma {:induction false} BackwardIsConnected(events: seq<Event>, w: Socket)
    ensures w in After(events).backward <==> Connected(events, w)
  {
    if events != [] {
      BackwardIsConnected(events[..|events| - 1], w);
      var e := events[|events| - 1];
      if e.Watch? || e.Unwatch? {
        BackwardIsConnected(events[..|events| - 1], e.socket);
      }
    }
  }

  lemma {:induction false} ConnectedHasConnected(events: seq<Event>, w: Socket)
    ensures Connected(events, w) ==> Connect(w) in events
  {
    if events != [] {
      ConnectedHasConnected(events[..|events| - 1], w);
    }
  }

  /** In every reachable state forward entries are recorded, whatever sends have failed. */
  lemma {:induction false} RecordedAlways(events: seq<Event>)
    requires ConnectOnce(events)
    ensures Recorded(After(events))
  {
    if events != [] {
      var init, e := events[..|events| - 1], events[|events| - 1];
      RecordedAlways(init);
      if e.Connect? {
        BackwardIsConnected(init, e.socket);
        ConnectedHasConnected(init, e.socket);
      }
      RecordedStep(After(init), e);
    }
  }

  /** The two-sided index implements the meaning above on every history. */
  lemma {:induction false} IndexIsWatching(events: seq<Event>, w: Socket, k: string)
    requires ConnectOnce(events)
    ensures Receives(After(events), w, k) <==> Watching(events, w, k)
  {
    if events != [] {
      var init, e := events[..|events| - 1], events[|events| - 1];
      IndexIsWatching(init, w, k);
      RecordedAlways(init);
      BackwardIsConnected(init, w);
      if e.Disconnect? {
        DisconnectExact(After(init), e.socket, w, k);
      }
    }
  }

  // ----- Stream subscriptions -----

  /** `stream_subscribers` with `client_streams`. */
  datatype Streams = Streams(subscriber: map<string, Socket>, owned: map<Socket, set<string>>)

  datatype StreamEvent =
    | Opens(socket: Socket)
    | Subscribe(socket: Socket, id: string)
    | Unsubscribe(id: string)
    | SendFailed(id: string)
    | Closes(socket: Socket)

  function Owned(x: Streams, w: Socket): set<string> {
    if w in x.owned then x.owned[w] else {}
  }

  function ApplyStream(x: Streams, e: StreamEvent): Streams {
    match e
    case Opens(w) => x.(owned := x.owned[w := {}])
    case Subscribe(w, id) => Streams(x.subscriber[id := w], x.owned[w := Owned(x, w) + {id}])
    case Unsubscribe(id) =>
      if id in x.subscriber then
        var w := x.subscriber[id];
        Streams(x.subscriber - {id}, if w in x.owned then x.owned[w := x.owned[w] - {id}] else x.owned)
      else x
    case SendFailed(id) => x.(subscriber := x.subscriber - {id})
    case Closes(w) => Streams(x.subscriber - Owned(x, w), x.owned - {w})
  }

  function AfterStream(events: seq<StreamEvent>): Streams {
    if events == [] then Streams(map[], map[])
    else ApplyStream(AfterStream(events[..|events| - 1]), events[|events| - 1])
  }

  predicate Gets(x: Streams, w: Socket, id: string) {
    id in x.subscriber && x.subscriber[id] == w
  }

  ghost predicate StreamsRecorded(x: Streams) {
    forall id :: id in x.subscriber ==> id in Owned(x, x.subscriber[id])
  }

  /** A socket subscribes only between its open and its close. */
  ghost predicate OpenOnce(events: seq<StreamEvent>) {
    forall i, j :: 0 <= i < j < |events| && events[j].Opens? ==>
      !(events[i].Subscribe? && events[i].socket == events[j].socket)
  }

  lemma {:induction false} OwnedWereSubscribed(events: seq<StreamEvent>, w: Socket)
    ensures forall id :: id in Owned(AfterStream(events), w) ==> Subscribe(w, id) in events
  {
    if events != [] {
      OwnedWereSubscribed(events[..|events| - 1], w);
    }
  }

  /** Every stream entry is recorded with the socket that gets the stream. */
  lemma {:induction false} StreamsRecordedAlways(events: seq<StreamEvent>)
    requires OpenOnce(events)
    ensures StreamsRecorded(AfterStream(events))
  {
    if events != [] {
      var init, e := events[..|events| - 1], events[|events| - 1];
      StreamsRecordedAlways(init);
      if e.Opens? {
        OwnedWereSubscribed(init, e.socket);
      }
    }
  }

  /** A close leaves no stream with the socket; another socket's stream survives unless its id was claimed here too. */
  lemma CloseExact(x: Streams, gone: Socket, w: Socket, id: string)
    requires StreamsRecorded(x)
    ensures Gets(ApplyStream(x, Closes(gone)), w, id) <==> Gets(x, w, id) && w != gone && id !in Owned(x, gone)
  {
  }

  /** Closing one socket spares every other socket's streams exactly when it claims no id that another gets. */
  lemma CloseSparesOthersIff(x: Streams, gone: Socket)
    requires StreamsRecorded(x)
    ensures (forall w, id :: w != gone && Gets(x, w, id) ==> Gets(ApplyStream(x, Closes(gone)), w, id))
            <==> (forall id :: id in Owned(x, gone) && id in x.subscriber ==> x.subscriber[id] == gone)
  {
    if forall w, id :: w != gone && Gets(x, w, id) ==> Gets(ApplyStream(x, Closes(gone)), w, id) {
      forall id | id in Owned(x, gone) && id in x.subscriber ensures x.subscriber[id] == gone {
        CloseExact(x, gone, x.subscriber[id], id);
        assert Gets(x, x.subscriber[id], id);
      }
    }
  }

  /** The records that a socket keeps of its streams: an unsubscribe takes one away, a failed send none, a close all. */
  lemma OwnedFollows(x: Streams, w: Socket, id: string)
    ensures id in Owned(ApplyStream(x, Subscribe(w, id)), w)
    ensures id in x.subscriber ==> id !in Owned(ApplyStream(x, Unsubscribe(id)), x.subscriber[id])
    ensures forall v :: Owned(ApplyStream(x, SendFailed(id)), v) == Owned(x, v)
    ensures Owned(ApplyStream(x, Closes(w)), w) == {}
    ensures forall v :: v != w ==> Owned(ApplyStream(x, Closes(w)), v) == Owned(x, v)
  {
  }

  predicate SameId(d: StreamEvent, e: StreamEvent) {
    d.Subscribe? && e.Subscribe? && d.id == e.id
  }

  /** No stream id is ever subscribed by two sockets. */
  ghost predicate IdsUnshared(events: seq<StreamEvent>) {
    forall i, j :: 0 <= i < j < |events| && SameId(events[i], events[j]) ==> events[i].socket == events[j].socket
  }

  /**
   Who a stream goes to, with no index: its last subscriber, until an unsubscribe, a failed
   send or that socket's close.
   */
  function Receiver(events: seq<StreamEvent>, id: string): Option<Socket> {
    if events == [] then None
    else
      var before := Receiver(events[..|events| - 1], id);
      match events[|events| - 1]
      case Subscribe(w, i) => if i == id then Some(w) else before
      case Unsubscribe(i) => if i == id then None else before
      case SendFailed(i) => if i == id then None else before
      case Closes(w) => if before == Some(w) then None else before
      case Opens(_) => before
  }

  /** With ids unshared, the two maps implement exactly that. */
  lemma {:induction false} StreamGoesToReceiver(events: seq<StreamEvent>, id: string)
    requires OpenOnce(events) && IdsUnshared(events)
    ensures Receiver(events, id) ==
            if id in AfterStream(events).subscriber then Some(AfterStream(events).subscriber[id]) else None
  {
    if events != [] {
      var init, e := events[..|events| - 1], events[|events| - 1];
      StreamGoesToReceiver(init, id);
      StreamsRecordedAlways(init);
      if e.Closes? && id in AfterStream(init).subscriber {
        var x := AfterStream(init);
        OwnedWereSubscribed(init, e.socket);
        OwnedWereSubscribed(init, x.subscriber[id]);
        CloseExact(x, e.socket, x.subscriber[id], id);
      }
    }
  }

  lemma OneMoreStreamEvent(events: seq<StreamEvent>, e: StreamEvent)
    ensures AfterStream(events + [e]) == ApplyStream(AfterStream(events), e)
    ensures e.Subscribe? ==> Receiver(events + [e], e.id) == Some(e.socket)
    ensures forall id :: e.Closes? && Receiver(events, id) != Some(e.socket) ==>
              Receiver(events + [e], id) == Receiver(events, id)
  {
    assert (events + [e])[..|events|] == events;
  }

  /** A shared id is enough to lose a stream: the first claimant's close cuts off the second. */
  lemma SharedStreamIsCutOff(first: Socket, second: Socket, id: string)
    requires first != second
    ensures var events := [Opens(first), Opens(second), Subscribe(first, id), Subscribe(second, id), Closes(first)];
            Receiver(events, id) == Some(second) && id !in AfterStream(events).subscriber
  {
    var events := [Opens(first), Opens(second), Subscribe(first, id), Subscribe(second, id), Closes(first)];
    var both := [Opens(first), Opens(second)];
    assert both == [Opens(first)] + [Opens(second)] && [Opens(first)] == [] + [Opens(first)];
    OneMoreStreamEvent([], Opens(first));
    OneMoreStreamEvent([Opens(first)], Opens(second));
    OneMoreStreamEvent(both, Subscribe(first, id));
    OneMoreStreamEvent(both + [Subscribe(first, id)], Subscribe(second, id));
    OneMoreStreamEvent(both + [Subscribe(first, id)] + [Subscribe(second, id)], Closes(first));
    assert events == both + [Subscribe(first, id)] + [Subscribe(second, id)] + [Closes(first)];
  }

  // ----- The module-level dictionaries -----

  class ClientHub {
    var serverWatchers: map<string, set<Socket>>
    var clientWatches: map<Socket, set<string>>
    var ticketWatchers: map<string, set<Socket>>
    var clientTicketWatches: map<Socket, set<string>>
    var streamSubscribers: map<string, Socket>
    var clientStreams: map<Socket, set<string>>

    ghost function Servers(): Index
      reads this
    {
      Index(serverWatchers, clientWatches)
    }

    ghost function Tickets(): Index
      reads this
    {
      Index(ticketWatchers, clientTicketWatches)
    }

    ghost function StreamMaps(): Streams
      reads this
    {
      Streams(streamSubscribers, clientStreams)
    }

    constructor ()
      ensures Servers() == Tickets() == Index(map[], map[]) && StreamMaps() == Streams(map[], map[])
    {
      serverWatchers, clientWatches := map[], map[];
      ticketWatchers, clientTicketWatches := map[], map[];
      streamSubscribers, clientStreams := map[], map[];
    }

    method Accept(ws: Socket)
      modifies this
      ensures Servers() == Apply(old(Servers()), Connect(ws))
      ensures Tickets() == Apply(old(Tickets()), Connect(ws))
      ensures StreamMaps() == ApplyStream(old(StreamMaps()), Opens(ws))
    {
      clientWatches := clientWatches[ws := {}];
      clientStreams := clientStreams[ws := {}];
      clientTicketWatches := clientTicketWatches[ws := {}];
    }

    method WatchServer(ws: Socket, id: string)
      requires ws in clientWatches
      modifies this`serverWatchers, this`clientWatches
      ensures Servers() == Apply(old(Servers()), Watch(ws, id))
    {
      if id !in serverWatchers {
        serverWatchers := serverWatchers[id := {}];
      }
      serverWatchers := serverWatchers[id := serverWatchers[id] + {ws}];
      clientWatches := clientWatches[ws := clientWatches[ws] + {id}];
    }

    method UnwatchServer(ws: Socket, id: string)
      requires ws in clientWatches
      modifies this`serverWatchers, this`clientWatches
      ensures Servers() == Apply(old(Servers()), Unwatch(ws, id))
    {
      if id in serverWatchers {
        serverWatchers := serverWatchers[id := serverWatchers[id] - {ws}];
        clientWatches := clientWatches[ws := clientWatches[ws] - {id}];
      }
    }

    method SubscribeTicket(ws: Socket, id: string)
      requires ws in clientTicketWatches
      modifies this`ticketWatchers, this`clientTicketWatches
      ensures Tickets() == Apply(old(Tickets()), Watch(ws, id))
    {
      if id !in ticketWatchers {
        ticketWatchers := ticketWatchers[id := {}];
      }
      ticketWatchers := ticketWatchers[id := ticketWatchers[id] + {ws}];
      clientTicketWatches := clientTicketWatches[ws := clientTicketWatches[ws] + {id}];
    }

    method UnsubscribeTicket(ws: Socket, id: string)
      requires ws in clientTicketWatches
      modifies this`ticketWatchers, this`clientTicketWatches
      ensures Tickets() == Apply(old(Tickets()), Unwatch(ws, id))
    {
      if id in ticketWatchers {
        ticketWatchers := ticketWatchers[id := ticketWatchers[id] - {ws}];
        clientTicketWatches := clientTicketWatches[ws := clientTicketWatches[ws] - {id}];
      }
    }

    /** The end of `forward_to_watchers`: sockets whose send raised are dropped, on this side only. */
    method DropFailedWatchers(id: string, failed: set<Socket>)
      modifies this`serverWatchers
      ensures Servers() == Apply(old(Servers()), SendsFailed(id, failed))
    {
      if id in serverWatchers {
        serverWatchers := serverWatchers[id := serverWatchers[id] - failed];
      }
    }

    /** The end of `forward_to_ticket_watchers`. */
    method DropFailedTicketWatchers(id: string, failed: set<Socket>)
      modifies this`ticketWatchers
      ensures Tickets() == Apply(old(Tickets()), SendsFailed(id, failed))
    {
      if id in ticketWatchers {
        ticketWatchers := ticketWatchers[id := ticketWatchers[id] - failed];
      }
    }

    /** `forward_to_stream` up to its await: whom to send to, if anybody. */
    method ForwardToStream(id: string) returns (target: Option<Socket>)
      ensures target.Some? <==> id in StreamMaps().subscriber
      ensures target.Some? ==> Gets(StreamMaps(), target.value, id)
    {
      target := if id in streamSubscribers then Some(streamSubscribers[id]) else None;
    }

    /** And after it, if the send raised: whoever has the id by now loses it. */
    method ForwardFailed(id: string)
      modifies this`streamSubscribers
      ensures StreamMaps() == ApplyStream(old(StreamMaps()), SendFailed(id))
    {
      streamSubscribers := streamSubscribers - {id};
    }

    method SubscribeStream(ws: Socket, id: string)
      modifies this`streamSubscribers, this`clientStreams
      ensures StreamMaps() == ApplyStream(old(StreamMaps()), Subscribe(ws, id))
    {
      streamSubscribers := streamSubscribers[id := ws];
      if ws !in clientStreams {
        clientStreams := clientStreams[ws := {}];
      }
      clientStreams := clientStreams[ws := clientStreams[ws] + {id}];
    }

    method UnsubscribeStream(id: string)
      modifies this`streamSubscribers, this`clientStreams
      ensures StreamMaps() == ApplyStream(old(StreamMaps()), Unsubscribe(id))
    {
      if id in streamSubscribers {
        var ws := streamSubscribers[id];
        streamSubscribers := streamSubscribers - {id};
        if ws in clientStreams {
          clientStreams := clientStreams[ws := clientStreams[ws] - {id}];
        }
      }
    }

    /** One cleanup loop for watchers: visit the recorded keys in any order. */
    static method LeaveAll(forward: map<string, set<Socket>>, ws: Socket, keys: set<string>)
      returns (left: map<string, set<Socket>>)
      ensures left == Leave(forward, ws, keys)
    {
      left := forward;
      var todo := keys;
      ghost var done := {};
      while todo != {}
        invariant done !! todo && done + todo == keys
        invariant left == Leave(forward, ws, done)
        decreases |todo|
      {
        var k :| k in todo;
        LeaveOneMore(forward, ws, done, k);
        left := LeaveKey(left, ws, k);
        todo, done := todo - {k}, done + {k};
      }
      assert done == keys;
    }

    static method LeaveKey(forward: map<string, set<Socket>>, ws: Socket, k: string)
      returns (left: map<string, set<Socket>>)
      ensures left == if k !in forward then forward
                      else if forward[k] - {ws} == {} then forward - {k}
                      else forward[k := forward[k] - {ws}]
    {
      left := forward;
      if k in left {
        left := left[k := left[k] - {ws}];
        if left[k] == {} {
          left := left - {k};
        }
      }
    }

    /** The cleanup loop for streams: whoever gets a recorded id loses it. */
    static method PopAll(subscribers: map<string, Socket>, ids: set<string>) returns (left: map<string, Socket>)
      ensures left == subscribers - ids
    {
      left := subscribers;
      var todo := ids;
      while todo != {}
        invariant todo <= ids
        invariant left == subscribers - (ids - todo)
        decreases |todo|
      {
        var id :| id in todo;
        todo := todo - {id};
        left := left - {id};
      }
      assert ids - todo == ids;
    }

    /** The `finally` block of `client_websocket`. */
    method CleanUp(ws: Socket)
      modifies this
      ensures Servers() == Apply(old(Servers()), Disconnect(ws))
      ensures Tickets() == Apply(old(Tickets()), Disconnect(ws))
      ensures StreamMaps() == ApplyStream(old(StreamMaps()), Closes(ws))
    {
      if ws in clientWatches {
        serverWatchers := LeaveAll(serverWatchers, ws, clientWatches[ws]);
        clientWatches := clientWatches - {ws};
      }
      if ws in clientTicketWatches {
        ticketWatchers := LeaveAll(ticketWatchers, ws, clientTicketWatches[ws]);
        clientTicketWatches := clientTicketWatches - {ws};
      }
      if ws in clientStreams {
        streamSubscribers := PopAll(streamSubscribers, clientStreams[ws]);
        clientStreams := clientStreams - {ws};
      }
    }
  }
}
