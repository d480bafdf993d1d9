/**
 The agent side of the relay: the `_listen` dispatcher, `_handle_terminal`, the stream tasks,
 and the `active_streams` and `terminal_sessions` maps.

 `Dispatch` says what one message does to the maps and which replies it sends; the method
 `AgentConnection.OnMessage` makes exactly that transition.
 */
module AgentConnections {
  import opened Basics
  import Relay
  import Terminal

  /**
   What the command handler, or the code around it, does with a message.  `alone`: the process
   that the connection starts is the only one to hold the stream's output, its shell having
   replaced itself with the command.  A pipeline, or a shell that always forks, leaves others.
   */
  datatype Handled =
    | Streams(alone: bool)
    | Returns(typed: Option<string>, error: bool)
    | Raises

  /**
   A window dimension as the message gives it.  `Whole` is an integer; `Text` is a text or a
   fraction that `int()` turns into `n`; `int()` raises a `ValueError` or `TypeError` on
   `Unreadable` and an `OverflowError`, which is neither, on `Infinite`.
   */
  datatype Size = Absent | Whole(n: int) | Text(n: int) | Unreadable | Infinite

  /**
   `params` as far as the dispatcher reads it.  `data`: the input, if it is text that UTF-8
   can encode.  `Malformed` is anything the dispatcher's accesses raise on.
   */
  datatype Params =
    | Params(sessionId: string, streamId: string, rows: Size, cols: Size, data: Option<string>)
    | Malformed

  datatype Incoming = Incoming(id: string, action: string, params: Params)

  /** `typed` is the `type` field of the reply: a handler's own result can bring one along. */
  datatype Reply = Reply(id: string, typed: Option<string>, success: bool)

  /** A forked shell and the session id it was opened under. */
  datatype Pty = Pty(key: string, session: Terminal.Session)

  /** A stream task is started by its request, runs once its process does, and is over at its `finally`. */
  datatype Phase = Booting | Running | Over

  datatype Stream = Stream(id: string, alone: bool, phase: Phase, killed: bool)

  /** The two maps, with every stream task and every shell there has been. */
  datatype State = State(streams: map<string, nat>, tasks: seq<Stream>, sessions: map<string, nat>, ptys: seq<Pty>)

  const INIT := State(map[], [], map[], [])

  predicate IsTerminal(action: string) {
    "terminal." <= action
  }

  /** `params.get("session_id") or cmd_id`. */
  function SessionKey(m: Incoming): string
    requires m.params.Params?
  {
    if m.params.sessionId != "" then m.params.sessionId else m.id
  }

  /** `struct.pack("HHHH", ...)` takes the value as it came; the defaults fit. */
  predicate Packs(size: Size) {
    size.Absent? || (size.Whole? && 0 <= size.n <= 65535)
  }

  /** `int()` is applied to the rows and then to the columns; only an infinite size raises past the handler. */
  predicate ReadingRaises(rows: Size, cols: Size) {
    rows.Infinite? || (!rows.Unreadable? && cols.Infinite?)
  }

  /** Both sizes can be read and one does not fit: packing them raises. */
  predicate PackingRaises(rows: Size, cols: Size) {
    && !rows.Unreadable? && !rows.Infinite? && !cols.Unreadable? && !cols.Infinite?
    && !((rows.Absent? || 0 <= rows.n <= 65535) && (cols.Absent? || 0 <= cols.n <= 65535))
  }

  /** The message finds a registered session that still has its descriptor. */
  predicate FindsOpen(s: State, m: Incoming)
    requires m.params.Params?
  {
    SessionKey(m) in s.sessions && s.sessions[SessionKey(m)] < |s.ptys| &&
    s.ptys[s.sessions[SessionKey(m)]].session.hasFd
  }

  /** The dispatcher's own handling of the message can raise. */
  predicate CanRaise(m: Incoming) {
    || m.params.Malformed?
    || (m.action == "terminal.input" && m.params.data == None)
    || (m.action == "terminal.resize"
        && (ReadingRaises(m.params.rows, m.params.cols) || PackingRaises(m.params.rows, m.params.cols)))
  }

  /** It does raise: sizes are read for any registered session, writing and packing are for one that is open. */
  predicate Raised(s: State, m: Incoming) {
    && CanRaise(m)
    && (|| m.params.Malformed?
        || FindsOpen(s, m)
        || (SessionKey(m) in s.sessions && m.action == "terminal.resize"
            && ReadingRaises(m.params.rows, m.params.cols)))
  }

  /** The error reply of `_listen`'s handler, sent only for a message that has an id. */
  function OnError(m: Incoming): seq<Reply> {
    if m.id != "" then [Reply(m.id, None, false)] else []
  }

  /** What the connection itself does to a session: `write` and `close`. */
  function OnSession(ptys: seq<Pty>, k: nat, step: Terminal.Step): seq<Pty> {
    if k < |ptys| then ptys[k := ptys[k].(session := Terminal.Next(ptys[k].session, step))] else ptys
  }

  /** The `terminal.*` branch.  A shell whose window size does not pack is forked and then forgotten. */
  function Terminals(s: State, m: Incoming, forks: bool): (State, seq<Reply>) {
    if m.params.Malformed? then (s, OnError(m))
    else
      var key := SessionKey(m);
      if m.action == "terminal.open" then
        if key in s.sessions then (s, [Reply(m.id, None, true)])
        else if !forks then (s, [Reply(m.id, None, false)])
        else if Packs(m.params.rows) && Packs(m.params.cols) then
          (s.(sessions := s.sessions[key := |s.ptys|], ptys := s.ptys + [Pty(key, Terminal.STARTED)]),
           [Reply(m.id, None, true)])
        else (s.(ptys := s.ptys + [Pty(key, Terminal.FORKED)]), [Reply(m.id, None, false)])
      else if m.action == "terminal.input" then
        if Raised(s, m) then (s, OnError(m))
        else if key in s.sessions && m.params.data.Some? then
          (s.(ptys := OnSession(s.ptys, s.sessions[key], Terminal.Write(m.params.data.value))), [])
        else (s, [])
      else if m.action == "terminal.resize" then
        (s, if Raised(s, m) then OnError(m) else [])
      else if m.action == "terminal.close" then
        (if key in s.sessions then
           s.(sessions := s.sessions - {key}, ptys := OnSession(s.ptys, s.sessions[key], Terminal.CloseCalled))
         else s,
         if m.id != "" then [Reply(m.id, None, true)] else [])
      else (s, OnError(m))
  }

  /** `logs.stop_stream`: the registered process, if any, is unregistered and killed. */
  function Stopped(s: State, id: string): State {
    s.(streams := s.streams - {id},
       tasks := if id in s.streams && s.streams[id] < |s.tasks| then
                  s.tasks[s.streams[id] := s.tasks[s.streams[id]].(killed := true)]
                else s.tasks)
  }

  function Dispatch(s: State, m: Incoming, handled: Handled, forks: bool): (State, seq<Reply>) {
    if m.action == "" then (s, [])
    else if m.action == "logs.stop_stream" then
      if m.params.Malformed? then (s, OnError(m)) else (Stopped(s, m.params.streamId), [Reply(m.id, None, true)])
    else if IsTerminal(m.action) then Terminals(s, m, forks)
    else
      match handled
      case Streams(alone) => (s.(tasks := s.tasks + [Stream(m.id, alone, Booting, false)]), [Reply(m.id, None, true)])
      case Returns(typed, error) => (s, [Reply(m.id, typed, !error)])
      case Raises => (s, OnError(m))
  }

  /**
   Each identified command is answered exactly once, under its own id, except that input and
   resize stay quiet unless they raise, and a command without an action is never answered.
   */
  lemma AnswersOnce(s: State, m: Incoming, handled: Handled, forks: bool)
    requires m.id != ""
    ensures var sent := Dispatch(s, m, handled, forks).1;
            && |sent| == (if Relay.Answered(Relay.Request(m.action, CanRaise(m)), Raised(s, m)) then 1 else 0)
            && (forall r :: r in sent ==> r.id == m.id)
  {
    assert IsTerminal("terminal.input") && IsTerminal("terminal.resize");
  }

  /** Only a handler's own result can give a reply a type, and so keep it from the command bridge. */
  lemma TypedOnlyByHandler(s: State, m: Incoming, handled: Handled, forks: bool, r: Reply)
    requires r in Dispatch(s, m, handled, forks).1 && r.typed.Some?
    ensures handled == Returns(r.typed, !r.success) && !IsTerminal(m.action) && m.action != "logs.stop_stream"
  {
  }

  // ----- Runs: messages interleaved with the steps of the streams' and sessions' own tasks -----

  datatype Step =
    | Message(m: Incoming, handled: Handled, forks: bool)
    | StreamSpawned(k: nat)
    | StreamEnds(k: nat)
    | SessionStep(k: nat, step: Terminal.Step)

  /** The steps of a session's own tasks; `write` and `close` come from messages only. */
  predicate OwnStep(step: Terminal.Step) {
    !step.CloseCalled? && !step.Write?
  }

  function Next(s: State, step: Step): State {
    match step
    case Message(m, handled, forks) => Dispatch(s, m, handled, forks).0
    case StreamSpawned(k) =>
      if k < |s.tasks| && s.tasks[k].phase.Booting? then
        s.(tasks := s.tasks[k := s.tasks[k].(phase := Running)], streams := s.streams[s.tasks[k].id := k])
      else s
    case StreamEnds(k) =>
      if k < |s.tasks| && !s.tasks[k].phase.Over? then
        s.(tasks := s.tasks[k := s.tasks[k].(phase := Over)], streams := s.streams - {s.tasks[k].id})
      else s
    case SessionStep(k, step) =>
      if OwnStep(step) then s.(ptys := OnSession(s.ptys, k, step)) else s
  }

  function Exec(s: State, steps: seq<Step>): State
    decreases |steps|
  {
    if steps == [] then s else Exec(Next(s, steps[0]), steps[1..])
  }

  /** `start` raised after the fork: there is a shell, and no task that reads from it. */
  predicate Orphan(p: Pty) {
    p.session.reader.Unstarted?
  }

  ghost predicate PtyOk(s: State, k: nat)
    requires k < |s.ptys|
  {
    && Terminal.Inv(s.ptys[k].session)
    && (Orphan(s.ptys[k]) ==> !s.ptys[k].session.closed)
    && (!Orphan(s.ptys[k]) && !s.ptys[k].session.closed ==>
          s.ptys[k].key in s.sessions && s.sessions[s.ptys[k].key] == k)
  }

  /** A registered process is running and has not been killed, nor has one that is being started. */
  ghost predicate StreamsOk(s: State) {
    && (forall id :: id in s.streams ==>
          && s.streams[id] < |s.tasks|
          && s.tasks[s.streams[id]] == Stream(id, s.tasks[s.streams[id]].alone, Running, false))
    && (forall k :: 0 <= k < |s.tasks| && s.tasks[k].phase.Booting? ==> !s.tasks[k].killed)
  }

  /** A registered session is its own and no orphan; a live shell is registered, or an orphan for good. */
  ghost predicate Inv(s: State) {
    && (forall key :: key in s.sessions ==>
          s.sessions[key] < |s.ptys| && s.ptys[s.sessions[key]].key == key && !Orphan(s.ptys[s.sessions[key]]))
    && (forall k :: 0 <= k < |s.ptys| ==> PtyOk(s, k))
    && StreamsOk(s)
  }

  lemma InvSession(s: State, k: nat, step: Terminal.Step)
    requires Inv(s) && k < |s.ptys| && !step.CloseCalled?
    ensures Inv(s.(ptys := OnSession(s.ptys, k, step)))
  {
    var t := s.(ptys := OnSession(s.ptys, k, step));
    assert PtyOk(s, k);
    Terminal.InvStep(s.ptys[k].session, step);
    forall j | 0 <= j < |t.ptys| ensures PtyOk(t, j) {
      assert PtyOk(s, j);
    }
  }

  lemma InvClose(s: State, key: string)
    requires Inv(s) && key in s.sessions
    ensures Inv(s.(sessions := s.sessions - {key}, ptys := OnSession(s.ptys, s.sessions[key], Terminal.CloseCalled)))
  {
    var k := s.sessions[key];
    var t := s.(sessions := s.sessions - {key}, ptys := OnSession(s.ptys, k, Terminal.CloseCalled));
    assert PtyOk(s, k);
    Terminal.InvStep(s.ptys[k].session, Terminal.CloseCalled);
    forall j | 0 <= j < |t.ptys| ensures PtyOk(t, j) {
      assert PtyOk(s, j);
    }
  }

  lemma InvOpen(s: State, key: string)
    requires Inv(s) && key !in s.sessions
    ensures Inv(s.(sessions := s.sessions[key := |s.ptys|], ptys := s.ptys + [Pty(key, Terminal.STARTED)]))
    ensures Inv(s.(ptys := s.ptys + [Pty(key, Terminal.FORKED)]))
  {
    var t := s.(sessions := s.sessions[key := |s.ptys|], ptys := s.ptys + [Pty(key, Terminal.STARTED)]);
    var u := s.(ptys := s.ptys + [Pty(key, Terminal.FORKED)]);
    forall j | 0 <= j <= |s.ptys| ensures PtyOk(t, j) && PtyOk(u, j) {
      if j < |s.ptys| {
        assert PtyOk(s, j);
      }
    }
  }

  lemma InvTerminals(s: State, m: Incoming, forks: bool)
    requires Inv(s)
    ensures Inv(Terminals(s, m, forks).0)
  {
    if m.params.Params? {
      var key := SessionKey(m);
      if key in s.sessions {
        if m.params.data.Some? {
          InvSession(s, s.sessions[key], Terminal.Write(m.params.data.value));
        }
        InvClose(s, key);
      } else {
        InvOpen(s, key);
      }
    }
  }

  /** A step of a stream, or a message that is not about terminals, touches no session. */
  lemma InvStreams(s: State, t: State)
    requires Inv(s) && StreamsOk(t) && t.ptys == s.ptys && t.sessions == s.sessions
    ensures Inv(t)
  {
    forall j | 0 <= j < |t.ptys| ensures PtyOk(t, j) {
      assert PtyOk(s, j);
    }
  }

  lemma InvMessage(s: State, m: Incoming, handled: Handled, forks: bool)
    requires Inv(s)
    ensures Inv(Dispatch(s, m, handled, forks).0)
  {
    if m.action != "" && m.action != "logs.stop_stream" && IsTerminal(m.action) {
      InvTerminals(s, m, forks);
    } else {
      InvStreams(s, Dispatch(s, m, handled, forks).0);
    }
  }

  lemma InvStep(s: State, step: Step)
    requires Inv(s)
    ensures Inv(Next(s, step))
  {
    match step
    case Message(m, handled, forks) => InvMessage(s, m, handled, forks);
    case SessionStep(k, step) =>
      if k < |s.ptys| && OwnStep(step) {
        InvSession(s, k, step);
      }
    case _ => InvStreams(s, Next(s, step));
  }

  // ----- What one message does, in terms of what it says -----

  /** The message names session `k`: by its `session_id`, or by its own id if that is empty. */
  predicate Names(m: Incoming, k: string) {
    m.params.Params? && ((k != "" && m.params.sessionId == k) || (m.params.sessionId == "" && m.id == k))
  }

  /**
   An open registers a fresh shell under the name it gives, unless that is taken, the fork
   fails or a size does not fit.
   */
  lemma OpenRegisters(s: State, m: Incoming, handled: Handled, forks: bool, k: string)
    requires m.action == "terminal.open" && m.params.Params?
    requires (k != "" && m.params.sessionId == k) || (m.params.sessionId == "" && m.id == k)
    ensures var fits := (m.params.rows.Absent? || (m.params.rows.Whole? && 0 <= m.params.rows.n <= 65535))
                        && (m.params.cols.Absent? || (m.params.cols.Whole? && 0 <= m.params.cols.n <= 65535));
            var (t, sent) := Dispatch(s, m, handled, forks);
            && (k in s.sessions ==> t == s && sent == [Reply(m.id, None, true)])
            && (k !in s.sessions && forks && fits ==>
                  && t.sessions == s.sessions[k := |s.ptys|] && t.ptys == s.ptys + [Pty(k, Terminal.STARTED)]
                  && t.streams == s.streams && t.tasks == s.tasks && sent == [Reply(m.id, None, true)])
            && (k !in s.sessions && !(forks && fits) ==> t.sessions == s.sessions && sent == [Reply(m.id, None, false)])
            && (k !in s.sessions && !forks ==> t == s)
  {
    assert IsTerminal("terminal.open");
  }

  /** A close ends the session it names and unregisters it, whatever id it bears, and touches no other. */
  lemma CloseUnregisters(s: State, m: Incoming, handled: Handled, forks: bool, k: string)
    requires Inv(s) && m.action == "terminal.close" && m.params.Params?
    requires (k != "" && m.params.sessionId == k) || (m.params.sessionId == "" && m.id == k)
    ensures var (t, sent) := Dispatch(s, m, handled, forks);
            && sent == (if m.id != "" then [Reply(m.id, None, true)] else [])
            && (k !in s.sessions ==> t == s)
            && (k in s.sessions ==>
                  && t.sessions == s.sessions - {k} && |t.ptys| == |s.ptys|
                  && t.ptys[s.sessions[k]].session.closed && !t.ptys[s.sessions[k]].session.fdOpen
                  && (forall j :: 0 <= j < |s.ptys| && j != s.sessions[k] ==> t.ptys[j] == s.ptys[j]))
  {
    assert IsTerminal("terminal.close");
    if k in s.sessions {
      assert PtyOk(s, s.sessions[k]);
      InvStep(s, Message(m, handled, forks));
    }
  }

  /** An input is written to the shell it names, as long as that is open, and to no other. */
  lemma InputReaches(s: State, m: Incoming, handled: Handled, forks: bool, k: string)
    requires Inv(s) && m.action == "terminal.input" && m.params.Params?
    requires (k != "" && m.params.sessionId == k) || (m.params.sessionId == "" && m.id == k)
    ensures var (t, sent) := Dispatch(s, m, handled, forks);
            var open := k in s.sessions && !s.ptys[s.sessions[k]].session.closed;
            && (open && m.params.data.Some? ==>
                  && sent == [] && t == s.(ptys := t.ptys) && |t.ptys| == |s.ptys|
                  && t.ptys[s.sessions[k]].session.written
                     == s.ptys[s.sessions[k]].session.written + [m.params.data.value]
                  && (forall j :: 0 <= j < |s.ptys| && j != s.sessions[k] ==> t.ptys[j] == s.ptys[j]))
            && (!(open && m.params.data.Some?) ==> t == s)
            && (open && m.params.data == None ==> sent == if m.id != "" then [Reply(m.id, None, false)] else [])
            && (!open ==> sent == [])
  {
    assert IsTerminal("terminal.input");
    if k in s.sessions {
      assert PtyOk(s, s.sessions[k]);
    }
  }

  /**
   A resize is quiet unless it raises: for a registered session on an infinite size, unless it
   is the columns' and the rows cannot be read; for an open one on readable sizes out of range.
   */
  lemma ResizeAnswers(s: State, m: Incoming, handled: Handled, forks: bool, k: string)
    requires Inv(s) && m.action == "terminal.resize" && m.params.Params?
    requires (k != "" && m.params.sessionId == k) || (m.params.sessionId == "" && m.id == k)
    ensures var (t, sent) := Dispatch(s, m, handled, forks);
            var rows, cols := m.params.rows, m.params.cols;
            var tooBig := ((rows.Whole? || rows.Text?) && !(0 <= rows.n <= 65535))
                          || ((cols.Whole? || cols.Text?) && !(0 <= cols.n <= 65535));
            var raises := k in s.sessions && !rows.Unreadable?
                          && (rows.Infinite? || cols.Infinite?
                              || (!cols.Unreadable? && tooBig && !s.ptys[s.sessions[k]].session.closed));
            t == s && sent == if raises && m.id != "" then [Reply(m.id, None, false)] else []
  {
    assert IsTerminal("terminal.resize");
    if k in s.sessions {
      assert PtyOk(s, s.sessions[k]);
    }
  }

  /** An input or a resize can raise exactly if there is a state in which it is answered. */
  lemma CanRaiseIff(m: Incoming)
    requires m.id != "" && m.params.Params? && (m.action == "terminal.input" || m.action == "terminal.resize")
    ensures CanRaise(m) <==> exists s :: Inv(s) && Dispatch(s, m, Raises, false).1 != []
  {
    var k := if m.params.sessionId != "" then m.params.sessionId else m.id;
    var s := State(map[], [], map[k := 0], [Pty(k, Terminal.STARTED)]);
    assert Inv(s) by {
      assert PtyOk(s, 0);
    }
    if m.action == "terminal.input" {
      InputReaches(s, m, Raises, false, k);
      forall t | Inv(t) && Dispatch(t, m, Raises, false).1 != [] ensures CanRaise(m) {
        InputReaches(t, m, Raises, false, k);
      }
    } else {
      ResizeAnswers(s, m, Raises, false, k);
      forall t | Inv(t) && Dispatch(t, m, Raises, false).1 != [] ensures CanRaise(m) {
        ResizeAnswers(t, m, Raises, false, k);
      }
    }
  }

  /** Everything else: what the command handler says goes out under the message's id, and an error otherwise. */
  lemma OtherAnswers(s: State, m: Incoming, handled: Handled, forks: bool)
    requires m.action != "" && m.action != "logs.stop_stream"
    ensures var (t, sent) := Dispatch(s, m, handled, forks);
            var error := if m.id != "" then [Reply(m.id, None, false)] else [];
            && (("terminal." <= m.action && m.action != "terminal.open" && m.action != "terminal.input"
                 && m.action != "terminal.resize" && m.action != "terminal.close")
                ==> t == s && sent == error)
            && ("terminal." <= m.action && m.params.Malformed? ==> t == s && sent == error)
            && (!("terminal." <= m.action) ==>
                  && (handled.Returns? ==> t == s && sent == [Reply(m.id, handled.typed, !handled.error)])
                  && (handled.Raises? ==> t == s && sent == error)
                  && (handled.Streams? ==>
                        t == s.(tasks := s.tasks + [Stream(m.id, handled.alone, Booting, false)])
                        && sent == [Reply(m.id, None, true)]))
  {
  }

  predicate NoCloseOf(steps: seq<Step>, k: string) {
    forall i :: 0 <= i < |steps| ==>
      !(steps[i].Message? && steps[i].m.action == "terminal.close" && Names(steps[i].m, k))
  }

  lemma StaysRegisteredStep(s: State, step: Step, k: string)
    requires Inv(s) && k in s.sessions
    requires !(step.Message? && step.m.action == "terminal.close" && Names(step.m, k))
    ensures k in Next(s, step).sessions && Next(s, step).sessions[k] == s.sessions[k]
  {
    if step.Message? && step.m.params.Params? {
      assert SessionKey(step.m) == k ==> Names(step.m, k);
    }
  }

  lemma {:induction false} StaysRegistered(s: State, steps: seq<Step>, k: string)
    requires Inv(s) && k in s.sessions && NoCloseOf(steps, k)
    ensures Inv(Exec(s, steps)) && k in Exec(s, steps).sessions && Exec(s, steps).sessions[k] == s.sessions[k]
    decreases |steps|
  {
    if steps != [] {
      assert !(steps[0].Message? && steps[0].m.action == "terminal.close" && Names(steps[0].m, k));
      InvStep(s, steps[0]);
      StaysRegisteredStep(s, steps[0], k);
      StaysRegistered(Next(s, steps[0]), steps[1..], k);
    }
  }

  /**
   A session from its open to its close, each under a message id of its own: whatever happens
   in between, short of a close of that name, the shell that the open started is the one that
   the close ends.
   */
  lemma CloseEndsWhatOpenStarted(s: State, open: Incoming, between: seq<Step>, close: Incoming, k: string)
    requires Inv(s) && k != "" && k !in s.sessions && NoCloseOf(between, k)
    requires open.action == "terminal.open" && open.params.Params? && open.params.sessionId == k
    requires open.params.rows.Absent? && open.params.cols.Absent?
    requires close.action == "terminal.close" && close.params.Params? && close.params.sessionId == k
    ensures var started := Next(s, Message(open, Raises, true));
            var end := Next(Exec(started, between), Message(close, Raises, false));
            && k in started.sessions && started.sessions[k] == |s.ptys| < |started.ptys|
            && k !in end.sessions && |s.ptys| < |end.ptys|
            && end.ptys[|s.ptys|].session.closed && !end.ptys[|s.ptys|].session.fdOpen
  {
    var started := Next(s, Message(open, Raises, true));
    InvStep(s, Message(open, Raises, true));
    OpenRegisters(s, open, Raises, true, k);
    StaysRegistered(started, between, k);
    CloseUnregisters(Exec(started, between), close, Raises, false, k);
  }

  /** The step's input, if it is one that names `k` while its shell is open. */
  function InputOf(s: State, step: Step, k: string): seq<string> {
    if step.Message? && step.m.action == "terminal.input" && Names(step.m, k) && step.m.params.data.Some?
       && k in s.sessions && s.sessions[k] < |s.ptys| && !s.ptys[s.sessions[k]].session.closed
    then [step.m.params.data.value] else []
  }

  /** The inputs of the run, in order. */
  function InputsTo(s: State, steps: seq<Step>, k: string): seq<string>
    decreases |steps|
  {
    if steps == [] then [] else InputOf(s, steps[0], k) + InputsTo(Next(s, steps[0]), steps[1..], k)
  }

  lemma PtysUntouched(s: State, m: Incoming, handled: Handled, forks: bool)
    requires m.params.Params? ==>
               m.action != "terminal.open" && m.action != "terminal.input" && m.action != "terminal.close"
    ensures Dispatch(s, m, handled, forks).0.ptys == s.ptys
  {
  }

  lemma OthersDoNotWrite(s: State, step: Step, k: string)
    requires Inv(s) && k in s.sessions
    requires !(step.Message? && step.m.action == "terminal.input" && step.m.params.Params?)
    requires !(step.Message? && step.m.action == "terminal.close" && Names(step.m, k))
    ensures s.sessions[k] < |Next(s, step).ptys|
    ensures Next(s, step).ptys[s.sessions[k]].session.written == s.ptys[s.sessions[k]].session.written
  {
    match step
    case Message(m, handled, forks) =>
      if m.action == "terminal.open" && m.params.Params? {
        OpenRegisters(s, m, handled, forks, SessionKey(m));
      } else if m.action == "terminal.close" && m.params.Params? {
        CloseUnregisters(s, m, handled, forks, SessionKey(m));
      } else {
        PtysUntouched(s, m, handled, forks);
      }
    case _ =>
  }

  lemma WrittenStep(s: State, step: Step, k: string)
    requires Inv(s) && k in s.sessions
    requires !(step.Message? && step.m.action == "terminal.close" && Names(step.m, k))
    ensures s.sessions[k] < |Next(s, step).ptys|
    ensures Next(s, step).ptys[s.sessions[k]].session.written
            == s.ptys[s.sessions[k]].session.written + InputOf(s, step, k)
  {
    if step.Message? && step.m.action == "terminal.input" && step.m.params.Params? {
      assert SessionKey(step.m) == k <==> Names(step.m, k);
      InputReaches(s, step.m, step.handled, step.forks, SessionKey(step.m));
    } else {
      OthersDoNotWrite(s, step, k);
    }
  }

  lemma Regroup(a: seq<string>, b: seq<string>, c: seq<string>)
    ensures a + b + c == a + (b + c)
  {
  }

  /** Over any run without a close of it, what reached a session's shell is what was typed into it, in order. */
  lemma {:induction false} WrittenIsTyped(s: State, steps: seq<Step>, k: string)
    requires Inv(s) && k in s.sessions && NoCloseOf(steps, k)
    ensures var end := Exec(s, steps);
            && k in end.sessions && end.sessions[k] == s.sessions[k] < |end.ptys|
            && end.ptys[s.sessions[k]].session.written == s.ptys[s.sessions[k]].session.written + InputsTo(s, steps, k)
    decreases |steps|
  {
    if steps != [] {
      assert !(steps[0].Message? && steps[0].m.action == "terminal.close" && Names(steps[0].m, k));
      InvStep(s, steps[0]);
      StaysRegisteredStep(s, steps[0], k);
      WrittenStep(s, steps[0], k);
      WrittenIsTyped(Next(s, steps[0]), steps[1..], k);
      Regroup(s.ptys[s.sessions[k]].session.written, InputOf(s, steps[0], k),
              InputsTo(Next(s, steps[0]), steps[1..], k));
    }
  }

  /** A stream task from its request over its registration to its end. */
  lemma StreamLifecycle(s: State, k: nat)
    requires Inv(s) && k < |s.tasks|
    ensures s.tasks[k].phase.Booting? ==>
              var t := Next(s, StreamSpawned(k));
              && t.streams == s.streams[s.tasks[k].id := k]
              && t.tasks == s.tasks[k := Stream(s.tasks[k].id, s.tasks[k].alone, Running, false)]
    ensures !s.tasks[k].phase.Over? ==>
              var t := Next(s, StreamEnds(k));
              s.tasks[k].id !in t.streams && t.streams == s.streams - {s.tasks[k].id} && |t.tasks| == |s.tasks|
              && t.tasks[k].phase.Over? && forall j :: 0 <= j < |s.tasks| && j != k ==> t.tasks[j] == s.tasks[j]
  {
  }

  // ----- Streams: when a stop is effective -----

  predicate Requests(step: Step, id: string) {
    step.Message? && step.handled.Streams? && step.m.id == id
  }

  /** A task of `id` whose output goes on, or is about to start: a kill ends it only if no other process holds it. */
  predicate Alive(s: State, k: nat, id: string) {
    k < |s.tasks| && s.tasks[k].id == id && !s.tasks[k].phase.Over? && !(s.tasks[k].killed && s.tasks[k].alone)
  }

  /** The kill of a stop of `id` hits the one process of task `k`. */
  predicate Hit(s: State, k: nat, id: string) {
    id in s.streams && s.streams[id] == k && k < |s.tasks| && s.tasks[k].alone
  }

  /** Output of `id` is being sent. */
  ghost predicate Streaming(s: State, id: string) {
    exists k: nat :: Alive(s, k, id) && s.tasks[k].phase.Running?
  }

  lemma NotRevived(s: State, step: Step, id: string, k: nat)
    requires !Alive(s, k, id) && !Requests(step, id)
    ensures !Alive(Next(s, step), k, id)
  {
  }

  lemma {:induction false} DeadStaysDead(s: State, steps: seq<Step>, id: string)
    requires forall k: nat :: !Alive(s, k, id)
    requires forall i :: 0 <= i < |steps| ==> !Requests(steps[i], id)
    ensures !Streaming(Exec(s, steps), id)
    decreases |steps|
  {
    if steps != [] {
      var t := Next(s, steps[0]);
      assert !Requests(steps[0], id);
      forall k: nat ensures !Alive(t, k, id) {
        assert !Alive(s, k, id);
        NotRevived(s, steps[0], id, k);
      }
      DeadStaysDead(t, steps[1..], id);
    }
  }

  /**
   Exactly when a stop, always reported as a success, is effective: the stream can still run
   after it, without being asked for again, if and only if a task of that id was alive that the
   kill does not hit: one that is not the registered one, such as one whose process was still
   being started, or the registered one if its shell left other processes on the output.
   */
  lemma StopIsEffectiveIff(s: State, m: Incoming, handled: Handled, forks: bool)
    requires Inv(s) && m.action == "logs.stop_stream" && m.params.Params?
    ensures var id, t := m.params.streamId, Dispatch(s, m, handled, forks).0;
            && Dispatch(s, m, handled, forks).1 == [Reply(m.id, None, true)]
            && ((exists steps: seq<Step> ::
                   (forall i :: 0 <= i < |steps| ==> !Requests(steps[i], id)) && Streaming(Exec(t, steps), id))
                <==> exists k: nat :: Alive(s, k, id) && !Hit(s, k, id))
  {
    var id, t := m.params.streamId, Dispatch(s, m, handled, forks).0;
    if k: nat :| Alive(s, k, id) && !Hit(s, k, id) {
      assert Alive(t, k, id);
      var steps := if s.tasks[k].phase.Booting? then [StreamSpawned(k)] else [];
      var end := Exec(t, steps);
      assert steps != [] ==> Exec(Next(t, steps[0]), steps[1..]) == Next(t, steps[0]);
      assert Alive(end, k, id) && end.tasks[k].phase.Running?;
      assert Streaming(end, id) && forall i :: 0 <= i < |steps| ==> !Requests(steps[i], id);
    } else {
      forall k: nat ensures !Alive(t, k, id) {
        assert Alive(t, k, id) ==> Alive(s, k, id);
      }
      forall steps: seq<Step> | forall i :: 0 <= i < |steps| ==> !Requests(steps[i], id)
        ensures !Streaming(Exec(t, steps), id)
      {
        DeadStaysDead(t, steps, id);
      }
    }
  }

  /** The task of the run's one request, from its request on. */
  function OneStream(id: string, alone: bool, spawned: bool): State {
    var s := Dispatch(INIT, Incoming(id, "logs.stream", Params("", "", Absent, Absent, None)), Streams(alone), false).0;
    if spawned then Next(s, StreamSpawned(0)) else s
  }

  /**
   Both ways a stop fails happen, and a stop can work: of a stream just asked for it is too
   early, and of a running one it works exactly if the process is alone.
   */
  lemma StopOfOneStream(id: string, alone: bool, spawned: bool)
    ensures Inv(OneStream(id, alone, spawned))
    ensures var s := OneStream(id, alone, spawned);
            var stop := Incoming(id, "logs.stop_stream", Params("", id, Absent, Absent, None));
            (exists steps: seq<Step> ::
               (forall i :: 0 <= i < |steps| ==> !Requests(steps[i], id))
               && Streaming(Exec(Dispatch(s, stop, Raises, false).0, steps), id))
            <==> !(spawned && alone)
  {
    assert !IsTerminal("logs.stream") by {
      assert "logs.stream"[..9][0] == 'l' && "terminal."[0] == 't';
    }
    var m := Incoming(id, "logs.stream", Params("", "", Absent, Absent, None));
    var asked := Dispatch(INIT, m, Streams(alone), false).0;
    InvStep(INIT, Message(m, Streams(alone), false));
    InvStep(asked, StreamSpawned(0));
    assert asked.tasks == [Stream(id, alone, Booting, false)];
    var s := OneStream(id, alone, spawned);
    StopIsEffectiveIff(s, Incoming(id, "logs.stop_stream", Params("", id, Absent, Absent, None)), Raises, false);
    assert |s.tasks| == 1 && Alive(s, 0, id);
    assert Hit(s, 0, id) <==> spawned && alone;
  }

  // ----- Terminal sessions -----

  /** A close request that finds its session registered. */
  predicate ClosesKey(s: State, step: Step, key: string) {
    && step.Message? && step.m.action == "terminal.close" && step.m.params.Params?
    && SessionKey(step.m) == key && key in s.sessions
  }

  function Closes(s: State, steps: seq<Step>, key: string): nat
    decreases |steps|
  {
    if steps == [] then 0
    else (if ClosesKey(s, steps[0], key) then 1 else 0) + Closes(Next(s, steps[0]), steps[1..], key)
  }

  /** The shells started under `key` whose `start` returned. */
  function PtysFor(ptys: seq<Pty>, key: string): nat {
    if ptys == [] then 0
    else
      var last := ptys[|ptys| - 1];
      PtysFor(ptys[..|ptys| - 1], key) + if last.key == key && !Orphan(last) then 1 else 0
  }

  lemma {:induction false} PtysForSameKeys(a: seq<Pty>, b: seq<Pty>, key: string)
    requires |a| == |b| && forall i :: 0 <= i < |a| ==> a[i].key == b[i].key && (Orphan(a[i]) <==> Orphan(b[i]))
    ensures PtysFor(a, key) == PtysFor(b, key)
  {
    if a != [] {
      PtysForSameKeys(a[..|a| - 1], b[..|b| - 1], key);
    }
  }

  lemma PtysForAppended(ptys: seq<Pty>, pty: Pty, key: string)
    ensures PtysFor(ptys + [pty], key) == PtysFor(ptys, key) + if pty.key == key && !Orphan(pty) then 1 else 0
  {
    var all := ptys + [pty];
    assert all[..|all| - 1] == ptys && all[|all| - 1] == pty;
  }

  /** The shells started under `key` and not accounted for by the registered one. */
  function Spent(s: State, key: string): int {
    PtysFor(s.ptys, key) - if key in s.sessions then 1 else 0
  }

  lemma SpentByTerminals(s: State, m: Incoming, forks: bool, key: string)
    requires Inv(s) && m.params.Params?
    ensures Spent(Terminals(s, m, forks).0, key)
            == Spent(s, key) +
               if m.action == "terminal.close" && SessionKey(m) == key && key in s.sessions then 1 else 0
  {
    var t := Terminals(s, m, forks).0;
    if m.action == "terminal.open" {
      PtysForAppended(s.ptys, Pty(SessionKey(m), Terminal.STARTED), key);
      PtysForAppended(s.ptys, Pty(SessionKey(m), Terminal.FORKED), key);
    } else {
      PtysForSameKeys(s.ptys, t.ptys, key);
    }
  }

  lemma SpentStep(s: State, step: Step, key: string)
    requires Inv(s)
    ensures Spent(Next(s, step), key) == Spent(s, key) + if ClosesKey(s, step, key) then 1 else 0
  {
    assert IsTerminal("terminal.close");
    match step
    case Message(m, handled, forks) =>
      if m.params.Params? && IsTerminal(m.action) {
        SpentByTerminals(s, m, forks, key);
      }
    case SessionStep(_, _) => PtysForSameKeys(s.ptys, Next(s, step).ptys, key);
    case _ =>
  }

  /**
   A shell is started for a session id only when none is registered: over any run, the shells
   whose start returned are the effective closes of that id plus the one still registered.
   Every session keeps the lifecycle guarantees, and a live shell is the registered one of
   its id unless its own start raised after the fork.
   */
  lemma {:induction false} OnePtyPerOpenSession(s: State, steps: seq<Step>, key: string)
    requires Inv(s)
    ensures Inv(Exec(s, steps))
    ensures Spent(Exec(s, steps), key) == Spent(s, key) + Closes(s, steps, key)
    decreases |steps|
  {
    if steps != [] {
      InvStep(s, steps[0]);
      SpentStep(s, steps[0], key);
      OnePtyPerOpenSession(Next(s, steps[0]), steps[1..], key);
    }
  }

  /** Nothing reaches an orphan: it has no task, and no message finds it in the map. */
  lemma OrphanStep(s: State, step: Step, k: nat)
    requires Inv(s) && k < |s.ptys| && Orphan(s.ptys[k])
    ensures k < |Next(s, step).ptys| && Next(s, step).ptys[k] == s.ptys[k]
  {
    assert PtyOk(s, k);
  }

  /** A shell whose start raised after the fork is never closed by anything that follows. */
  lemma {:induction false} OrphanIsNeverClosed(s: State, steps: seq<Step>, k: nat)
    requires Inv(s) && k < |s.ptys| && Orphan(s.ptys[k])
    ensures k < |Exec(s, steps).ptys| && Exec(s, steps).ptys[k] == s.ptys[k] && s.ptys[k].session.fdOpen
    decreases |steps|
  {
    assert PtyOk(s, k);
    if steps != [] {
      InvStep(s, steps[0]);
      OrphanStep(s, steps[0], k);
      OrphanIsNeverClosed(Next(s, steps[0]), steps[1..], k);
    }
  }

  ghost predicate NeverClosed(s: State, k: nat) {
    forall steps :: k < |Exec(s, steps).ptys| && Exec(s, steps).ptys[k].session.fdOpen
  }

  /** A close request under its id closes a shell that has not ended yet. */
  lemma CloseShell(s: State, k: nat) returns (steps: seq<Step>)
    requires Inv(s) && k < |s.ptys| && !Orphan(s.ptys[k])
    ensures k < |Exec(s, steps).ptys| && !Exec(s, steps).ptys[k].session.fdOpen
  {
    assert PtyOk(s, k);
    if s.ptys[k].session.closed {
      steps := [];
    } else {
      var key := s.ptys[k].key;
      var m := Incoming(key, "terminal.close", Params(key, "", Absent, Absent, None));
      var close := Message(m, Raises, false);
      assert IsTerminal("terminal.close");
      assert Next(s, close) == Terminals(s, m, false).0;
      steps := [close];
      assert Exec(Next(s, close), []) == Next(s, close);
    }
  }

  /** A shell can be closed by some run exactly when its `start` returned. */
  lemma ClosableIff(s: State, k: nat)
    requires Inv(s) && k < |s.ptys|
    ensures (exists steps :: k < |Exec(s, steps).ptys| && !Exec(s, steps).ptys[k].session.fdOpen)
            <==> !Orphan(s.ptys[k])
    ensures NeverClosed(s, k) <==> Orphan(s.ptys[k])
  {
    assert PtyOk(s, k);
    if Orphan(s.ptys[k]) {
      forall steps ensures k < |Exec(s, steps).ptys| && Exec(s, steps).ptys[k].session.fdOpen {
        OrphanIsNeverClosed(s, steps, k);
      }
    } else {
      var steps := CloseShell(s, k);
    }
  }

  /**
   Exactly when an open leaks a shell: it leaves one that nothing ever closes if and only if
   no session of its id is registered, the fork succeeds and a window dimension is not an
   integer from 0 to 65535.  It then reports an error.
   */
  lemma OpenLeaksShellIff(s: State, m: Incoming, handled: Handled, forks: bool)
    requires Inv(s) && m.action == "terminal.open" && m.params.Params?
    ensures var t, sent := Dispatch(s, m, handled, forks).0, Dispatch(s, m, handled, forks).1;
            var key := if m.params.sessionId != "" then m.params.sessionId else m.id;
            var leaks := key !in s.sessions && forks
                         && (|| !(m.params.rows.Absent? || (m.params.rows.Whole? && 0 <= m.params.rows.n <= 65535))
                             || !(m.params.cols.Absent? || (m.params.cols.Whole? && 0 <= m.params.cols.n <= 65535)));
            && ((exists k :: |s.ptys| <= k < |t.ptys| && NeverClosed(t, k)) <==> leaks)
            && (leaks ==> sent == [Reply(m.id, None, false)])
  {
    assert IsTerminal("terminal.open");
    var t := Dispatch(s, m, handled, forks).0;
    InvStep(s, Message(m, handled, forks));
    if |s.ptys| < |t.ptys| {
      ClosableIff(t, |s.ptys|);
    }
  }

  /** A message that does it: a window one row too high for 16 bits. */
  lemma LargeWindowLeaksShell(id: string)
    requires id != ""
    ensures var open := Incoming(id, "terminal.open", Params("", "", Whole(65536), Absent, None));
            var t := Dispatch(INIT, open, Raises, true).0;
            |t.ptys| == 1 && NeverClosed(t, 0) && t.sessions == map[]
  {
    var open := Incoming(id, "terminal.open", Params("", "", Whole(65536), Absent, None));
    OpenLeaksShellIff(INIT, open, Raises, true);
    assert IsTerminal("terminal.open");
  }

  /**
   A `terminal.open` that is reported as a success leaves a live shell behind it exactly when
   it found no registered session that had already ended: the shell's own exit never
   unregisters its session.
   */
  lemma OpenedIsLiveIff(s: State, m: Incoming, handled: Handled, forks: bool)
    requires Inv(s) && m.action == "terminal.open" && m.params.Params?
    requires Dispatch(s, m, handled, forks).1[0].success
    ensures var t := Dispatch(s, m, handled, forks).0;
            var key := SessionKey(m);
            && key in t.sessions && t.sessions[key] < |t.ptys|
            && (!t.ptys[t.sessions[key]].session.closed
                <==> !(key in s.sessions && s.ptys[s.sessions[key]].session.closed))
  {
    assert IsTerminal("terminal.open");
  }

  /** A shell that exits by itself leaves its id registered, so the open above can find it dead. */
  lemma EndedSessionStaysRegistered(id: string)
    requires id != ""
    ensures var open := Incoming(id, "terminal.open", Params(id, "", Absent, Absent, None));
            var s := Exec(INIT, [Message(open, Raises, true), SessionStep(0, Terminal.TestLoop),
                          SessionStep(0, Terminal.ReadReturns(false)), SessionStep(0, Terminal.ReaderLeaves)]);
            id in s.sessions && s.sessions[id] < |s.ptys| && s.ptys[s.sessions[id]].session.closed
  {
    assert IsTerminal("terminal.open");
    var open := Message(Incoming(id, "terminal.open", Params(id, "", Absent, Absent, None)), Raises, true);
    var test, eof := SessionStep(0, Terminal.TestLoop), SessionStep(0, Terminal.ReadReturns(false));
    var leave := SessionStep(0, Terminal.ReaderLeaves);
    var s1 := Next(INIT, open);
    var s2 := Next(s1, test);
    var s3 := Next(s2, eof);
    var s4 := Next(s3, leave);
    assert Exec(s4, []) == s4;
    assert Exec(s3, [leave]) == s4;
    assert Exec(s2, [eof, leave]) == s4;
    assert Exec(s1, [test, eof, leave]) == s4;
    assert [open, test, eof, leave][1..] == [test, eof, leave];
  }

  class AgentConnection {
    var activeStreams: map<string, nat>
    var tasks: seq<Stream>
    var terminalSessions: map<string, nat>
    var ptys: seq<Pty>

    ghost function View(): State
      reads this
    {
      State(activeStreams, tasks, terminalSessions, ptys)
    }

    constructor ()
      ensures View() == INIT && Inv(View())
    {
      activeStreams, tasks, terminalSessions, ptys := map[], [], map[], [];
    }

    /** One turn of `_listen`: the replies in the order they are sent. */
    method OnMessage(m: Incoming, handled: Handled, forks: bool) returns (sent: seq<Reply>)
      requires Inv(View())
      modifies this
      ensures (View(), sent) == Dispatch(old(View()), m, handled, forks)
    {
      sent := [];
      if m.action == "" {
        return;
      }
      if m.action == "logs.stop_stream" {
        if m.params.Malformed? {
          return OnError(m);
        }
        if m.params.streamId in activeStreams {
          var k := activeStreams[m.params.streamId];
          activeStreams := activeStreams - {m.params.streamId};
          tasks := tasks[k := tasks[k].(killed := true)];
        }
        assert activeStreams == old(activeStreams) - {m.params.streamId};
        return [Reply(m.id, None, true)];
      }
      if IsTerminal(m.action) {
        sent := HandleTerminal(m, forks);
        return;
      }
      match handled {
        case Streams(alone) =>
          tasks := tasks + [Stream(m.id, alone, Booting, false)];
          sent := [Reply(m.id, None, true)];
        case Returns(typed, error) => sent := [Reply(m.id, typed, !error)];
        case Raises => sent := OnError(m);
      }
    }

    /** `_stream_logs` once its process has started. */
    method RegisterStream(k: nat)
      requires k < |tasks| && tasks[k].phase.Booting?
      modifies this`activeStreams, this`tasks
      ensures View() == Next(old(View()), StreamSpawned(k))
    {
      activeStreams := activeStreams[tasks[k].id := k];
      tasks := tasks[k := tasks[k].(phase := Running)];
    }

    /** The `finally` block of `_stream_logs`: it pops whatever is registered under the id by then. */
    method EndStream(k: nat)
      requires k < |tasks| && !tasks[k].phase.Over?
      modifies this`activeStreams, this`tasks
      ensures View() == Next(old(View()), StreamEnds(k))
    {
      activeStreams := activeStreams - {tasks[k].id};
      tasks := tasks[k := tasks[k].(phase := Over)];
    }

    method HandleTerminal(m: Incoming, forks: bool) returns (sent: seq<Reply>)
      requires Inv(View())
      modifies this`terminalSessions, this`ptys
      ensures (View(), sent) == Terminals(old(View()), m, forks)
    {
      if m.params.Malformed? {
        return OnError(m);
      }
      var key := SessionKey(m);
      if m.action == "terminal.open" {
        if key in terminalSessions {
          return [Reply(m.id, None, true)];
        }
        if !forks {
          return [Reply(m.id, None, false)];
        }
        if !Packs(m.params.rows) || !Packs(m.params.cols) {
          ptys := ptys + [Pty(key, Terminal.FORKED)];
          return [Reply(m.id, None, false)];
        }
        ptys := ptys + [Pty(key, Terminal.STARTED)];
        terminalSessions := terminalSessions[key := |ptys| - 1];
        return [Reply(m.id, None, true)];
      }
      if m.action == "terminal.input" {
        if key in terminalSessions {
          var k := terminalSessions[key];
          if ptys[k].session.hasFd && m.params.data == None {
            return OnError(m);
          }
          if m.params.data.Some? {
            var write := Terminal.Write(m.params.data.value);
            ptys := ptys[k := ptys[k].(session := Terminal.Next(ptys[k].session, write))];
          }
        }
        return [];
      }
      if m.action == "terminal.resize" {
        if key in terminalSessions {
          if ReadingRaises(m.params.rows, m.params.cols) {
            return OnError(m);
          }
          if ptys[terminalSessions[key]].session.hasFd && PackingRaises(m.params.rows, m.params.cols) {
            return OnError(m);
          }
        }
        return [];
      }
      if m.action == "terminal.close" {
        if key in terminalSessions {
          var k := terminalSessions[key];
          terminalSessions := terminalSessions - {key};
          ptys := ptys[k := ptys[k].(session := Terminal.BeginCleanup(ptys[k].session))];
        }
        return if m.id != "" then [Reply(m.id, None, true)] else [];
      }
      return OnError(m);
    }
  }
}
