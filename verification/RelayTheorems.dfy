/**
 What the relay promises over whole runs: whose answer a call can get, how often a future
 completes, and what is in `pending_commands`.
 */
module RelayTheorems {
  import opened Basics
  import opened CommandBridges
  import opened Relay

  predicate Carries(inbox: seq<Command>, k: nat) {
    exists cmd :: cmd in inbox && cmd.origin == k
  }

  predicate ReplyTo(m: Message, k: nat) {
    Reaches(m) && m.origin == k
  }

  predicate Replies(outbox: seq<Message>, k: nat) {
    exists m :: m in outbox && ReplyTo(m, k)
  }

  /** Call `k`'s command can still put a message that resolves its id in front of the backend. */
  predicate MayAnswer(s: State, k: nat)
    requires k < |s.calls|
  {
    var call := s.calls[k];
    && call.conn in s.links
    && (|| (Answered(call.request, true) && call.phase.Sending?)
        || (Answered(call.request, true) && Carries(s.links[call.conn].inbox, k))
        || Replies(s.links[call.conn].outbox, k))
  }

  /** The entry under call `k`'s id is call `k`'s. */
  predicate Owns(s: State, k: nat)
    requires k < |s.calls|
  {
    s.calls[k].id in s.bridge.pending && s.bridge.pending[s.calls[k].id] == k
  }

  /** Call `k` holds a result that is not the agent's answer to call `k`'s own command. */
  predicate ForeignAnswer(s: State, k: nat) {
    && k < |s.bridge.futures| && s.bridge.futures[k].Done?
    && !(k in s.answers && s.answers[k] == s.bridge.futures[k].outcome)
  }

  /** No earlier call can answer for `k`, and while `k` owns its entry no later call shares its id. */
  ghost predicate Guarded(s: State, k: nat) {
    && k < |s.calls|
    && (forall j :: 0 <= j < k && s.calls[j].id == s.calls[k].id ==> !MayAnswer(s, j))
    && (Owns(s, k) ==> forall j :: k < j < |s.calls| ==> s.calls[j].id != s.calls[k].id)
    && !ForeignAnswer(s, k)
  }

  lemma SilentAnswer(s: State, c: nat, tag: Tag, outcome: Outcome, raised: bool, k: nat)
    requires Inv(s) && k < |s.calls| && !MayAnswer(s, k)
    ensures !MayAnswer(AnswerCommand(s, c, tag, outcome, raised), k)
  {
    if c in s.links && s.links[c].inbox != [] {
      assert CommandOk(s, c, s.links[c].inbox[0]);
      assert s.links[c].inbox[0] in s.links[c].inbox;
    }
  }

  lemma SilentEmit(s: State, j: nat, k: nat)
    requires Inv(s) && k < |s.calls| && !MayAnswer(s, k)
    ensures !MayAnswer(EmitCommand(s, j), k)
  {
  }

  lemma SilentTraffic(s: State, step: Step, k: nat)
    requires Inv(s) && k < |s.calls| && !MayAnswer(s, k) && (step.Deliver? || step.AgentNotice?)
    ensures !MayAnswer(Next(s, step), k)
  {
  }

  lemma SilentSockets(s: State, step: Step, k: nat)
    requires Inv(s) && k < |s.calls| && !MayAnswer(s, k) && (step.Connect? || step.Disconnect?)
    ensures k < |Next(s, step).calls| && !MayAnswer(Next(s, step), k)
  {
    assert CallOk(s, k);
  }

  lemma SilentCalls(s: State, step: Step, k: nat)
    requires k < |s.calls| && !MayAnswer(s, k)
    requires step.Route? || step.Unroute? || step.Start? || step.SendReturns? || step.SendFails? || step.TimerFires?
             || step.Resume?
    ensures k < |Next(s, step).calls| && !MayAnswer(Next(s, step), k)
  {
  }

  /** A command that can no longer answer never can again. */
  lemma SilentStays(s: State, step: Step, k: nat)
    requires Inv(s) && k < |s.calls| && !MayAnswer(s, k)
    ensures k < |Next(s, step).calls| && !MayAnswer(Next(s, step), k)
  {
    assert CallOk(s, k);
    match step
    case AgentAnswers(c, typed, outcome, raised) => SilentAnswer(s, c, TagOf(typed), outcome, raised, k);
    case Emit(j) => SilentEmit(s, j, k);
    case Deliver(_) => SilentTraffic(s, step, k);
    case AgentNotice(_, _, _) => SilentTraffic(s, step, k);
    case Connect => SilentSockets(s, step, k);
    case Disconnect(_) => SilentSockets(s, step, k);
    case _ => SilentCalls(s, step, k);
  }

  lemma {:induction false} SilentRun(s: State, steps: seq<Step>, k: nat)
    requires Inv(s) && k < |s.calls| && !MayAnswer(s, k)
    ensures k < |Exec(s, steps).calls| && !MayAnswer(Exec(s, steps), k)
    decreases |steps|
  {
    if steps != [] {
      InvStep(s, steps[0]);
      SilentStays(s, steps[0], k);
      SilentRun(Next(s, steps[0]), steps[1..], k);
    }
  }

  /** A call whose socket is gone is never answered any more: sockets do not come back. */
  lemma {:induction false} GoneSocketNeverAnswers(s: State, steps: seq<Step>, k: nat)
    requires Inv(s) && k < |s.calls|
    ensures var gone := Next(s, Disconnect(s.calls[k].conn));
            k < |Exec(gone, steps).calls| && !MayAnswer(Exec(gone, steps), k)
  {
    var gone := Next(s, Disconnect(s.calls[k].conn));
    InvStep(s, Disconnect(s.calls[k].conn));
    SilentRun(gone, steps, k);
  }

  /** A delivered reply completes only the call it answers. */
  lemma GuardedDeliver(s: State, c: nat, k: nat)
    requires Inv(s) && Guarded(s, k)
    ensures !ForeignAnswer(DeliverMessage(s, c), k)
  {
    if c in s.links && s.links[c].outbox != [] {
      var m := s.links[c].outbox[0];
      assert MessageOk(s, c, m) && m in s.links[c].outbox;
      assert Reaches(m) ==> ReplyTo(m, m.origin);
    }
  }

  /** An answer already given is never given again, so it is never overwritten. */
  lemma GuardedAnswer(s: State, c: nat, tag: Tag, outcome: Outcome, raised: bool, k: nat)
    requires Inv(s) && Guarded(s, k)
    ensures !ForeignAnswer(AnswerCommand(s, c, tag, outcome, raised), k)
  {
    if c in s.links && s.links[c].inbox != [] {
      assert CommandOk(s, c, s.links[c].inbox[0]);
    }
  }

  /** Calls are only ever appended, by a start, and keep their ids. */
  lemma CallsKept(s: State, step: Step, k: nat)
    ensures |Next(s, step).calls| == |s.calls|
            || (|Next(s, step).calls| == |s.calls| + 1 && step.Start? && Next(s, step).calls[|s.calls|].id == step.id)
    ensures k < |s.calls| ==> k < |Next(s, step).calls| && Next(s, step).calls[k].id == s.calls[k].id
  {
  }

  lemma EntriesUntouched(s: State, step: Step)
    requires !step.Start? && !step.Deliver? && !step.Resume?
    ensures Next(s, step).bridge.pending == s.bridge.pending
  {
  }

  /** An entry once lost is never regained, and starting a call under its id loses it. */
  lemma OwnerStep(s: State, step: Step, k: nat)
    requires Inv(s) && k < |s.calls|
    ensures k < |Next(s, step).calls|
    ensures Owns(Next(s, step), k) ==> Owns(s, k)
    ensures Owns(Next(s, step), k) && |Next(s, step).calls| > |s.calls| ==> step.Start? && step.id != s.calls[k].id
  {
    CallsKept(s, step, k);
    if !step.Start? && !step.Deliver? && !step.Resume? {
      EntriesUntouched(s, step);
    }
  }

  lemma OwnAnswerStep(s: State, step: Step, k: nat)
    requires Inv(s) && Guarded(s, k)
    ensures !ForeignAnswer(Next(s, step), k)
  {
    match step
    case Deliver(c) => GuardedDeliver(s, c, k);
    case AgentAnswers(c, typed, outcome, raised) => GuardedAnswer(s, c, TagOf(typed), outcome, raised, k);
    case _ =>
  }

  lemma GuardedStep(s: State, step: Step, k: nat)
    requires Inv(s) && Guarded(s, k)
    ensures Guarded(Next(s, step), k)
  {
    var t := Next(s, step);
    CallsKept(s, step, k);
    forall j | 0 <= j < k && t.calls[j].id == t.calls[k].id ensures !MayAnswer(t, j) {
      CallsKept(s, step, j);
      SilentStays(s, step, j);
    }
    forall j | k < j < |t.calls| && Owns(t, k) ensures t.calls[j].id != t.calls[k].id {
      OwnerStep(s, step, k);
      CallsKept(s, step, j);
    }
    OwnAnswerStep(s, step, k);
  }

  lemma {:induction false} GuardedRun(s: State, steps: seq<Step>, k: nat)
    requires Inv(s) && Guarded(s, k)
    ensures Inv(Exec(s, steps)) && Guarded(Exec(s, steps), k)
    decreases |steps|
  {
    if steps != [] {
      InvStep(s, steps[0]);
      GuardedStep(s, steps[0], k);
      GuardedRun(Next(s, steps[0]), steps[1..], k);
    }
  }

  /** Call `k` waits for a result, and the next reply bearing its id is taken for its answer. */
  ghost predicate Awaiting(s: State, k: nat) {
    Inv(s) && k < |s.calls| && Owns(s, k) && s.bridge.futures[k].Pending?
  }

  ghost predicate Completed(s: State, k: nat) {
    k < |s.bridge.futures| && s.bridge.futures[k].Done?
  }

  lemma {:induction false} DrainOutbox(s: State, c: nat, i: nat, k: nat) returns (steps: seq<Step>)
    requires Awaiting(s, k) && c in s.links && i < |s.links[c].outbox|
    requires Reaches(s.links[c].outbox[i]) && s.links[c].outbox[i].id == s.calls[k].id
    ensures Completed(Exec(s, steps), k)
    ensures Inv(Exec(s, steps)) && Exec(s, steps).calls[k].phase == s.calls[k].phase
    decreases i
  {
    var m := s.links[c].outbox[0];
    var t := Next(s, Deliver(c));
    InvStep(s, Deliver(c));
    if Reaches(m) && m.id == s.calls[k].id {
      steps := [Deliver(c)];
      assert Exec(t, []) == t;
    } else {
      assert t.links[c].outbox[i - 1] == s.links[c].outbox[i];
      var rest := DrainOutbox(t, c, i - 1, k);
      steps := [Deliver(c)] + rest;
      assert steps[1..] == rest;
    }
  }

  lemma {:induction false} DrainInbox(s: State, c: nat, i: nat, k: nat) returns (steps: seq<Step>)
    requires Awaiting(s, k) && c in s.links && i < |s.links[c].inbox|
    requires Answered(s.links[c].inbox[i].request, true) && s.links[c].inbox[i].id == s.calls[k].id
    ensures Completed(Exec(s, steps), k)
    ensures Inv(Exec(s, steps)) && Exec(s, steps).calls[k].phase == s.calls[k].phase
    decreases i
  {
    var answer := AgentAnswers(c, None, "", true);
    var t := Next(s, answer);
    InvStep(s, answer);
    assert CallOk(s, k);
    var rest;
    if i == 0 {
      rest := DrainOutbox(t, c, |s.links[c].outbox|, k);
    } else {
      assert t.links[c].inbox[i - 1] == s.links[c].inbox[i];
      rest := DrainInbox(t, c, i - 1, k);
    }
    steps := [answer] + rest;
    assert steps[1..] == rest;
  }

  /** A command that may still answer under the id of an awaiting call completes it on some run. */
  lemma {:induction false} AnswerArrives(s: State, j: nat, k: nat) returns (steps: seq<Step>)
    requires Awaiting(s, k) && j < |s.calls| && s.calls[j].id == s.calls[k].id && MayAnswer(s, j)
    ensures Completed(Exec(s, steps), k)
    ensures Inv(Exec(s, steps)) && (j != k ==> Exec(s, steps).calls[k].phase == s.calls[k].phase)
  {
    var c := s.calls[j].conn;
    var link := s.links[c];
    if Replies(link.outbox, j) {
      var i :| 0 <= i < |link.outbox| && ReplyTo(link.outbox[i], j);
      assert MessageOk(s, c, link.outbox[i]);
      steps := DrainOutbox(s, c, i, k);
    } else if Carries(link.inbox, j) {
      var i :| 0 <= i < |link.inbox| && link.inbox[i].origin == j;
      assert CommandOk(s, c, link.inbox[i]);
      steps := DrainInbox(s, c, i, k);
    } else {
      var t := Next(s, Emit(j));
      InvStep(s, Emit(j));
      var rest := DrainInbox(t, c, |link.inbox|, k);
      steps := [Emit(j)] + rest;
      assert steps[1..] == rest;
    }
  }

  /** No earlier call with this id can still answer. */
  predicate IdClear(s: State, id: string) {
    forall j :: 0 <= j < |s.calls| && s.calls[j].id == id ==> !MayAnswer(s, j)
  }

  lemma StartIsGuarded(s: State, server: string, request: Request, id: string)
    requires Inv(s) && server in s.routes && id != "" && IdClear(s, id)
    ensures Inv(Next(s, Start(server, request, id))) && Guarded(Next(s, Start(server, request, id)), |s.calls|)
  {
    var t := Next(s, Start(server, request, id));
    InvStep(s, Start(server, request, id));
    forall j | 0 <= j < |s.calls| && t.calls[j].id == id ensures !MayAnswer(t, j) {
      assert t.calls[j] == s.calls[j];
    }
  }

  /**
   Exactly when a call can be handed another command's answer.  After any past and at any
   open server, a call started under `id` gets a foreign answer on some future if and only if
   an earlier call with the same id can still answer at the moment it starts.
   */
  lemma ForeignAnswerIff(past: seq<Step>, server: string, request: Request, id: string)
    requires id != "" && server in Exec(INIT, past).routes
    ensures var s := Exec(INIT, past);
            (exists future :: ForeignAnswer(Exec(Next(s, Start(server, request, id)), future), |s.calls|))
            <==> (exists j :: 0 <= j < |s.calls| && s.calls[j].id == id && MayAnswer(s, j))
  {
    var s := Exec(INIT, past);
    InvRun(INIT, past);
    var k := |s.calls|;
    var t := Next(s, Start(server, request, id));
    InvStep(s, Start(server, request, id));
    if j :| 0 <= j < |s.calls| && s.calls[j].id == id && MayAnswer(s, j) {
      assert t.calls[j] == s.calls[j] && MayAnswer(t, j);
      var future := AnswerArrives(t, j, k);
      assert ForeignAnswer(Exec(t, future), k);
      assert exists steps :: ForeignAnswer(Exec(t, steps), k);
    } else {
      StartIsGuarded(s, server, request, id);
      forall future ensures !ForeignAnswer(Exec(t, future), k) {
        GuardedRun(t, future, k);
      }
    }
  }

  /** Every call of the run starts under an id that is clear at that moment. */
  predicate ClearStarts(s: State, steps: seq<Step>)
    decreases |steps|
  {
    steps == [] || ((steps[0].Start? ==> IdClear(s, steps[0].id)) && ClearStarts(Next(s, steps[0]), steps[1..]))
  }

  lemma {:induction false} AllGuarded(s: State, steps: seq<Step>)
    requires Inv(s) && ClearStarts(s, steps) && forall k :: 0 <= k < |s.calls| ==> Guarded(s, k)
    ensures Inv(Exec(s, steps)) && forall k :: 0 <= k < |Exec(s, steps).calls| ==> Guarded(Exec(s, steps), k)
    decreases |steps|
  {
    if steps != [] {
      var t := Next(s, steps[0]);
      InvStep(s, steps[0]);
      CallsKept(s, steps[0], |s.calls|);
      forall k | 0 <= k < |t.calls| ensures Guarded(t, k) {
        if k < |s.calls| {
          GuardedStep(s, steps[0], k);
        } else {
          StartIsGuarded(s, steps[0].server, steps[0].request, steps[0].id);
        }
      }
      AllGuarded(t, steps[1..]);
    }
  }

  /**
   In a run whose calls start under clear ids, each call that returns a result returns the
   agent's answer to its own command.
   */
  lemma ReturnedIsOwnAnswer(steps: seq<Step>, k: nat)
    requires ClearStarts(INIT, steps)
    ensures var end := Exec(INIT, steps);
            k < |end.calls| && end.calls[k].phase.Returned? ==>
              k in end.answers && end.answers[k] == end.calls[k].phase.outcome
  {
    AllGuarded(INIT, steps);
    var end := Exec(INIT, steps);
    if k < |end.calls| {
      assert CallOk(end, k) && Guarded(end, k);
    }
  }

  /** A call keeps its id, its request and the socket it was routed to. */
  lemma {:induction false} CallsPersist(s: State, steps: seq<Step>, k: nat)
    requires k < |s.calls|
    ensures var end := Exec(s, steps);
            && k < |end.calls| && end.calls[k].id == s.calls[k].id
            && end.calls[k].request == s.calls[k].request && end.calls[k].conn == s.calls[k].conn
    decreases |steps|
  {
    if steps != [] {
      CallsPersist(Next(s, steps[0]), steps[1..], k);
    }
  }

  /** After any run, a call's command and its reply travel only on the socket that its start had routed it to. */
  lemma TrafficStaysOnRoute(past: seq<Step>, later: seq<Step>, server: string, request: Request, id: string, c: nat)
    requires id != "" && server in Exec(INIT, past).routes && c != Exec(INIT, past).routes[server]
    ensures var s := Exec(INIT, past);
            var end := Exec(Next(s, Start(server, request, id)), later);
            c in end.links ==> !Carries(end.links[c].inbox, |s.calls|) && !Replies(end.links[c].outbox, |s.calls|)
  {
    var s := Exec(INIT, past);
    var start := Start(server, request, id);
    InvRun(INIT, past);
    InvStep(s, start);
    InvRun(Next(s, start), later);
    CallsPersist(Next(s, start), later, |s.calls|);
  }

  // ----- Sockets are in order, and calls go through their phases -----

  /** A sequence after a step: one more at the end, one less at the front, or as before. */
  predicate Queued<T(==)>(before: seq<T>, after: seq<T>) {
    || after == before
    || (|after| == |before| + 1 && after[..|before|] == before)
    || (before != [] && after == before[1..])
  }

  /** Commands and messages come off a socket in the order in which they went on it. */
  lemma FirstInFirstOut(s: State, step: Step, c: nat)
    requires Inv(s) && c in s.links && c in Next(s, step).links
    ensures Queued(s.links[c].inbox, Next(s, step).links[c].inbox)
    ensures Queued(s.links[c].outbox, Next(s, step).links[c].outbox)
  {
  }

  /**
   Both ends keep reading: the agent answers the next command or passes over it, and the
   backend takes the next message.
   */
  lemma SocketsMove(s: State, c: nat, typed: Option<string>, outcome: Outcome, raised: bool, id: string, kind: string)
    requires Inv(s) && c in s.links
    ensures s.links[c].inbox != [] ==>
              var cmd := s.links[c].inbox[0];
              var quiet := cmd.request.action == ""
                           || ((cmd.request.action == "terminal.input" || cmd.request.action == "terminal.resize")
                               && !(raised && cmd.request.fragile));
              Next(s, AgentAnswers(c, typed, outcome, raised)).links
              == s.links[c := Link(s.links[c].inbox[1..],
                                   s.links[c].outbox
                                   + if quiet then [] else [Reply(cmd.id, TagOf(typed), outcome, cmd.origin)])]
    ensures s.links[c].outbox != [] ==>
              Next(s, Deliver(c)).links == s.links[c := Link(s.links[c].inbox, s.links[c].outbox[1..])]
    ensures !TagOf(Some(kind)).Plain? ==>
              Next(s, AgentNotice(c, id, kind)).links
              == s.links[c := Link(s.links[c].inbox, s.links[c].outbox + [Notice(id, TagOf(Some(kind)))])]
  {
    if s.links[c].inbox != [] {
      assert s.links[c].outbox + [] == s.links[c].outbox;
    }
  }

  /**
   A call is emitted once, waits only when its send has returned, can time out only then, and
   returns only what its future was completed with.
   */
  lemma CallLife(s: State, k: nat, late: bool)
    requires Inv(s) && k < |s.calls|
    ensures Next(s, Emit(k)).calls[k].phase
            == if s.calls[k].phase.Sending? && s.calls[k].conn in s.links then Emitted else s.calls[k].phase
    ensures Next(s, SendReturns(k)).calls[k].phase
            == if s.calls[k].phase.Emitted? then Waiting else s.calls[k].phase
    ensures Next(s, SendFails(k)).calls[k].phase
            == if s.calls[k].phase.Sending? || s.calls[k].phase.Emitted? then SendFailed else s.calls[k].phase
    ensures Next(s, TimerFires(k)).bridge.futures[k]
            == if s.calls[k].phase.Waiting? && s.bridge.futures[k].Pending? then Cancelled else s.bridge.futures[k]
    ensures Next(s, Resume(k, late)).calls[k].phase
            == if !s.calls[k].phase.Waiting? || s.bridge.futures[k].Pending? then s.calls[k].phase
               else if s.bridge.futures[k].Done? && !late then Returned(s.bridge.futures[k].outcome)
               else TimedOut
  {
  }

  // ----- A future completes at most once, and only for a message that bears its id -----

  /** The next message off a socket is a reply bearing the id of call `k`, which still owns its entry. */
  predicate Completes(s: State, step: Step, k: nat)
    requires k < |s.calls|
  {
    && step.Deliver? && step.conn in s.links && s.links[step.conn].outbox != []
    && Owns(s, k)
    && Reaches(s.links[step.conn].outbox[0]) && s.links[step.conn].outbox[0].id == s.calls[k].id
  }

  lemma CompletionStep(s: State, step: Step, k: nat)
    requires Inv(s) && k < |s.calls|
    ensures k < |Next(s, step).bridge.futures|
    ensures !s.bridge.futures[k].Pending? ==> Next(s, step).bridge.futures[k] == s.bridge.futures[k]
    ensures s.bridge.futures[k].Pending? ==> (Next(s, step).bridge.futures[k].Done? <==> Completes(s, step, k))
    ensures s.bridge.futures[k].Pending? && Completes(s, step, k) ==>
              Next(s, step).bridge.futures[k] == Done(s.links[step.conn].outbox[0].body)
  {
  }

  /** Once completed or cancelled, a future keeps that value for the rest of every run. */
  lemma {:induction false} CompletedForGood(s: State, steps: seq<Step>, k: nat)
    requires Inv(s) && k < |s.calls| && !s.bridge.futures[k].Pending?
    ensures k < |Exec(s, steps).bridge.futures| && Exec(s, steps).bridge.futures[k] == s.bridge.futures[k]
    decreases |steps|
  {
    if steps != [] {
      InvStep(s, steps[0]);
      CompletionStep(s, steps[0], k);
      CompletedForGood(Next(s, steps[0]), steps[1..], k);
    }
  }

  /**
   In a run whose calls start under clear ids, a reply completes the call it stems from, if
   that call still waits and owns its entry, and no other call.
   */
  lemma ReplyCompletesOnlyItsCall(steps: seq<Step>, c: nat)
    requires ClearStarts(INIT, steps)
    requires var links := Exec(INIT, steps).links; c in links && links[c].outbox != [] && links[c].outbox[0].Reply?
    ensures var s := Exec(INIT, steps);
            var m, futures := s.links[c].outbox[0], Next(s, Deliver(c)).bridge.futures;
            && m.origin < |s.calls| == |s.bridge.futures|
            && futures == if Reaches(m) && Owns(s, m.origin) && s.bridge.futures[m.origin].Pending? then
                            s.bridge.futures[m.origin := Done(m.body)]
                          else s.bridge.futures
  {
    var s := Exec(INIT, steps);
    AllGuarded(INIT, steps);
    var m := s.links[c].outbox[0];
    assert MessageOk(s, c, m) && m in s.links[c].outbox;
    if Reaches(m) && m.id in s.bridge.pending {
      var k := s.bridge.pending[m.id];
      assert ReplyTo(m, m.origin) && MayAnswer(s, m.origin);
      assert Guarded(s, k) && Owns(s, k);
      assert k == m.origin;
    }
  }

  /** So a late reply, whose call was completed or timed out before it came, completes nothing. */
  lemma LateReplyIsIgnored(steps: seq<Step>, c: nat)
    requires ClearStarts(INIT, steps)
    requires var s := Exec(INIT, steps);
             && c in s.links && s.links[c].outbox != [] && s.links[c].outbox[0].Reply?
             && s.links[c].outbox[0].origin < |s.bridge.futures|
             && !s.bridge.futures[s.links[c].outbox[0].origin].Pending?
    ensures Next(Exec(INIT, steps), Deliver(c)).bridge.futures == Exec(INIT, steps).bridge.futures
  {
    ReplyCompletesOnlyItsCall(steps, c);
  }

  /** A call whose entry was overwritten or popped before its answer came never completes. */
  lemma {:induction false} EvictedNeverCompletes(s: State, steps: seq<Step>, k: nat)
    requires Inv(s) && k < |s.calls| && !Owns(s, k) && !s.bridge.futures[k].Done?
    ensures k < |Exec(s, steps).bridge.futures| && !Exec(s, steps).bridge.futures[k].Done?
    decreases |steps|
  {
    if steps != [] {
      InvStep(s, steps[0]);
      CompletionStep(s, steps[0], k);
      OwnerStep(s, steps[0], k);
      EvictedNeverCompletes(Next(s, steps[0]), steps[1..], k);
    }
  }

  /** Call `k` owns its entry, and some command that bears its id may still answer. */
  ghost predicate AnswerAhead(s: State, k: nat) {
    k < |s.calls| && Owns(s, k) && exists j :: 0 <= j < |s.calls| && s.calls[j].id == s.calls[k].id && MayAnswer(s, j)
  }

  ghost predicate CanComplete(s: State, k: nat) {
    exists future :: Completed(Exec(s, future), k)
  }

  lemma NoAnswerStep(s: State, step: Step, k: nat)
    requires Inv(s) && k < |s.calls| && !s.bridge.futures[k].Done? && !AnswerAhead(s, k)
    ensures k < |Next(s, step).calls| && !Completed(Next(s, step), k) && !AnswerAhead(Next(s, step), k)
  {
    var t := Next(s, step);
    CompletionStep(s, step, k);
    OwnerStep(s, step, k);
    if Completes(s, step, k) {
      var m := s.links[step.conn].outbox[0];
      assert MessageOk(s, step.conn, m) && m in s.links[step.conn].outbox && ReplyTo(m, m.origin);
      assert MayAnswer(s, m.origin);
    }
    if Owns(t, k) {
      forall j | 0 <= j < |t.calls| && t.calls[j].id == t.calls[k].id ensures !MayAnswer(t, j) {
        CallsKept(s, step, j);
        CallsKept(s, step, k);
        SilentStays(s, step, j);
      }
    }
  }

  lemma {:induction false} NoAnswerRun(s: State, steps: seq<Step>, k: nat)
    requires Inv(s) && k < |s.calls| && !s.bridge.futures[k].Done? && !AnswerAhead(s, k)
    ensures !Completed(Exec(s, steps), k)
    decreases |steps|
  {
    if steps != [] {
      InvStep(s, steps[0]);
      NoAnswerStep(s, steps[0], k);
      NoAnswerRun(Next(s, steps[0]), steps[1..], k);
    }
  }

  /**
   Exactly when a waiting call still has hope: it completes on some future if and only if it
   owns its entry and some command that bears its id may still answer.
   */
  lemma CanCompleteIff(s: State, k: nat)
    requires Inv(s) && k < |s.calls| && s.bridge.futures[k].Pending?
    ensures CanComplete(s, k) <==> AnswerAhead(s, k)
  {
    if AnswerAhead(s, k) {
      var j :| 0 <= j < |s.calls| && s.calls[j].id == s.calls[k].id && MayAnswer(s, j);
      var future := AnswerArrives(s, j, k);
    } else {
      forall future ensures !Completed(Exec(s, future), k) {
        NoAnswerRun(s, future, k);
      }
    }
  }

  // ----- What is in `pending_commands` when callers keep in-flight ids distinct -----

  predicate Live(call: Call) {
    call.phase.Sending? || call.phase.Emitted? || call.phase.Waiting?
  }

  predicate SendSucceeded(call: Call) {
    call.phase.Waiting? || call.phase.Returned? || call.phase.TimedOut?
  }

  predicate IdFree(s: State, id: string) {
    forall j :: 0 <= j < |s.calls| && Live(s.calls[j]) ==> s.calls[j].id != id
  }

  /** Every call of the run starts under an id that no live call is using. */
  predicate Distinct(s: State, steps: seq<Step>)
    decreases |steps|
  {
    steps == [] || ((steps[0].Start? ==> IdFree(s, steps[0].id)) && Distinct(Next(s, steps[0]), steps[1..]))
  }

  ghost predicate LiveIdsDistinct(s: State) {
    forall j, k :: 0 <= j < k < |s.calls| && Live(s.calls[j]) && Live(s.calls[k]) ==> s.calls[j].id != s.calls[k].id
  }

  ghost predicate EntryOk(s: State, k: nat)
    requires k < |s.calls| == |s.bridge.futures|
  {
    && (Live(s.calls[k]) && s.bridge.futures[k].Pending? ==> Owns(s, k))
    && (Owns(s, k) ==> Live(s.calls[k]) || s.calls[k].phase.SendFailed?)
  }

  ghost predicate Tidy(s: State) {
    |s.bridge.futures| == |s.calls| && LiveIdsDistinct(s) && forall k :: 0 <= k < |s.calls| ==> EntryOk(s, k)
  }

  /** Only starting a call or timing one out can take an entry away, and then only under that id. */
  lemma EntryKept(s: State, step: Step, k: nat)
    requires Inv(s) && k < |s.calls| && Owns(s, k)
    requires step.Resume? && step.k < |s.calls| && step.k != k && Live(s.calls[step.k]) ==>
               s.calls[step.k].id != s.calls[k].id
    requires step.Start? ==> s.calls[k].id != step.id
    requires k < |Next(s, step).calls| && Live(Next(s, step).calls[k])
    requires k < |Next(s, step).bridge.futures| && Next(s, step).bridge.futures[k].Pending?
    ensures Owns(Next(s, step), k)
  {
    CallsKept(s, step, k);
    if !step.Deliver? && !step.Resume? && !step.Start? {
      EntriesUntouched(s, step);
    }
  }

  lemma CallsUntouched(s: State, step: Step)
    requires !step.Start? && !step.Emit? && !step.SendReturns? && !step.SendFails? && !step.Resume?
    ensures Next(s, step).calls == s.calls
  {
  }

  /** A call's life only moves on: it ends, or it fails to send, and never starts again. */
  lemma PhaseStep(s: State, step: Step, k: nat)
    requires Inv(s) && k < |s.calls|
    ensures k < |Next(s, step).calls|
    ensures Live(Next(s, step).calls[k]) ==> Live(s.calls[k])
    ensures s.calls[k].phase.SendFailed? ==> Next(s, step).calls[k].phase.SendFailed?
    ensures Live(s.calls[k]) && !Live(Next(s, step).calls[k]) && !Next(s, step).calls[k].phase.SendFailed? ==>
              step.Resume? && step.k == k
  {
    if !step.Start? && !step.Emit? && !step.SendReturns? && !step.SendFails? && !step.Resume? {
      CallsUntouched(s, step);
    }
  }

  lemma ResumeGivesUpEntry(s: State, k: nat, late: bool)
    requires Inv(s) && k < |s.calls| && Live(s.calls[k]) && !Live(ResumeCall(s, k, late).calls[k])
    ensures !Owns(ResumeCall(s, k, late), k)
  {
  }

  lemma EntryStep(s: State, step: Step, k: nat)
    requires Inv(s) && k < |s.calls| && EntryOk(s, k)
    requires step.Resume? && step.k < |s.calls| && step.k != k && Live(s.calls[step.k]) && Live(s.calls[k]) ==>
               s.calls[step.k].id != s.calls[k].id
    requires step.Start? && Live(s.calls[k]) ==> s.calls[k].id != step.id
    ensures Inv(Next(s, step)) && k < |Next(s, step).calls| && EntryOk(Next(s, step), k)
  {
    InvStep(s, step);
    PhaseStep(s, step, k);
    CompletionStep(s, step, k);
    OwnerStep(s, step, k);
    if Live(Next(s, step).calls[k]) && Next(s, step).bridge.futures[k].Pending? {
      EntryKept(s, step, k);
    }
    if step.Resume? && step.k == k && Live(s.calls[k]) && !Live(Next(s, step).calls[k]) {
      ResumeGivesUpEntry(s, k, step.late);
    }
  }

  lemma LiveIdsStep(s: State, step: Step)
    requires Inv(s) && LiveIdsDistinct(s) && (step.Start? ==> IdFree(s, step.id))
    ensures LiveIdsDistinct(Next(s, step))
  {
    var t := Next(s, step);
    forall k | 0 <= k < |s.calls|
      ensures k < |t.calls| && t.calls[k].id == s.calls[k].id && (Live(t.calls[k]) ==> Live(s.calls[k])) {
      CallsKept(s, step, k);
      PhaseStep(s, step, k);
    }
    CallsKept(s, step, |s.calls|);
  }

  lemma TidyStep(s: State, step: Step)
    requires Inv(s) && Tidy(s) && (step.Start? ==> IdFree(s, step.id))
    ensures Tidy(Next(s, step))
  {
    var t := Next(s, step);
    InvStep(s, step);
    LiveIdsStep(s, step);
    forall k | 0 <= k < |s.calls| ensures EntryOk(t, k) {
      EntryStep(s, step, k);
    }
    CallsKept(s, step, |s.calls|);
  }

  lemma {:induction false} TidyRun(s: State, steps: seq<Step>)
    requires Inv(s) && Tidy(s) && Distinct(s, steps)
    ensures Inv(Exec(s, steps)) && Tidy(Exec(s, steps))
    decreases |steps|
  {
    if steps != [] {
      InvStep(s, steps[0]);
      TidyStep(s, steps[0]);
      TidyRun(Next(s, steps[0]), steps[1..]);
    }
  }

  /** Whose entries there are, with in-flight ids distinct: those of live calls and of failed sends. */
  lemma EntriesAreLiveOrFailed(steps: seq<Step>, id: string)
    requires Distinct(INIT, steps) && id in Exec(INIT, steps).bridge.pending
    ensures var end := Exec(INIT, steps);
            var k := end.bridge.pending[id];
            k < |end.calls| && end.calls[k].id == id && (Live(end.calls[k]) || end.calls[k].phase.SendFailed?)
  {
    InvRun(INIT, steps);
    TidyRun(INIT, steps);
    var end := Exec(INIT, steps);
    var k := end.bridge.pending[id];
    assert EntryOk(end, k) && Owns(end, k);
  }

  /** What takes the entry under `id`: a start, a reply, or a timeout under that id. */
  predicate TakesEntry(s: State, step: Step, id: string) {
    match step
    case Start(server, _, other) => other == id && id != "" && server in s.routes
    case Deliver(c) =>
      && c in s.links && s.links[c].outbox != []
      && Reaches(s.links[c].outbox[0]) && s.links[c].outbox[0].id == id
    case Resume(j, late) =>
      && j < |s.calls| && j < |s.bridge.futures| && s.calls[j].phase.Waiting? && s.calls[j].id == id
      && (s.bridge.futures[j].Cancelled? || (s.bridge.futures[j].Done? && late))
    case _ => false
  }

  predicate EverTaken(s: State, steps: seq<Step>, id: string)
    decreases |steps|
  {
    steps != [] && (TakesEntry(s, steps[0], id) || EverTaken(Next(s, steps[0]), steps[1..], id))
  }

  lemma ReplyTakesEntry(s: State, c: nat, k: nat)
    requires Inv(s) && k < |s.calls| && Owns(s, k)
    ensures Owns(DeliverMessage(s, c), k) <==> !TakesEntry(s, Deliver(c), s.calls[k].id)
  {
  }

  lemma TimeoutTakesEntry(s: State, j: nat, late: bool, k: nat)
    requires Inv(s) && k < |s.calls| && Owns(s, k)
    ensures Owns(ResumeCall(s, j, late), k) <==> !TakesEntry(s, Resume(j, late), s.calls[k].id)
  {
  }

  lemma EntryLostIff(s: State, step: Step, k: nat)
    requires Inv(s) && k < |s.calls| && Owns(s, k)
    ensures k < |Next(s, step).calls| && Next(s, step).calls[k].id == s.calls[k].id
    ensures Owns(Next(s, step), k) <==> !TakesEntry(s, step, s.calls[k].id)
  {
    CallsKept(s, step, k);
    match step
    case Deliver(c) => ReplyTakesEntry(s, c, k);
    case Resume(j, late) => TimeoutTakesEntry(s, j, late, k);
    case Start(_, _, _) =>
    case _ => EntriesUntouched(s, step);
  }

  lemma {:induction false} LostForGood(s: State, steps: seq<Step>, k: nat)
    requires Inv(s) && k < |s.calls| && !Owns(s, k)
    ensures k < |Exec(s, steps).calls| && !Owns(Exec(s, steps), k)
    decreases |steps|
  {
    if steps != [] {
      InvStep(s, steps[0]);
      OwnerStep(s, steps[0], k);
      LostForGood(Next(s, steps[0]), steps[1..], k);
    }
  }

  /**
   An entry, such as one that a failed send leaves behind, stays exactly until the first start,
   reply or timeout under its id: nothing else ever removes it.
   */
  lemma {:induction false} EntryStaysIff(s: State, steps: seq<Step>, k: nat)
    requires Inv(s) && k < |s.calls| && Owns(s, k)
    ensures k < |Exec(s, steps).calls|
    ensures Owns(Exec(s, steps), k) <==> !EverTaken(s, steps, s.calls[k].id)
    decreases |steps|
  {
    if steps != [] {
      InvStep(s, steps[0]);
      EntryLostIff(s, steps[0], k);
      if Owns(Next(s, steps[0]), k) {
        EntryStaysIff(Next(s, steps[0]), steps[1..], k);
      } else {
        LostForGood(Next(s, steps[0]), steps[1..], k);
      }
    }
  }

  /**
   With in-flight ids distinct, the entries of calls whose send succeeded are those of the
   calls still waiting: at the end of any such run, a call that waits for its reply has its
   entry, and a call that has its entry is waiting and has no result.
   */
  lemma PendingIsWaiting(steps: seq<Step>, k: nat)
    requires Distinct(INIT, steps) && k < |Exec(INIT, steps).calls| && SendSucceeded(Exec(INIT, steps).calls[k])
    ensures var end := Exec(INIT, steps);
            k < |end.bridge.futures|
            && (end.calls[k].phase.Waiting? && end.bridge.futures[k].Pending? ==> Owns(end, k))
            && (Owns(end, k) ==> end.calls[k].phase.Waiting? && !end.bridge.futures[k].Done?)
  {
    TidyRun(INIT, steps);
    assert EntryOk(Exec(INIT, steps), k);
  }

  /** Starting a call keeps every live call's entry in place exactly when its id is not awaited. */
  lemma StartKeepsEntriesIff(s: State, server: string, request: Request, id: string)
    requires Inv(s) && server in s.routes && id != ""
    requires forall k :: 0 <= k < |s.calls| && Live(s.calls[k]) && s.bridge.futures[k].Pending? ==> Owns(s, k)
    ensures var t := Next(s, Start(server, request, id));
            |t.bridge.futures| == |t.calls|
            && ((forall k :: 0 <= k < |t.calls| && Live(t.calls[k]) && t.bridge.futures[k].Pending? ==> Owns(t, k))
                <==> (forall k :: 0 <= k < |s.calls| && Live(s.calls[k]) && s.bridge.futures[k].Pending? ==>
                       s.calls[k].id != id))
  {
    var t := Next(s, Start(server, request, id));
    assert forall k :: 0 <= k < |s.calls| ==> t.calls[k] == s.calls[k] && t.bridge.futures[k] == s.bridge.futures[k];
  }
}
