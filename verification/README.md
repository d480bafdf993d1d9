# ServerDeck backend and agent: a verified model

ServerDeck relays commands from browsers through a backend to agents on Linux servers, raises
alerts on their telemetry, keeps servers in folders, guards logins with a second factor and
ships its agent as a Debian package.  This project models the stateful and arithmetic cores of
that system in Dafny and proves what they promise over whole runs.  Check it with
`dafny verify dfyconfig.toml`.

Asynchronous code is modelled as a transition system: a step is the code between two awaits of
one task, and a run is any sequence of steps, a step that is not enabled changing nothing.  Code
that mutates dictionaries, rows or fields is a class; each of its methods is proved to make
exactly the transition of a function on values, and the theorems are about those functions.

| file | what it models |
|---|---|
| CommandBridge.dfy | `pending_commands` and its futures, as a value and as the mutable object |
| Relay.dfy | calls, agent sockets and the bridge as one transition system, with its invariant |
| RelayTheorems.dfy | whose answer a call can get, how often futures complete, what is pending |
| AgentConnection.dfy | the agent's dispatcher with its stream and terminal-session maps |
| RelayAgents.dfy | the relay put together with the agent's dispatcher and the backend's registry |
| RelayStreams.dfy | the frames of agents put together with the stream subscriptions and server watches of browser sockets |
| Terminal.dfy | one PTY session under interleaved reads, writes and closes |
| AgentRegistry.dfy | the three registries of connected agents under reconnects |
| Subscriptions.dfy | server watches, ticket watches and streams of browser sockets |
| Breach.dfy, Alerts.dfy | rule evaluation, and the alert table under the sweep and the REST API |
| Folders.dfy | the folder forest under create, delete and move |
| ArArchive.dfy | the ar writer, and a reader that undoes it |
| Totp.dfy, TwoFactor.dfy, TotpLogin.dfy | TOTP verification, the life of a user's second factor, and the two together |
| SchemaParser.dfy | the psql and mysql schema listings |
| Tenant.dfy | tenant names, organisation keys and module lists |

## Where the code does less than one might expect

Each of these is stated exactly, most of them as an if-and-only-if, rather than assumed away.

- A call can be given another command's answer.  Ids come from clients and may be reused: it
  happens exactly when an earlier command with the same id can still answer as the call starts
  (`RelayTheorems.ForeignAnswerIff`).  Keeping ids distinct among the calls in flight is not
  enough (`RelayAgents.TimedOutIdGetsForeignAnswer`).
- A call whose send failed leaves its entry in `pending_commands`, where it stays until a start,
  reply or timeout under its id (`RelayTheorems.EntryStaysIff`).
- A handler's result can bring a `type` field of its own, and `nginx.create` returns the one its
  client chose.  If that is one of the seven texts that the backend branches on, such as
  "register", the site is created and its call, unless another command bears its id, can only
  time out; with any other text, such as the default "backend", it is answered (`RelayAgents.AnswerCompletesIff`,
  `RelayAgents.SiteTypeDecides`).
- When two connections of one server overlap, the first to end unroutes the other
  (`AgentRegistry.RoutingReliableIff`).
- One socket's disconnect cuts off another's stream if it had claimed the same stream id before
  (`Subscriptions.CloseSparesOthersIff`).
- A shell that exits by itself stays registered, so reopening its id reports success and gives
  no shell (`AgentConnections.OpenedIsLiveIff`).
- An open with a window dimension that is not an integer from 0 to 65535 reports an error and
  leaves a forked shell that nothing ever closes (`AgentConnections.OpenLeaksShellIff`).
- Stopping a log stream always reports success.  The stream runs on if its process is still
  being started, or if the shell that was killed leaves other processes on its output
  (`AgentConnections.StopIsEffectiveIff`, `AgentConnections.StopOfOneStream`).
- A stream or session id belongs to whoever claimed it last: a later claim by any browser takes
  over the output of the earlier one's session.  Anybody can end a claim, and the chunks of a log
  stream without one go to all watchers of the server (`RelayStreams.FrameReachesClaimantIff`,
  `RelayStreams.TakenFrameStillReaches`).
- Acknowledging a resolved alert reopens it and can leave two open alerts of one rule
  (`Alerts.AcknowledgeSafeIff`, `Alerts.AcknowledgedTwice`).
- A folder may be moved below itself (`Folders.MoveKeepsForestIff`).
- `verify_totp` reads the clock once per counter, so a call that straddles two time steps skips
  a counter of its window (`Totp.WindowCoveredIff`).
- A TOTP code is accepted as often as it is presented within its window, though section 5.2 of
  RFC 6238 wants it accepted once (`TotpLogin.SameCodeAgain`).
- The handshake token of the first login step is accepted wherever `get_current_user` guards, so
  there a protected user's password alone authenticates for five minutes
  (`TwoFactor.AuthenticatedIff`).
- An organisation whose key contains `tenant_` does not find itself again
  (`Tenant.KeyReadsBackIff`); a user's modules come in the user's order, so they are a sublist of
  the user's list, and of the organisation's exactly when the user's list keeps its order
  (`Tenant.OrganisationOrderIff`).
- A name of more than 15 characters is not cut but shifts the header
  (`ArArchive.ReadsBackIff`).

## Model

| member | source | states |
|---|---|---|
| CommandBridges.CommandBridge.Begin | Backend/app/services/command_bridge.py:39-52 | starting a call enters its future under its id, over whatever was there, and changes no other entry |
| CommandBridges.CommandBridge.ResolveCommand | Backend/app/services/command_bridge.py:19-23 | a reply pops its entry and completes that future only if it is still pending; every entry still points at a future |
| CommandBridges.CommandBridge.TimerFires | Backend/app/services/command_bridge.py:56-61 | a timeout cancels a pending future and leaves a completed one alone |
| CommandBridges.CommandBridge.Finish | Backend/app/services/command_bridge.py:56-61 | the call returns the reply it was completed with, or pops whatever its id maps to and times out: when its future was cancelled, or when the timer fired after the reply came and before the call resumed |
| Relay.InvRun | Backend/app/services/command_bridge.py:26-61 | in every run, whatever callers do: entries belong to calls that bear their id and have no result; a command is emitted once and unanswered while on its way; a reply on its way is what the agent answered to the call it stems from |
| RelayTheorems.ForeignAnswerIff | Backend/app/services/command_bridge.py:19-61 | after any past, a call started under an id can get another command's answer on some future if and only if an earlier call with that id can still answer at that moment |
| RelayAgents.ReusedIdGetsForeignAnswer | Backend/app/services/command_bridge.py:46-52 | a second call under the id of a command that is still out does get its answer on some future |
| RelayAgents.CallReturnsAnswer | Backend/app/services/command_bridge.py:37-61 | a run on which all goes well ends with the call returning the agent's answer and no entry left |
| RelayAgents.FailedSendLeavesEntry | Backend/app/services/command_bridge.py:50-54 | a run on which the send fails ends the call and leaves its entry |
| RelayTheorems.GoneSocketNeverAnswers | Backend/app/ws/agent_handler.py:137-145 | once a call's socket is gone, its command is never answered on any future |
| RelayAgents.TimedOutIdGetsForeignAnswer | Backend/app/services/command_bridge.py:56-61 | so does a call under the id of one that timed out, though no live call uses that id |
| RelayTheorems.ReturnedIsOwnAnswer | agent/serverdeck_agent/connection.py:73-128 | in a run whose calls each start when no earlier command of their id can still answer, every call that returns normally returns the agent's answer to its own command |
| RelayTheorems.TrafficStaysOnRoute | Backend/app/services/command_bridge.py:37-60 | after any run, a call's command and its reply are only ever on the socket its server was routed to when the call started |
| RelayTheorems.FirstInFirstOut | agent/serverdeck_agent/connection.py:73-128 | commands and messages come off a socket in the order in which they went on it |
| RelayTheorems.SocketsMove | agent/serverdeck_agent/connection.py:73-128 | the agent takes the next command and answers it unless it stays quiet; the backend takes the next message |
| RelayTheorems.CallLife | Backend/app/services/command_bridge.py:37-61 | a call is emitted once, waits only after its send returned, times out only then, and returns only what its future holds |
| RelayTheorems.CompletionStep | Backend/app/ws/agent_handler.py:97-135 | a pending future completes exactly when the next message delivered is a reply with its id that takes the command-response branch and it still owns its entry, and then with that reply; a future that is not pending never changes |
| Relay.TagsAre | Backend/app/ws/agent_handler.py:103-130 | which seven texts of a message's type select a branch of their own, and that every other text, or none, makes it a command response |
| RelayTheorems.CompletedForGood | Backend/app/services/command_bridge.py:19-23 | a future that was completed or cancelled keeps that value for the rest of every run |
| RelayTheorems.ReplyCompletesOnlyItsCall | Backend/app/services/command_bridge.py:19-23 | in a run whose calls start under clear ids, delivering a reply completes the call it stems from, if that call still waits and owns its entry, and no other call |
| RelayTheorems.LateReplyIsIgnored | Backend/app/services/command_bridge.py:19-23 | in such a run a reply that comes after its own call was completed or timed out changes no future |
| RelayTheorems.EvictedNeverCompletes | Backend/app/services/command_bridge.py:50-61 | a call that has lost its entry before its answer came never completes, on any future |
| RelayTheorems.CanCompleteIff | Backend/app/services/command_bridge.py:19-61 | a waiting call completes on some future if and only if it owns its entry and some command that bears its id may still answer |
| RelayTheorems.PendingIsWaiting | Backend/app/services/command_bridge.py:50-61 | in every run with distinct in-flight ids, among calls whose send succeeded: one that waits for its reply has its entry, and one that has its entry is waiting and has no result |
| RelayTheorems.EntriesAreLiveOrFailed | Backend/app/services/command_bridge.py:50-61 | in every run with distinct in-flight ids each entry is of a call that bears its id and is live or failed to send |
| RelayTheorems.EntryStaysIff | Backend/app/services/command_bridge.py:46-61 | over any run an entry, such as one a failed send left behind, stays if and only if there is no start, reply or timeout under its id |
| RelayTheorems.StartKeepsEntriesIff | Backend/app/services/command_bridge.py:46-52 | starting a call leaves every awaited entry in place if and only if no awaited call uses its id |
| AgentConnections.AnswersOnce | agent/serverdeck_agent/connection.py:73-128 | an identified command with an action is answered exactly once under its own id, except that input and resize stay quiet unless they raise; one without an action never is |
| AgentConnections.TypedOnlyByHandler | agent/serverdeck_agent/connection.py:97-121 | a reply carries a type field only if the command handler's own result brought it along |
| AgentConnections.OpenRegisters | agent/serverdeck_agent/connection.py:205-240 | an open registers a fresh shell under the session id it gives, or under its own id if it gives none, unless that is taken, the fork fails or a size does not fit; the reply in each case |
| AgentConnections.CloseUnregisters | agent/serverdeck_agent/connection.py:256-266 | a close, whatever id it bears, unregisters the session it names, closes its shell and touches no other |
| AgentConnections.InputReaches | agent/serverdeck_agent/connection.py:244-247 | an input is written to the open shell it names and to no other; it is quiet unless it cannot be encoded |
| AgentConnections.ResizeAnswers | agent/serverdeck_agent/connection.py:249-254 | a resize changes no map and is answered, by an error, exactly if its sizes are infinite or do not fit |
| AgentConnections.CanRaiseIff | agent/serverdeck_agent/connection.py:244-254 | an input or resize can raise exactly if it is answered in some state |
| AgentConnections.OtherAnswers | agent/serverdeck_agent/connection.py:94-128 | every other action: the handler's result under the message's id, or an error |
| AgentConnections.CloseEndsWhatOpenStarted | agent/serverdeck_agent/connection.py:205-266 | on any run between an open and a close of one name, each with an id of its own, without another close of it, the close ends the shell that the open started |
| AgentConnections.WrittenIsTyped | agent/serverdeck_agent/connection.py:244-247 | over any run without a close of it, what was written to a session's shell is what was typed into it while it was open, in order |
| RelayAgents.AnswerCompletesIff | Backend/app/ws/agent_handler.py:103-135 | in a run with clear ids, once the agent has replied as its dispatcher does, the waiting call can complete on some future if and only if it owns its entry and the reply's type is absent or none of the seven special texts, which are listed |
| RelayAgents.SiteTypeDecides | agent/serverdeck_agent/handlers/nginx.py:136-183 | the request's type, or "backend", comes back in the reply, and the call can be answered unless the site is created and that type is one of the seven special texts |
| RelayAgents.CommandReachesItsServer | Backend/app/services/command_bridge.py:37-60 | a call's command and reply are only ever on a socket that had registered for that server, was the registry's for it when the call started, and whose handler was then still running |
| RelayAgents.RoutesAreRegistry | Backend/app/ws/agent_handler.py:91-95 | over any run the sockets calls are routed to are the registry's `agent_by_server_id` after the run's registrations and cleanups |
| AgentConnections.StopIsEffectiveIff | agent/serverdeck_agent/connection.py:83-92 | a stop always reports success, and the stream can still run after it, unasked, if and only if a task of that id was alive other than the registered one, or the registered one's process is not alone on its output |
| AgentConnections.StopOfOneStream | agent/serverdeck_agent/connection.py:143-166 | with one stream asked for, a stop fails while its process is being started, and afterwards exactly if that process is not alone |
| AgentConnections.StreamLifecycle | agent/serverdeck_agent/connection.py:130-197 | a stream's process is entered under its id when it has started, and whatever the id maps to is popped when the stream ends |
| AgentConnections.OnePtyPerOpenSession | agent/serverdeck_agent/connection.py:205-266 | over any run the shells started under a session id are its effective closes plus the one still registered; all sessions keep the lifecycle guarantees |
| AgentConnections.OpenLeaksShellIff | agent/serverdeck_agent/connection.py:211-233 | an open leaves a shell that no future closes if and only if its id is unregistered, the fork succeeds and a window dimension is not an integer from 0 to 65535; it then reports an error |
| AgentConnections.LargeWindowLeaksShell | agent/serverdeck_agent/handlers/terminal.py:48-72 | a window of 65536 rows does it |
| AgentConnections.ClosableIff | agent/serverdeck_agent/handlers/terminal.py:48-72 | a shell can be closed by some run if and only if its start returned; otherwise it keeps its descriptor open on every future |
| AgentConnections.OpenedIsLiveIff | agent/serverdeck_agent/connection.py:211-240 | an open that reports success leaves a live shell exactly when it did not find a registered session that had already ended |
| AgentConnections.EndedSessionStaysRegistered | agent/serverdeck_agent/handlers/terminal.py:87-108 | a shell that exits by itself is closed and still registered |
| AgentConnections.AgentConnection.OnMessage | agent/serverdeck_agent/connection.py:73-128 | one turn of the loop changes the two maps and sends the replies the dispatch relation says, and nothing else |
| AgentConnections.AgentConnection.HandleTerminal | agent/serverdeck_agent/connection.py:205-274 | the terminal branch does what the dispatch relation says: a registered id starts no second shell, a close unregisters before it cleans up |
| AgentConnections.AgentConnection.RegisterStream | agent/serverdeck_agent/connection.py:146-153 | a started process is entered under its stream's id, over whatever was there |
| AgentConnections.AgentConnection.EndStream | agent/serverdeck_agent/connection.py:190-196 | an ended stream pops whatever its id maps to |
| Terminal.LifecycleHolds | agent/serverdeck_agent/handlers/terminal.py:74-150 | under every interleaving: descriptor closed at most once, shell signalled at most once, both exactly when the session is closed; no write to a closed descriptor; at most one terminal_closed, and at most one terminal_output after it |
| Terminal.LateOutputHappens | agent/serverdeck_agent/handlers/terminal.py:87-108 | one terminal_output after terminal_closed does occur, so the bound is tight |
| Terminal.ReaderLeavesIff | agent/serverdeck_agent/handlers/terminal.py:87-110 | the reader leaves its loop exactly at end of file, at a failed send or at a test that finds the session closed |
| Terminal.FramesAdded | agent/serverdeck_agent/handlers/terminal.py:98-147 | a frame goes on the wire only by a delivered chunk or by the close that acted |
| Terminal.ClosedForGood | agent/serverdeck_agent/handlers/terminal.py:118-147 | once closed, a session never reopens its descriptor |
| Terminal.TerminalSession.WriteInput | agent/serverdeck_agent/handlers/terminal.py:74-80 | input reaches the descriptor exactly when the session has one and is not closed |
| Terminal.TerminalSession.CleanupFirstPart | agent/serverdeck_agent/handlers/terminal.py:118-137 | only the first cleanup acts: it closes the descriptor and signals the shell |
| Terminal.TerminalSession.CleanupLastPart | agent/serverdeck_agent/handlers/terminal.py:141-147 | the cleanup that acted sends its one closing frame |
| Terminal.TerminalSession.ReaderTest | agent/serverdeck_agent/handlers/terminal.py:87-98 | the reader goes on exactly while the session is open |
| Terminal.TerminalSession.ReaderSent | agent/serverdeck_agent/handlers/terminal.py:98-108 | a sent chunk is one more frame, and a failed send ends the loop |
| AgentRegistry.LookupIsLastEvent | Backend/app/ws/agent_handler.py:91-95 | the three maps agree, and each lookup is decided by the server's last event alone: that registration's socket and token, or nothing |
| AgentRegistry.RoutedIffLast | Backend/app/ws/agent_handler.py:91-95 | a registration is what commands are routed to if and only if it is its server's last event |
| AgentRegistry.RoutedHandlerIsRunning | Backend/app/ws/agent_handler.py:141-145 | a routed socket's handler has not finished |
| AgentRegistry.RoutingReliableIff | Backend/app/ws/agent_handler.py:91-95 | for each server, whatever others do: every registered, unfinished socket is routed at all times if and only if no two of its connections ever overlap |
| AgentRegistry.OverlappingReconnectIsUnrouted | Backend/app/ws/agent_handler.py:141-145 | the old handler's cleanup leaves the new live socket unrouted |
| AgentRegistry.Registry.Register | Backend/app/ws/agent_handler.py:91-95 | registering appends one registration to the history the maps reflect |
| AgentRegistry.Registry.Cleanup | Backend/app/ws/agent_handler.py:141-145 | cleaning up appends one cleanup to the history the maps reflect |
| Subscriptions.RecordedAlways | Backend/app/ws/client_handler.py:172-207 | in every reachable state each server or ticket forward entry is in its socket's backward set, despite one-sided removals |
| Subscriptions.IndexIsWatching | Backend/app/ws/client_handler.py:172-207 | the two-sided index delivers to a socket exactly when the latest event about it and the key is its watch |
| Subscriptions.DisconnectExact | Backend/app/ws/client_handler.py:442-457 | a disconnect removes the socket from every forward entry and no other socket from any |
| Subscriptions.NoEmptyKeyLeft | Backend/app/ws/client_handler.py:442-457 | nor does a disconnect leave a key behind that nobody watches |
| Subscriptions.BackwardFollows | Backend/app/ws/client_handler.py:172-207 | a watch, an unwatch and a disconnect keep the socket's own set in step |
| Subscriptions.StreamsRecordedAlways | Backend/app/ws/client_handler.py:46-56 | in every reachable state each stream entry is in its subscriber's backward set |
| Subscriptions.CloseExact | Backend/app/ws/client_handler.py:459-462 | after a close a socket gets a stream exactly if it got it before, is another socket, and the closed one never claimed the id |
| Subscriptions.OwnedFollows | Backend/app/ws/client_handler.py:46-56 | a socket's record of its streams gains by a claim, loses by an unsubscribe, not by a failed send, and goes with a close |
| Subscriptions.CloseSparesOthersIff | Backend/app/ws/client_handler.py:459-462 | closing a socket spares all other sockets' streams if and only if it claims no id that another socket gets |
| Subscriptions.StreamGoesToReceiver | Backend/app/ws/client_handler.py:46-56 | with stream ids unshared, a stream goes to its last subscriber until an unsubscribe, a failed send or that socket's close |
| Subscriptions.SharedStreamIsCutOff | Backend/app/ws/client_handler.py:459-462 | with a shared id the first claimant's close cuts off the second |
| RelayStreams.FrameReachesClaimantIff | Backend/app/ws/agent_handler.py:109-129 | after a socket has claimed an id, on any run without a further claim of its own, the next frame of that id reaches it if and only if nothing took the id meanwhile (another claim, an unsubscribe, a failed send, the close of a socket that had claimed it) and the send works, or the frame is one of a log stream, is not delivered to a subscriber, and the socket gets it as a watcher of the server |
| RelayStreams.ForwardedKinds | Backend/app/ws/agent_handler.py:109-111 | what is forwarded are the four kinds of frame, one at a time for each connection |
| RelayStreams.TerminalFrameIsPrivate | Backend/app/ws/agent_handler.py:125-129 | a terminal's frame reaches its subscriber, if the send works, and nobody else |
| RelayStreams.FramesAreConserved | Backend/app/ws/agent_handler.py:97-129 | over any run every frame taken off an agent's socket is settled exactly once or still being sent |
| RelayStreams.BusyHandlerWaits | Backend/app/ws/agent_handler.py:97-129 | while a send is under way its connection is not read |
| RelayStreams.FailedWatchersDrop | Backend/app/ws/client_handler.py:465-476 | a broadcast leaves the watchers whose send worked, and no other |
| RelayStreams.ClosedBrowserGetsNothing | Backend/app/ws/client_handler.py:442-462 | a browser socket that has closed gets no stream and no broadcast, and no other socket loses a watch |
| RelayStreams.LaterClaimTakesOver | Backend/app/ws/client_handler.py:46-48 | a later claim by another socket gets the output of the earlier claimant's session |
| RelayStreams.EndedStreamIsBroadcast | Backend/app/ws/agent_handler.py:125-129 | a chunk of a stream whose claim was ended goes to every watcher of the server whose send works, and to nobody else |
| RelayStreams.TakenFrameStillReaches | Backend/app/ws/agent_handler.py:125-129 | a run on which the claim is ended and both the claimant and another browser get the next chunk, as watchers |
| RelayStreams.LateFailureTakesNewClaim | Backend/app/ws/client_handler.py:479-492 | a claim made while the send to the previous claimant is under way is lost if that send fails |
| Subscriptions.ClientHub.Accept | Backend/app/ws/client_handler.py:148-150 | a new socket starts with empty backward sets and no forward entry changes |
| Subscriptions.ClientHub.WatchServer | Backend/app/ws/client_handler.py:172-185 | a watch is entered on both sides and nothing else changes |
| Subscriptions.ClientHub.UnwatchServer | Backend/app/ws/client_handler.py:203-207 | an unwatch is removed on both sides if the server has an entry |
| Subscriptions.ClientHub.SubscribeTicket | Backend/app/ws/client_handler.py:187-194 | a ticket subscription is entered on both sides |
| Subscriptions.ClientHub.UnsubscribeTicket | Backend/app/ws/client_handler.py:196-201 | and removed on both sides |
| Subscriptions.ClientHub.DropFailedWatchers | Backend/app/ws/client_handler.py:465-476 | sockets whose send failed leave the forward side only |
| Subscriptions.ClientHub.DropFailedTicketWatchers | Backend/app/ws/client_handler.py:495-506 | the same for ticket watchers |
| Subscriptions.ClientHub.ForwardToStream | Backend/app/ws/client_handler.py:484-487 | up to its await it changes nothing and finds the subscriber of the id, if there is one |
| Subscriptions.ClientHub.ForwardFailed | Backend/app/ws/client_handler.py:490-492 | after a send that raised, whoever has the id by then loses it |
| Subscriptions.ClientHub.SubscribeStream | Backend/app/ws/client_handler.py:46-48 | the stream goes to the new socket and is recorded with it; an earlier claimant keeps its record |
| Subscriptions.ClientHub.UnsubscribeStream | Backend/app/ws/client_handler.py:51-56 | the entry and its subscriber's record of it go |
| Subscriptions.ClientHub.LeaveAll | Backend/app/ws/client_handler.py:442-457 | the cleanup loop, in whatever order it visits the keys, takes the socket out of each and deletes the keys left empty |
| Subscriptions.ClientHub.PopAll | Backend/app/ws/client_handler.py:459-462 | the stream loop, in whatever order, removes exactly the recorded ids |
| Subscriptions.ClientHub.CleanUp | Backend/app/ws/client_handler.py:442-462 | the finally block makes the disconnect transition on all six maps |
| Breach.EvaluateRule | Backend/app/services/alert_service.py:14-60 | breached exactly when the metric's condition holds of some matching entry, with the value of the first one found |
| Breach.BreachPersists | Backend/app/services/alert_service.py:32-57 | with data and rule fixed, an offline or certificate breach holds at every later time |
| Breach.PercentageBreachIff | Backend/app/services/alert_service.py:18-31 | with limit t, a CPU, memory or disk rule is breached exactly when its percentage is reported and at least t, memory as the share of used in total |
| Breach.NoThresholdIsZero | Backend/app/services/alert_service.py:19-28 | a rule without a limit acts as one with the limit zero |
| Breach.OfflineIff | Backend/app/services/alert_service.py:32-36 | offline means seen, and last more than five minutes ago |
| Breach.ServiceDownIff | Backend/app/services/alert_service.py:38-43 | a named service is down if some entry of that name has a status other than running |
| Breach.CertificateBreachIff | Backend/app/services/alert_service.py:45-57 | with limit t, breached exactly when a certificate of the domain has a readable expiry at most t whole days away, counted down |
| Breach.DaysLeftFalls | Backend/app/services/alert_service.py:53-55 | the floored day count never rises as time passes, below zero either |
| Alerts.OneOpenAlways | Backend/app/services/alert_service.py:104-158 | in every run of interleaved sweep reads, sweep writes and requests whose acknowledgements are of open records, a rule has at most one open record |
| Alerts.AcknowledgeSafeIff | Backend/app/api/alerts.py:192-201 | an acknowledgement can lead to two open records, now or later, if and only if the record is resolved and its rule has an open record or the sweep is about to open one |
| Alerts.AcknowledgedTwice | Backend/app/api/alerts.py:192-201 | a run of sweeps and one manual resolve after which acknowledging the first alert leaves two open ones |
| Alerts.RecordRequests | Backend/app/api/alerts.py:192-212 | acknowledging and resolving set the status and its time on the one record asked for, and nothing else |
| Alerts.RuleRequests | Backend/app/api/alerts.py:32-80 | rules come enabled, are switched on and off, and go with all of their records and no other |
| Alerts.ListsEnabledRules | Backend/app/services/alert_service.py:99-102 | a listing takes effect exactly if it is the server's enabled rules, each once |
| Alerts.RoundGoesOn | Backend/app/services/alert_service.py:104-158 | the sweep reads its list in order, and a write returns to it unless what it would change is gone, which ends the round |
| Alerts.DisabledRuleIsNotSwept | Backend/app/services/alert_service.py:92-104 | a rule that is and stays disabled, and is not in hand, gets no verdict on any run |
| Alerts.RecordsAreEdges | Backend/app/services/alert_service.py:105-158 | a rule left to the sweep has one record per rise of its breach signal, with the times of that rise and of the following fall, and one is open exactly if the last sweep breached |
| Alerts.EveryRiseIsListed | Backend/app/services/alert_service.py:115-125 | no rise of the signal is missing from those the records stand for |
| Alerts.SystemDetectsEdges | Backend/app/services/alert_service.py:104-158 | the same inside the full system, with other rules' sweeps and requests interleaved at will |
| Alerts.AlertEndsAfterStart | Backend/app/services/alert_service.py:115-158 | under a monotone clock an alert ends no earlier than it starts |
| Alerts.AlertsDoNotOverlap | Backend/app/services/alert_service.py:115-158 | under a monotone clock an alert has ended by the time the rule's next one starts |
| Alerts.LastingAlert | Backend/app/services/alert_service.py:32-57 | with data and rule fixed, an offline or certificate rule has at most one alert, which stays open over all later sweeps |
| Alerts.LastingAlertInSystem | Backend/app/services/alert_service.py:104-158 | the same of the table's own records, with other rules' sweeps and requests interleaved at will |
| Alerts.AlertTable.FindOpen | Backend/app/services/alert_service.py:107-113 | the query returns the first open record of the rule, or none if there is none |
| Alerts.AlertTable.ListRules | Backend/app/services/alert_service.py:99-102 | the sweep lists exactly the rules of the server that are enabled at that moment, each once |
| Alerts.AlertTable.ReadRule | Backend/app/services/alert_service.py:104-113 | the read of the next listed rule, enabled still or not, keeps the verdict and the record found, and changes no record |
| Alerts.AlertTable.WriteRule | Backend/app/services/alert_service.py:115-158 | the write opens or resolves one record of the rule by what the read found, and no other |
| Alerts.AlertTable.AcknowledgeAlert | Backend/app/api/alerts.py:192-201 | a known record of any status becomes acknowledged |
| Alerts.AlertTable.ResolveAlert | Backend/app/api/alerts.py:203-212 | a known record becomes resolved |
| Folders.DeleteIsContraction | Backend/app/api/folders.py:61-69 | deleting keeps a forest; every surviving folder has the ancestors it had, in order, without the deleted one, so exactly its descendants come up one level |
| Folders.DeleteLeavesNoReference | Backend/app/api/folders.py:53-69 | in a forest the owning team's delete succeeds, unlinks exactly the servers inside and leaves nothing pointing at the folder |
| Folders.MoveKeepsForestIff | Backend/app/api/folders.py:71-87 | a move keeps a forest if and only if the new parent is neither the folder nor one of its descendants |
| Folders.MoveSetsParent | Backend/app/api/folders.py:71-87 | a move gives the folder the parent asked for and changes no other row, team or server |
| Folders.MovedBelowParent | Backend/app/api/folders.py:71-87 | after a safe move the folder's ancestors are the new parent and that one's ancestors |
| Folders.CreateAddsFolder | Backend/app/api/folders.py:24-38 | a new folder has its parent, its team and the parent's ancestors; no other row changes |
| Folders.RefusedIff | Backend/app/api/folders.py:24-87 | which requests are refused and why: the folder is not the team's, the parent does not exist, the id is taken |
| Folders.ForestAlways | Backend/app/api/folders.py:24-87 | every run of creates, deletes and moves meeting that condition keeps a forest without dangling references |
| Folders.ForestIffAcyclic | Backend/app/api/folders.py:61-66 | a closed parent table is a forest, every chain of parents ending, if and only if no folder is its own ancestor |
| Folders.FolderTables.CreateFolder | Backend/app/api/folders.py:24-38 | a new folder with an existing parent is added, anything else is refused without a change |
| Folders.FolderTables.DeleteFolder | Backend/app/api/folders.py:40-69 | the three statements together make the delete transition, or report the error and change nothing |
| Folders.FolderTables.MoveFolder | Backend/app/api/folders.py:71-87 | one edge changes, for a folder of the team and an existing parent |
| ArArchive.HeaderLengthIff | agent/build_deb.py:6-11 | a header is 60 bytes if and only if the name has at most 15 characters and the size at most 10 digits, and never shorter |
| ArArchive.HeaderText | agent/build_deb.py:6-11 | a header that fits, character by character: name and slash, the fixed time, owner, group and octal mode, the decimal size, blanks between, and the closing two |
| ArArchive.DigitsAre | agent/build_deb.py:10 | sizes are written in decimal, most significant digit first |
| ArArchive.FixedTexts | agent/build_deb.py:16-23 | the magic, the end of a header and the pad byte |
| ArArchive.MakeArArchive | agent/build_deb.py:13-24 | the writer succeeds exactly for ASCII names, and its loop writes the magic and the members in order |
| ArArchive.ReadsBackIff | agent/build_deb.py:13-24 | a reader recovers exactly the same names and bytes, in order, if and only if every name and size fit |
| ArArchive.ArchiveLength | agent/build_deb.py:16-24 | the total length is 8 plus 60, the size and the pad of each member, and even |
| ArArchive.MemberOffset | agent/build_deb.py:17-23 | each member starts where the archive of the members before it would end; if those fit, at an even offset |
| Totp.TruncationIsRfc4226 | Backend/app/services/totp.py:33-35 | the truncation never leaves the 20-byte digest and is the 31-bit number of section 5.3 of RFC 4226 |
| Totp.SixDigitsReadBack | Backend/app/services/totp.py:36-38 | the six digits printed read back as the value, so comparing codes compares values |
| Totp.PackedIsBigEndian | Backend/app/services/totp.py:31 | the message is the one of eight bytes that reads as the counter, most significant byte first |
| Totp.HotpIsRfc4226 | Backend/app/services/totp.py:31-38 | the code of a counter is exactly what section 5.3 of RFC 4226 shows for the HMAC of that message |
| Totp.VerifyTotp | Backend/app/services/totp.py:13-42 | accepts exactly when the secret decodes and some counter tried matches before packing raises on one |
| Totp.AcceptedIffInWindow | Backend/app/services/totp.py:28-39 | within one time step a code is accepted if and only if, stripped, it is the code of some counter within the window |
| Totp.AcceptedIffRfc6238 | Backend/app/services/totp.py:28-39 | with the clock in one step of 30 seconds, a code is accepted if and only if, stripped, it is what RFC 4226 shows for a message whose counter is within the window |
| Totp.StripsEnds | Backend/app/services/totp.py:38 | stripping removes all white space from both ends and nothing else |
| Totp.BlanksDoNotMatter | Backend/app/services/totp.py:20 | a blank anywhere in a secret does not matter |
| Totp.CaseDoesNotMatter | Backend/app/services/totp.py:20 | nor does the case of its letters |
| Totp.FilledUp | Backend/app/services/totp.py:21-23 | a clean secret is filled up with = to whole groups of eight and not altered |
| Totp.EarlyClockRejects | Backend/app/services/totp.py:28-30 | before the window fits above zero nothing is accepted |
| Totp.DriftIsTolerated | Backend/app/services/totp.py:28-39 | a code is accepted at any time at most 30 seconds times the window from when it was made |
| Totp.WindowCoveredIff | Backend/app/services/totp.py:28-30 | with a monotone clock the whole window is tried if and only if all its readings fall into one time step |
| Totp.GeneratedSecretIsNormal | Backend/app/services/totp.py:8-11 | a generated secret passes normalisation and padding unchanged |
| Totp.GeneratedIs | Backend/app/services/totp.py:8-11 | a generated secret has the 16 picked characters of the base32 alphabet |
| TwoFactor.FieldsStayConsistent | Backend/app/api/users.py:275-500 | after every run: enabled exactly when a method is set; disabled means no TOTP secret; TOTP means a non-empty secret and no pending code; hash and expiry come and go together |
| TwoFactor.GuardedOutcomes | Backend/app/api/auth.py:362-384 | a protected user gets an access token, or is unprotected again, exactly when a right code was presented for the method in force |
| TwoFactor.SetupOutcomes | Backend/app/api/users.py:275-349 | setup offers a secret or mails a code, good for 300 seconds, exactly to an unprotected user who asks for that method |
| TwoFactor.VerifyOutcomes | Backend/app/api/users.py:352-426 | verifying enables a method exactly when a right code for it is presented, then with exactly its own secret and nothing pending; otherwise only an expired code is dropped |
| TwoFactor.LoginOutcomes | Backend/app/api/auth.py:245-265 | the first step gives a token exactly to an unprotected user, and mails a code for that method |
| TwoFactor.SecondStepOutcomes | Backend/app/api/auth.py:335-405 | the second step gives a token exactly for a right code of the method in force, and uses up a mailed one |
| TwoFactor.DisableOutcomes | Backend/app/api/users.py:429-500 | disabling mails a code on request and clears all five fields exactly for a right code |
| TwoFactor.MailedCodeGetsInIff | Backend/app/api/auth.py:370-384 | a code mailed at a login gets in exactly if it is that code, within 300 seconds |
| TwoFactor.AuthenticatedIff | Backend/app/middleware/auth.py:16-43 | a protected user's request hands out a token that other requests accept if and only if it is a second step with a right code or a first login step, whose handshake token is accepted too |
| TotpLogin.TotpLoginIff | Backend/app/api/auth.py:366-369 | a TOTP user gets an access token at the second step if and only if the stripped code is what RFC 4226 shows, under the secret in force, for a counter at most one 30-second step from the clock's |
| TotpLogin.SameCodeAgain | Backend/app/api/auth.py:366-369 | within one step of its counter a code gives a token each time it is presented |
| TwoFactor.CodesAreConserved | Backend/app/api/auth.py:335-405 | over any run each mailed code is accepted at most once, accepted and pending codes never exceed those issued, and access tokens to a protected user equal the codes accepted at the second step |
| TwoFactor.AcceptedCodeIsLatest | Backend/app/api/auth.py:370-384 | an accepted mailed code is the last one issued, at most five minutes old and not accepted before |
| TwoFactor.UserRecord.Setup | Backend/app/api/users.py:275-349 | only an unprotected user is offered a secret or mailed a code; no method is enabled yet |
| TwoFactor.UserRecord.Verify | Backend/app/api/users.py:352-426 | the method is enabled with its own secret and without leftovers, an expired code is cleared, all else is refused unchanged |
| TwoFactor.UserRecord.Login | Backend/app/api/auth.py:245-265 | an unprotected user gets a token, a protected one is asked for a code, freshly mailed for the mail method |
| TwoFactor.UserRecord.LoginSecondStep | Backend/app/api/auth.py:335-405 | the step makes the transition of its method and uses up a mailed code |
| TwoFactor.UserRecord.DisableTwoFactor | Backend/app/api/users.py:429-500 | a right code clears all five fields, a request for one mails it, all else is refused unchanged |
| SchemaParser.GroupLines | agent/serverdeck_agent/handlers/sql.py:447-459 | the loop lists exactly the tables of the lines in order of first appearance, each with exactly its own lines' columns in order |
| SchemaParser.ParsePgSchema | agent/serverdeck_agent/handlers/sql.py:447-459 | the grouping of all lines, nullability in the fifth field |
| SchemaParser.ParseMySqlSchema | agent/serverdeck_agent/handlers/sql.py:462-477 | the grouping of the lines after the first, nullability in the fourth field |
| SchemaParser.ColumnsAreUsableLines | agent/serverdeck_agent/handlers/sql.py:450-458 | the columns of all tables together are as many as the lines with at least three fields |
| SchemaParser.LineMeans | agent/serverdeck_agent/handlers/sql.py:450-456 | a line counts from three fields on; its first field is the table, the next two the column, and a line too short for the flag is nullable |
| SchemaParser.LinesEndAnyhow | agent/serverdeck_agent/handlers/sql.py:450 | every line ending splits, a carriage return with a line feed once, and the last line needs none |
| SchemaParser.PgRoundTrip | agent/serverdeck_agent/handlers/sql.py:447-459 | printing rows without tabs and line breaks and parsing them gives back the tables in order of first appearance and each table's columns in order |
| SchemaParser.MySqlRoundTrip | agent/serverdeck_agent/handlers/sql.py:462-477 | the same after a header line |
| Tenant.KeyReadsBackIff | Backend/app/services/tenant.py:227-228 | the key read back from a schema name is the organisation's own if and only if it does not contain the prefix |
| Tenant.FirstLabelIs | Backend/app/services/tenant.py:25-28 | on the text of an address: the label is what the trimmed domain between the first and a second @ has before its first dot, and there is none without a dot |
| Tenant.IndividualIff | Backend/app/services/tenant.py:21-47 | on the text of an address: it is personal if and only if the first label of its domain is a common one, it lands in the shared tenant if and only if it is personal or that label is "individual", and it otherwise gets the label as its key |
| Tenant.ResolvedIsIntersection | Backend/app/services/tenant.py:212-238 | a non-support user has exactly the organisation's modules that the user's own list, if any, also has, in that list's order |
| Tenant.FilteredJoined | Backend/app/services/tenant.py:235-236 | filtering keeps each entry as often as it was there, and in place |
| Tenant.ResolveAfterUpdate | Backend/app/api/users.py:85-95 | resolving right after an update with the organisation unchanged gives the list just stored |
| Tenant.UpdateStores | Backend/app/api/users.py:85-92 | an update stores the requested modules that the organisation has, in the order requested, or no list |
| Tenant.OrganisationModules | Backend/app/services/tenant.py:227-233 | an organisation that finds itself has the list it set, and anything else the default list |
| Tenant.SupportModules | Backend/app/services/tenant.py:224-225 | a support user has the tickets and settings modules |
| Tenant.OrganisationOrderIff | Backend/app/services/tenant.py:212-238 | a non-support user's modules are a sublist of a duplicate-free organisation's if and only if there is no list of the user's own or its entries that the organisation has stand in the organisation's order |
| Tenant.OrderIsTheUsers | Backend/app/services/tenant.py:235-236 | two modules stored the other way round are a case where they are not |

## Left out

- FastAPI routing, Pydantic schemas, SQLAlchemy sessions and search paths: a table is a map and a committed request is one step, except that the alert sweep reads and writes in two.
- Two requests on one user record that interleave between their read and their commit.
- Folders.FolderTables.DeleteFolder: for a folder that is its own parent, what the ORM's cascade does to its children is not modelled; the model refuses the delete when it would leave a dangling reference.
- Authorization of browser messages (server ownership, enabled modules) and the audit log.
- The `is_online` flag, which is written in transactions of its own around registration and cleanup.
- Cancellation of a waiting call at process shutdown.
- Fire-and-forget terminal commands (Backend/app/ws/client_handler.py:59-71): they enter no future, and their ids are fresh random ones, so their replies resolve nothing.
- RelayTheorems.ForeignAnswerIff: whether the session of an input or resize command with parameters that can raise is open on the agent is left open in the relay, so such a command counts as able to answer.
- Iterating over a set of watchers that another task changes: a forward drops an arbitrary set of failed sockets.
- What the host's shell does with a stream's command: whether the process started is alone on the output is given with the request.
- AgentConnections.StopIsEffectiveIff: lines that a killed process had already written are still read and sent, and do not count as the stream running on.
- The read of a chunk in an executor thread while the descriptor is closed and reused by the operating system.
- HMAC-SHA1, base32 decoding, bcrypt, JSON web tokens and random numbers: parameters or given values; bcrypt is idealised as verifying exactly the hashed code.
- Totp.GeneratedSecretIsNormal: `upper()` is modelled for ASCII letters only.
- Tenant.OrganisationOrderIff: an organisation whose stored list names a module twice.
- Tenant.IndividualIff: `strip().lower()` is a parameter, as it does not matter which text function it is.
- Percentages are reals and times are whole seconds or microseconds; floating-point rounding is not modelled.
- `_parse_psql_output` and `_parse_mysql_output`, the SQLite branch, ticket CRUD, dashboards, waitlist, migrations, shell-out handlers, diagnosis and e-mail: single-branch code, external commands or network calls.
