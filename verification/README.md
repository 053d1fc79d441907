# opp: a verified model of the broker

`opp` keeps one broker process per user. The broker owns a retained terminal, remembers which 1Password
accounts the user has authorized, and runs every `op` subprocess itself. Client handler threads feed a bounded
queue; one executor thread (the "actor") takes requests from it, and a stop handshake ties the accept loop,
the handlers and the executor together. This project models that broker, its wire protocol and the front end
of `opp exec`, and proves what they promise.

To check the whole project, run `dafny verify dfyconfig.toml` in this directory.

## Structure

| files | what they model |
|---|---|
| `Base`, `Messages` | shared types, saturating 64-bit time (`src/clock.rs`), requests, responses and events |
| `Threads` | the broker process as interleaved atomic steps: the accept loop (`src/broker.rs:200-252`), any number of handlers (`src/broker.rs:288-408`) and the executor loop (`src/broker.rs:472-541`), one action per shared-memory operation |
| `ThreadInvariants`, `ThreadTheorems`, `ThreadAnswers` | the inductive invariant of that system, what follows from it, and what handlers tell their clients |
| `Supervision` | the polling loop over one child (`src/process.rs:65-245`) against an adversarial environment |
| `Control` | the three atomics of a request and the thread that monitors its connection |
| `Authorization`, `AuthorizationTheorems` | the history of clock samples, children and state changes; the map as a reading of it |
| `Requests`, `Rounds` | what a request may do and how it is answered, and iterations of the executor's loop with the samples they decided on, as relations |
| `Surroundings`, `Actor` | everything the executor talks to, and `BrokerActor` as a class whose methods are proved against the history they append to and those relations |
| `Utf8`, `Encoding`, `Parsing`, `Codec` | the request codec: encodings, readers, and the buffer-growing encoder and offset-advancing decoder proved against them |
| `Replies`, `Frames` | response and event frames; framing and preambles over a stream that may be cut anywhere |
| `Decimals`, `Durations`, `ExecArguments` | the duration parser and the `opp exec` front end |
| `EndToEnd`, `Examples` | whole messages: what the client accepts, the broker accepts; what the broker reports, the client reads; and messages as their bytes on the wire |

A specification function (`Threads.Apply`, `Authorization.Play`, `Parsing.ReadRequest`, `Durations.Meaning`, …)
is a definition; the rows below name the methods proved to compute it and the lemmas about it.

What the model shows about the code, beyond what a reader would expect of it:

- A client finds the queue full in one situation only, which `FullExactlyWhen` states as an equivalence: main's own
  `Stop` is queued, and so is a message of each of the 63 other connections there can then be. Main sends that `Stop`
  only when `accept` itself failed, so `QueueNeverOverflows` holds on every run in which it did not, whatever else
  failed; `AcceptErrorCanOverflow` gives a run in which it did.
- Back-to-back maintenance is not bounded by the number of accounts due when it began: an account may come due
  meanwhile and be picked first, and one that was checked is due again one interval later (`CheckedIsDueAgain`, an
  equivalence). `MaintenanceDrains` bounds it by the accounts that come due within one interval, for samples in that
  interval, and `WindowIsNeeded` gives two iterations, from records that a history of the broker leaves, that break
  the bound with the second sample at its very end.
- The client sends a variable whose name holds an equals sign, which an environment can contain, and the broker then
  refuses the whole request. `AcceptedCommandArrives` states acceptance as exactly the absence of such a name, and
  `EqualsSignIsRefused` gives an environment that has one.
- A natural exit may be reported with the child's streams still open when a shutdown is noticed between the latch
  check and the exit test of the same poll (`src/process.rs:217`, `src/process.rs:234`). `WaitInner` carries that case.
- A passed check takes its account out of the due set except at the very last nanosecond of 64-bit time, where the
  saturated next probe is due at once (`PassedIsNoLongerDue` is an exact statement, with both cases).
- The cancelled arm of maintenance (`src/broker.rs:778`) cannot be taken: nobody else holds that control.

Assumptions, all stated in contracts or types: atomics are sequentially consistent; the monotonic clock never
decreases and is 64-bit; `waitpid` reports exit codes 0 to 255 and signals 1 to 127; a `sendmsg` on a stream
attaches its descriptors to the first byte it sends.

## Model

| member | source | states |
|---|---|---|
| ThreadInvariants.StepKeeps | src/broker.rs:200-252 | Every step of main, any handler or the actor keeps one invariant: at most 64 live handlers, each holding at most one queued message; a queued request has its sender waiting; exactly the envelope in hand is neither queued nor answered; whoever requested a stop still owes its acknowledgement |
| ThreadInvariants.ExecutionKeeps | src/broker.rs:173-252 | The invariant holds in every state of every schedule from start-up |
| ThreadInvariants.ClientMoves | src/broker.rs:288-408 | A handler step changes only that handler, adds at most its own one message, and never touches a message it already has queued |
| ThreadInvariants.DequeueKeeps | src/broker.rs:475-499 | Taking the oldest message changes only its sender's queued mark and keeps counts, distinct senders and addressees |
| ThreadTheorems.RoomForEverySender | src/broker.rs:178-230 | A handler about to submit or to send a stop finds a free place unless main's own stop is queued, because the same constant caps live handlers and sizes the channel |
| ThreadTheorems.FullExactlyWhen | src/broker.rs:393-401 | A handler about to send finds the channel full if and only if main's stop is in it together with a message of 63 handlers |
| ThreadTheorems.QueueNeverOverflows | src/broker.rs:393-408 | On every run in which `accept` has not failed, failed connection setups included, no `try_send` sees a full channel, the stop send never blocks, and no client is told the queue is full, also in the window after the final drain |
| ThreadTheorems.AcceptErrorCanOverflow | src/broker.rs:235-239 | A reachable run in which `accept` fails with all connections in use and a client is told the queue is full |
| ThreadTheorems.EnvelopesResolvedOnceInOrder | src/broker.rs:393-541 | At all times resolved, in-hand and queued envelopes are together exactly the submitted ones in submission order, and one left unanswered implies shutdown |
| ThreadAnswers.HandlersPassOnAnswers | src/broker.rs:304-391 | In every state of every schedule, a handler that replies passes on exactly the answer its own last envelope was resolved with, or that the queue was full when the channel refused it; it reads a second, warned start only when its first, unwarned one was answered that a warning is needed |
| ThreadAnswers.AnswersAreChosen | src/broker.rs:494-541 | Every resolution was made by one step of the actor: with the answer that step chose for the request in hand, as failed when drained, or unanswered |
| ThreadAnswers.WarnedStartIsSubmitted | src/broker.rs:304-330 | A reachable run in which an unwarned start is answered that a warning is needed and its handler submits the warned one |
| ThreadTheorems.NobodyLeftWaiting | src/broker.rs:336-391 | A handler blocked in `recv` has its envelope either queued or in the actor's hand, never both, and none remains once the actor has returned |
| ThreadTheorems.StopReplyMeansQuiescence | src/broker.rs:291-300 | From the moment a stop reply is about to be written, and ever after, the actor has left its loop, records are empty, the terminal is closed, the listener is dropped, removal was attempted, and no child is spawned |
| ThreadTheorems.QuiescenceLasts | src/broker.rs:492-502 | No step of any thread leaves quiescence or starts a child in it |
| ThreadTheorems.NormalReturnFollowsReply | src/broker.rs:243-251 | Main returns normally only after a stop was requested, a reply attempted and acknowledged, and the actor joined |
| ThreadTheorems.StepDescends | src/broker.rs:200-252 | Once shutdown is set it stays set, and every enabled step of every thread lowers one numeric rank |
| ThreadTheorems.SomeThreadCanStep | src/broker.rs:243-251 | While main has not returned, some thread can step without help from a peer: no wait on the three flags, the join or the stop send is stuck |
| ThreadTheorems.ShutdownCompletes | src/broker.rs:200-252 | After shutdown every schedule has at most 867 more steps, and one that can only wait for peers has main returned |
| Supervision.Reap | src/process.rs:209-214 | `waitpid` is called once per poll until the leader is reaped, and never afterwards |
| Supervision.Escalate | src/process.rs:216-231 | One poll's latch and signals extend the escalation exactly: TERM at the first reason (shutdown, then cancellation, then deadline), KILL at the first later sample past the grace period |
| Supervision.TryLeave | src/process.rs:233-238 | The loop ends exactly when the leader is reaped, streams are closed or shutdown is set, and, once terminating, the group is gone; the outcome is the reaped status, or the reason latched first |
| Supervision.Pause | src/process.rs:240-243 | Every sleep lasts ten milliseconds, or exactly up to a nearer deadline, but at least one millisecond |
| Supervision.WaitInner | src/process.rs:194-245 | For every environment: without a signal sent, the outcome is the status of the one leader reaped; otherwise it is the reason of the first poll that had one, the signals are the whole escalation and the group is gone; it left at the first poll that allowed it, and after each poll but a last one it slept as long as `Pause` says |
| Supervision.EscalationIsDetermined | src/process.rs:216-231 | An environment admits only one escalation |
| Supervision.TermThenKill | src/process.rs:224-231 | TERM once and first, KILL at most once, later, and at least two seconds after it unless 64-bit time ends before |
| Supervision.NaturalEnd | src/process.rs:208-285 | A wait that sent no signal saw no shutdown, no cancellation and no sample past the deadline in any poll, and reports exit code `c` if and only if the last `waitpid` returned exit status `c`, and signal `n` if and only if it returned that signal or, for 9, another status |
| Supervision.ForcedEnd | src/process.rs:216-238 | A wait that sent a signal reports the first disturbed poll: shutdown before cancellation, with the signal read there, before the deadline; the group was gone when it left |
| Supervision.SupervisedMeetsContract | src/process.rs:194-245 | What callers rely on: a natural end means the last deadline sample was before the deadline, a timeout means it was not, a cancellation or shutdown means somebody asked, with the signal a poll read; an exit code is the status of the reaped leader; codes are in range |
| Supervision.WaitIsBounded | src/process.rs:208-244 | With a deadline, sleeps at least as long as the loop asks for, and an environment that reacts to KILL within B polls, the loop ends within a bound computed from deadline, grace period and B |
| Supervision.Supervise | src/process.rs:66-169 | `run` and `probe`: a returned outcome meets the contract, and an exit code is one `waitpid` returned; after an error a spawned child was reaped or killed and collected; the terminal is handed back whenever it was handed over |
| Control.RequestControl.CancelWith | src/process.rs:26-29 | Cancelling makes two stores, the signal before the flag |
| Control.RequestControl.Disconnect | src/process.rs:31-34 | Hanging up makes two stores, streams then flag, and none to the signal |
| Control.RequestControl.CloseStreams | src/process.rs:36-38 | One store, to the stream flag alone |
| Control.SendEvent | src/protocol.rs:312-320 | An event is sent exactly when its signal is a caller signal, as exactly its frame |
| Control.ReceiveEvent | src/protocol.rs:322-336 | An event is what the next frame reads as, however the stream is cut |
| Control.Monitor | src/broker.rs:364-377 | The monitor thread makes exactly the stores of the events it heard and then hangs up; from a client that sent a list of events and disconnected it heard exactly that list |
| Control.CancelledSignal | src/broker.rs:843-853 | Between any two of the monitor's stores: who sees the request cancelled and then reads its signal gets one that the client sent, or zero because it never sent any |
| Control.SeenBetween | src/process.rs:25-47 | After any number of the monitor's stores, the signal is that of the last cancellation begun, or zero; the streams are closed exactly if such an event or the hang-up was begun; the request is cancelled exactly if a whole cancellation or the hang-up is done |
| Control.CancelledFrom | src/process.rs:26-47 | From when a cancellation is stored, or the monitor has hung up, the request is cancelled |
| Authorization.ActiveExactlyWhenGranted | src/broker.rs:543-602 | In every lawful history an account is active with deadline `d` if and only if some successful explicit authorization started one hard limit before `d` (or `d` is the end of 64-bit time) and since met neither a failed check of any account, nor the final clear, nor an expiry sample a whole hard limit after its start or at the end of 64-bit time |
| Authorization.OneGrantPerAccount | src/broker.rs:565-596 | That authorization is unique |
| Authorization.ChecksKeepHardDeadlines | src/broker.rs:734-743 | An automatic check that did not fail changes nothing but the next probe of its own account |
| Authorization.PassedDoesNotExtend | src/broker.rs:655-662 | Whether the grant survives the guard after a check does not depend on the check |
| Authorization.SpellLeadsAfter | src/broker.rs:543-702 | Replaying a whole block's events leads to the records the block is said to leave |
| Authorization.SamplesInOrder | src/clock.rs:12-42 | In a history whose every sample is no earlier than the latest one before it, any two samples are in order |
| AuthorizationTheorems.TraceIsWords | src/broker.rs:472-503 | The trace of the children attempted in every history, those that could not be started included, is a concatenation of indivisible blocks: `vault list`; failed `whoami`; passed `whoami`, `vault list`; both passed, then one command, each block for one account |
| AuthorizationTheorems.WordsAreUnique | src/broker.rs:704-747 | A trace can be cut into such blocks in only one way |
| AuthorizationTheorems.AuthorizedFollowsPrompt | src/broker.rs:565-596 | Nothing authorizes an account but a prompt for it that exited 0, with its last sample less than the prompt's timeout after its start |
| AuthorizationTheorems.ChecksFailExactlyWhen | src/broker.rs:641-653 | All accounts are invalidated right after a probe that was not run, timed out, was killed or exited with another code than 0, and after nothing else: not after one that was cancelled or cut short by a shutdown |
| AuthorizationTheorems.CommandsWithinHardLimit | src/broker.rs:655-672 | Every command comes right after two samples: an expiry sample less than the hard limit after the start of the grant it runs on, however many checks passed in between, and then one for its own account, to which its deadline adds the requested timeout (as far as 64 bits go) |
| AuthorizationTheorems.ChecksWithinOneBudget | src/broker.rs:704-747 | A passed check ran both commands to exit 0 under one deadline, the check timeout after one sample taken before the first, with the last sample of each before that |
| AuthorizationTheorems.NextProbeFollowsSuccess | src/broker.rs:738-742 | An active account's next probe is one interval after its latest success of either kind, or at the end of 64-bit time before that |
| AuthorizationTheorems.PassedIsNoLongerDue | src/broker.rs:736-742 | A passed check removes exactly its account from the due set of any earlier instant, except where 64-bit time saturates |
| AuthorizationTheorems.MaintenanceShrinksDue | src/broker.rs:766-780 | A maintenance check of a due account, passed or failed, strictly shrinks the set due at that instant |
| AuthorizationTheorems.CheckedIsDueAgain | src/broker.rs:736-742 | After a passed check an active account is due again exactly from one interval later on |
| AuthorizationTheorems.HistoryLeads | src/broker.rs:472-503 | From any point on, the records of a lawful history are what the effects of its later blocks make of those at that point |
| Requests.CancelledView | src/broker.rs:843-853 | Wherever the executor looks, a cancelled control belongs to a connection and shows a signal its client sent, or zero if it never sent one |
| Requests.HandledAsks | src/broker.rs:505-541 | Handling a request appends a prompt only for that very warned start with the pinned path, and a command only for that very exec, with its account, arguments and timeout |
| Requests.CancelledByClient | src/broker.rs:843-853 | A request answered as cancelled carries 128 plus a signal its client sent, or says only that it was cancelled when the client never sent one |
| Requests.CancelledInTheQueue | src/broker.rs:505-515 | A request whose client had cancelled or hung up when it was taken from the channel starts nothing, and is answered as cancelled in the way of its kind |
| Requests.AcceptedIsActive | src/broker.rs:543-602 | `start` answers that it succeeded exactly when the path is the pinned one and the account is active afterwards, that a warning is needed exactly for an unwarned one that is not, and that authorization failed exactly when its prompt did |
| Requests.ExecuteAnswers | src/broker.rs:621-701 | An exec that ran its command is answered by how that ended: exit code, 128 plus the signal, 124 with the timeout diagnostic, not started, a cancellation, or nothing at shutdown; without a command it says that authorization is required or that it was cancelled; only a timeout is diagnosed |
| Rounds.MaintenanceDrains | src/broker.rs:473-482 | Consecutive iterations that maintain, each with its own expiry and its own fresh sample, number at most the active accounts whose next probe falls before the end of an interval that holds all the samples, a check cut short by a shutdown included |
| Rounds.MaintenanceDropsDue | src/broker.rs:474-482 | One such iteration strictly shrinks the set of accounts that come due before the end of the interval |
| Rounds.WindowIsNeeded | src/broker.rs:478-482 | From the records a lawful history in time order leaves, with the broker's own timings: two consecutive maintenance iterations of its single account, the second sampled exactly one interval after the first, exceed that bound, and the history they extend is lawful and in time order too |
| Rounds.RunSourced | src/broker.rs:472-541 | In any run of iterations every explicit block comes from a received warned start with the pinned path, and every command from a received exec for its account, arguments and timeout |
| Surroundings.World.RunChild | src/process.rs:171-192 | An ended child ended as supervision of what its wait observed ends; the control showed that between the start and the end of the run, the flag was as before or after; a cancelled run carries the signal its caller's control showed then |
| Surroundings.ObservedIsAttributable | src/process.rs:217-221 | Whatever a wait reads of the control while its monitor runs is a cancellation by the caller, with a caller's signal or none |
| Surroundings.SuccessWasReaped | src/process.rs:208-285 | A child that counts as having exited 0 had its leader reaped, once, with exit status 0 |
| Surroundings.CancellationWasShown | src/process.rs:216-221 | A child that counts as cancelled with a signal was shown just that, cancelled, by its caller's control during the run |
| Surroundings.LateChildIsCutShort | src/process.rs:216-231 | A child begun after its caller had cancelled, or during a shutdown, never counts as having ended by itself |
| Actor.CancelResponse | src/broker.rs:843-853 | A cancelled request is reported as 128 plus the signal its control shows at a moment between the call's begin and its answer, which its client sent, or as cancelled when it never sent one |
| Requests.CommandResponseReadable | src/broker.rs:681-701 | However a supervised command ends, its report carries an exit code in 0..=255, which is the command's if it exited; only a timeout is diagnosed, and only a shutdown goes unreported |
| Actor.BrokerActor.constructor | src/broker.rs:447-470 | A new actor has no records and an empty history |
| Actor.BrokerActor.RecordsMatchHistory | src/broker.rs:472-503 | Between any two requests of any actor: an account is active with a deadline exactly when its log holds the grant; the children it ran, in order, are whole blocks; the log's clock samples are in order and none lies in the future; and every command ran within the hard limit, under its own timeout |
| Actor.BrokerActor.ActiveWasReaped | src/broker.rs:565-596 | Every active account was granted on a prompt for it that is among the children run, whose leader was reaped, once, with exit status 0 |
| Actor.BrokerActor.ExpireRecords | src/broker.rs:788-796 | One sample; exactly the active records at or past their hard deadline become required, in any visiting order |
| Actor.BrokerActor.InvalidateRecords | src/broker.rs:782-786 | Every record becomes required |
| Actor.BrokerActor.AutomaticCheck | src/broker.rs:704-747 | `whoami`, then `vault list` only after exit 0, both under one deadline, the check timeout after one sample; only full success changes the map, and only the next probe |
| Actor.BrokerActor.RunRecorded | src/broker.rs:749-764 | A child is recorded as it ran, for the caller whose control alone could cancel it: the log's children and the world's stay the same sequence |
| Actor.BrokerActor.Start | src/broker.rs:543-602 | After one expiry, a mismatching path, an active account or an unshown warning is answered without any child; otherwise exactly one explicit block for that account follows, and its end decides the answer: accepted exactly if the account is now active under the pinned path |
| Actor.BrokerActor.Prompt | src/broker.rs:565-581 | The account is required while the prompt runs, under a deadline of the explicit timeout after a clock sample taken after the call and before the child |
| Actor.BrokerActor.Authorize | src/broker.rs:565-601 | One explicit block is appended to a history that stays lawful, in time order and equal to the map: active exactly on exit 0, until one hard limit after the sample between the call and the prompt, with the next probe one interval after the sample at its end; every child is the caller's |
| Actor.BrokerActor.Status | src/broker.rs:604-619 | No child runs, and the report shows the record as it is now, after expiry |
| Actor.BrokerActor.Execute | src/broker.rs:621-702 | All endings: not active, cancelled or shut down during the check, check failed, grant expired during the check, or exactly the requested command under its own timeout from a sample after the guard, answered by how it ended: its exit code, 128 plus its signal, 124 with the timeout diagnostic, not started, a signal its client sent, or nothing at shutdown; every child is the caller's |
| Actor.BrokerActor.Guard | src/broker.rs:655-662 | After a passed check the command may run only if the grant is live at a fresh sample |
| Actor.BrokerActor.RunCommand | src/broker.rs:664-679 | The requested arguments run under a deadline of the requested timeout after a sample between the guard and the child; if it ended as cancelled, with the signal its caller's control showed meanwhile |
| Actor.BrokerActor.Handle | src/broker.rs:505-541 | The control is read once, between the call and the return: if cancelled then, nothing is started, no child runs, no record changes and the answer is the cancelled one for that kind of request; otherwise the blocks and the answer are those of `start`, `status` or `execute` of exactly this request, with all later readings of the control before the return |
| Actor.BrokerActor.EndCheck | src/broker.rs:641-653 | A check that did not pass ends the exec: cancelled, shut down, or failed with every record invalidated |
| Actor.BrokerActor.Maintain | src/broker.rs:766-780 | One check nobody can cancel, begun no earlier than the call; it strictly shrinks the set due at any earlier instant, or the broker is shutting down |
| Actor.BrokerActor.DueMaintenance | src/broker.rs:798-808 | Some account due at the sample taken, or none is due at it |
| Actor.BrokerActor.NextWait | src/broker.rs:810-823 | The wait ends exactly at the nearest next probe or hard deadline of any active account, is zero if that is past, and 100 ms if there is none |
| Actor.BrokerActor.IdleWait | src/broker.rs:483-484 | The wait reaches past no active account's next probe or hard deadline, and nothing but the nearest one or 100 ms limits it |
| Actor.BrokerActor.Idle | src/broker.rs:483-488 | With nothing due at the given sample, the executor waits for a message no longer than that, and serves exactly what came; it runs no children but the served caller's |
| Actor.BrokerActor.Serve | src/broker.rs:538-540 | A request taken from the channel is handled, with the control read no earlier than the receive and no later than its one answer, which is sent just before the return; all children run meanwhile are its caller's |
| Actor.BrokerActor.Round | src/broker.rs:473-490 | One iteration: a shutdown loaded at its head changes nothing; otherwise one expiry, and then, by what was received, one request served alone and answered, the control read between its receive and its answer, a stop, one maintenance check of an account due at the iteration's own later sample, or, none being due at it, a wait that oversleeps no deadline; records, blocks, receipts, answers, children and uses of the shutdown flag are exactly those of its report |
| Actor.BrokerActor.Chores | src/broker.rs:478-489 | With nothing to receive: one check of an account due at a sample taken now, or, with none due at it, a bounded wait |
| Actor.BrokerActor.Run | src/broker.rs:472-503 | Every finite prefix of the actor's life is a chain of such iterations, each continuing with the records and the time the one before it left, that accounts for every block, receipt, answer, child and use of the shutdown flag; it is over only after a stop was received or a head load found shutdown set, before the actor's own last store; prompts and commands come from what was received, every answer is one the client can read, and the map ends empty |
| Encoding.EntriesAreLong | src/protocol.rs:592-595 | A list of entries takes at least eight bytes each, so the decoder's guard on the count never rejects a valid encoding |
| Encoding.TotalIsTaken | src/protocol.rs:242-262 | The total that the argument limit bounds is what the list takes on the wire beside its length prefixes |
| Encoding.BigEndianPlaces | src/protocol.rs:460-470 | Byte `k` of a fixed-width number is its digit of that place to the base 256, the most significant first |
| Encoding.ValueOfBigEndian | src/protocol.rs:460-470 | Fixed-width big-endian numbers read back as written |
| Encoding.BigEndianOfValue | src/protocol.rs:552-568 | Every byte string of a width is the encoding of its value |
| Codec.Encoder.Entries | src/protocol.rs:501-504 | The loop appends every entry in order, and fails exactly when a field does not fit its prefix |
| Codec.Encoder.Context | src/protocol.rs:495-506 | The context is appended whole, or refused exactly when some length does not fit |
| Codec.Encode | src/protocol.rs:157-199 | A request yields its encoding if and only if that fits the payload limit and its argument count fits 16 bits |
| Codec.Decoder.Take | src/protocol.rs:527-538 | The next bytes, consumed, with the offset never past the end, or a refusal |
| Codec.Decoder.Bytes | src/protocol.rs:570-573 | A nested length prefix and its bytes |
| Codec.Decoder.Context | src/protocol.rs:587-606 | Exactly the context reader: checks, count guard and entries in order |
| Codec.Decoder.Arguments | src/protocol.rs:238-254 | Exactly the argument list reader with its count, NUL and size limits |
| Codec.Decode | src/protocol.rs:202-268 | Accepts exactly what the request parser accepts, with nothing left over |
| Parsing.RequestRoundTrip | src/protocol.rs:157-268 | Every request that can be sent decodes to itself if it is well-formed, and is refused if it is not |
| Parsing.RequestCanonical | src/protocol.rs:202-268 | Every payload that decodes is the encoding, byte for byte, of the well-formed request it decodes to |
| Parsing.ContextRoundTrip | src/protocol.rs:495-606 | A context reads back from in front of any tail, which is left unread, if it is good, and is refused otherwise; the guard on the entry count turns none away |
| Parsing.ListCanonical | src/protocol.rs:238-254 | An accepted argument list meets every limit and re-encodes to its own bytes |
| Utf8.Utf8ExactlyWhen | src/protocol.rs:575-577 | The accepted strings are exactly the encodings of sequences of Unicode scalar values (section 3 of RFC 3629) |
| Replies.SignedRoundTrip | src/protocol.rs:279-296 | 32-bit two's complement numbers read back as written |
| Replies.ResponseRoundTrip | src/protocol.rs:270-310 | A response arrives as sent exactly when its exit code is in 0..=255, and is refused otherwise |
| Replies.ResponseCanonical | src/protocol.rs:288-310 | Only frames of readable responses are accepted, each as the response it is the frame of |
| Replies.EventRoundTrip | src/protocol.rs:312-350 | A frame is sent for an event if and only if it is read back as that event |
| Frames.SendFrame | src/protocol.rs:352-380 | However much of the header the first call takes, the same bytes and descriptors enter the stream; nothing does when the payload is too large |
| Frames.ReceiveFrame | src/protocol.rs:382-436 | However much of the header the first read returns, the result is that of one specification |
| Frames.FrameRoundTrip | src/protocol.rs:352-436 | For every cut a sent frame is received as sent, from exactly its own 8 + length bytes, unless it carries more descriptors than there is room for |
| Frames.FrameCanonical | src/protocol.rs:423-435 | Whatever is received was, byte for byte, a header with zero flags and its payload |
| Frames.FramesRoundTrip | src/protocol.rs:352-436 | Any list of frames is received as exactly that list, for every way of cutting every header |
| Frames.ServerPreamble | src/protocol.rs:139-155 | Eight bytes are read; a stop request and an unknown magic get no reply, everything else gets the broker's own preamble |
| Frames.PreamblesAreDistinct | src/protocol.rs:139-155 | No version's preamble is a stop request; normal is read exactly for the own version, incompatible exactly for another one |
| Frames.NegotiationAgrees | src/protocol.rs:124-155 | A client and a broker of any two versions agree on whether they can talk |
| Decimals.ParseInteger | src/cli.rs:298-306 | The decimal value, or a refusal exactly when it does not fit 128 bits |
| Decimals.ParseFraction | src/cli.rs:308-329 | The longest prefix of the digits whose value is at most 2^63, in 64-bit arithmetic that never overflows |
| Decimals.EighteenAreKept | src/cli.rs:316-324 | Digits are dropped only after at least eighteen were kept |
| Decimals.DroppedTailIsTiny | src/cli.rs:285-289 | In exact arithmetic, what the dropped digits are worth of any unit up to an hour is under a nanosecond |
| Durations.TakeUnit | src/cli.rs:268-281 | The first matching unit of the ordered list, at an index that must be a character boundary of the string |
| Durations.UnitRoundTrip | src/cli.rs:269-280 | First-match lookup never mis-splits a unit, "m" and "ms" included |
| Durations.TextIsUnambiguous | src/cli.rs:249-291 | A string decomposes into segments in at most one way |
| Durations.AddSegment | src/cli.rs:283-289 | The checked sum, refused exactly when the unbounded sum does not fit 128 bits |
| Durations.OverflowIsOutOfRange | src/cli.rs:283-294 | A partial sum past 128 bits belongs only to strings out of range anyway |
| Durations.ParseDuration | src/cli.rs:230-296 | The loop computes the unbounded meaning of every UTF-8 string |
| Durations.MeaningIsGrammar | src/cli.rs:230-296 | A string is accepted at a total if and only if it is an optional plus and one or more segments whose unbounded total that is, in 1 s to 600 s |
| Durations.UnitsRelate | src/cli.rs:270-281 | For every whole number: an hour is sixty minutes, a minute sixty seconds, and each smaller unit a thousand of the next, the micro in all three spellings; a number of nanoseconds means itself between one second and ten minutes and nothing otherwise |
| Durations.FractionIsRead | src/cli.rs:284-291 | A fraction of up to eighteen digits adds the conversion of all its digits to the whole units |
| ExecArguments.RejectAccountOverride | src/cli.rs:214-224 | Accepts exactly the lists without an account option before the first inner separator |
| ExecArguments.CheckArguments | src/cli.rs:189-206 | The arguments unchanged and in order, or the first limit they break |
| ExecArguments.ParseOptions | src/cli.rs:160-187 | The loop computes the left-to-right reading of the options |
| ExecArguments.ParseExec | src/cli.rs:150-212 | Help, the reason for a refusal, or the command that the whole vector means |
| ExecArguments.RunsAreGrammar | src/cli.rs:150-212 | A vector runs a command if and only if it is options, none given twice, the separator, and arguments within every limit, and then with exactly those arguments |
| ExecArguments.OverridesAreRefused | src/cli.rs:214-224 | A vector with `--account`, alone or with any value after an equals sign, between the two separators is never run; one that has it only behind the second is not refused for it |
| EndToEnd.SendRequest | src/protocol.rs:157-200 | A request's whole frame is sent if it can be encoded, and nothing otherwise |
| EndToEnd.ReceiveRequest | src/protocol.rs:202-268 | A request is what its frame's payload parses as, however the stream is cut |
| EndToEnd.RequestArrives | src/protocol.rs:157-268 | A request that can be sent arrives unchanged, using up exactly its own bytes, if it is well-formed, and is refused if it is not |
| EndToEnd.RequestWasSent | src/protocol.rs:202-268 | Whatever the broker accepts is well-formed, and the bytes are those the client would have sent for it |
| EndToEnd.AcceptedCommandArrives | src/cli.rs:150-224 | An argument vector that `opp exec` accepts, with a selectable account and any context the system can provide, if its payload fits, is accepted by the broker exactly as given unless a variable's name holds an equals sign, and then refused; there is no account override before the inner separator |
| EndToEnd.EqualsSignIsRefused | src/protocol.rs:592-605 | The other half of that condition occurs: in the environment `=a=b` the accepted command `-- ls` is sent and refused |
| EndToEnd.SelectionMeans | src/account.rs:7-16 | The explicit selector is the account unless it is absent or empty, and then the inherited one unless that is; text that is not UTF-8 selects nothing |
| EndToEnd.ResponseArrives | src/protocol.rs:270-310 | A response reaches the client as it is exactly when it is readable, for every cut of the stream |
| EndToEnd.CommandReportArrives | src/broker.rs:681-701 | However a supervised command ends, the client reads it: exit code `c` as `c`, signal `n` as 128 + n, a timeout as 124 with its diagnostic, a cancellation as 128 plus its signal, and that it was not started; only a shutdown is not reported |
| EndToEnd.ReportsReadAlike | src/broker.rs:681-701 | Commands of which a client reads the same had the same exit code if both exited, and timed out or were not started both or neither |
| EndToEnd.CancellationArrives | src/broker.rs:843-853 | The client of a cancelled exec reads 128 plus a signal it sent, or that it was cancelled when it never sent one |
| Examples.ExecExample | src/protocol.rs:157-200 | The payload of one exec request, byte by byte: account, timeout, arguments, directory, environment |
| Examples.StartExample | src/protocol.rs:157-200 | The payloads of start and status requests, byte by byte |
| Examples.FrameExample | src/protocol.rs:352-380 | A frame is its kind, three zero bytes, four bytes of length and its payload |
| Examples.ResponseExamples | src/protocol.rs:270-286 | The kinds of all responses, and the bytes of exit codes, diagnostics and all error codes |

## Left out

- Actor.BrokerActor.Run: takes the number of rounds as a parameter, since the loop need not end; it speaks of every finite prefix. The final drain of the channel and the completion flag are steps of `Threads` only. That the loop ends after a shutdown is `ShutdownCompletes`.
- Actor.BrokerActor.Status: the JSON document and its wall-clock times are one abstract function of the account and its record.
- Surroundings.World.RunChild: a wait that does not end is not considered; `WaitIsBounded` says when it does.
- ThreadTheorems.ShutdownCompletes: counts a request or a maintenance check as one step of the actor, so it assumes that the running child's wait returns, and that writing the eight-byte stop reply returns.
- Supervision.WaitIsBounded: that the kernel lets a killed group die within B polls is a hypothesis.
- Durations.AddSegment: the floating-point conversion of a fraction is an abstract function of its kept digits, their scale and the unit; rounding is not modelled.
- Frames.SendFrame: errors of the socket calls are not modelled; a stream holds what was sent up to the peer's close.
- Threads waits on a condition variable in one step, enabled once its flag is set; lost wake-ups and poisoned locks are not part of it.
- Failures to clone a stream or start the monitor thread are folded into the handler's failed read, and panics are not modelled.
- Values sent by handlers and the executor's answers are reduced to their kinds in `Threads`; their content is the subject of `Actor`.
- Working directory, environment and descriptors of a child are data for the codec only; sanitizing the environment is a list filter.
- Pseudo-terminals, `posix_spawn`, peer credentials, the runtime directory, the lock file and stale-socket checks are foreign calls and filesystem facts.
- The startup exchange, the client's pipes and signal handling, help texts, the other subcommands' option parsing, installer and test-only overrides would only add easy members.
