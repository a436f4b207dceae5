# LibPolyCall in Dafny

A model of the stateful core of LibPolyCall v1 and of its Node binding, with machine-checked
properties of whole files, whole frames and whole runs. `dafny verify dfyconfig.toml` checks
everything.

| file | models |
|---|---|
| `Bits.dfy`, `Bytes.dfy`, `Options.dfy` | bit operators on naturals, little-endian layouts, optional values |
| `Checksum.dfy` | the rotate-and-add checksums in C and in JavaScript |
| `Frames.dfy` | the 16-byte header, what C sends and accepts, what Node creates and checks |
| `Session.dfy` | C protocol sessions over an embedder's state machine |
| `Embedding.dfy` | an embedder that fills a session's state machine under the documented names |
| `NodeRequests.dfy` | Node's sequence numbers, pending table, promises and timers |
| `Interop.dfy` | a C session and a Node handler talking to each other |
| `StateMachine.dfy` | the versioned, lockable state machine with snapshots |
| `MicroServices.dfy` | the 32-slot service table, its queues and its garbage collector |
| `ConfigText.dfy`, `ConfigModel.dfy` | configuration text primitives; what a line, a file and a hierarchy of files mean |
| `ConfigRoundTrip.dfy`, `ConfigLayers.dfy` | printing and parsing are inverse; layering is map override |
| `ConfigAcceptance.dfy` | which lines, files and hierarchies are accepted, by a grammar written without the scanner |
| `ConfigLoader.dfy` | the mutable configuration object |
| `Tokenizer.dfy` | the token matchers against scanner-free grammars |
| `TransitionHistory.dfy` | the Node state machine and its bounded history |

State that the sources update in place is a class here. Each method is proved equal to a
function on values (`Sent`, `Created`, `ParseText`, ...), and the theorems about runs are
proved about those functions; a run is any sequence of API calls, with clocks, guard verdicts,
hook outcomes and network results as arguments of the calls. Where a result depends on what
guards answer, it is stated for all guards: a `Guards` value says where a guard may let a
transition through and whether it always does so there, and the run's verdicts keep to it.

## Main results

- **Configuration round trip.** Whatever files at whatever layers a configuration came from,
  parsing what `config show` prints gives it back, warnings aside. The well-formed
  configurations of the proof are exactly the ones that parsing can produce.
- **What is accepted.** A line, a file and a whole hierarchy of files are accepted if and only if
  a grammar says so that knows nothing of scanning: legal lines, each language once, no more than
  32 servers and 128 keys over all layers, and last values that are complete.
- **Layering is map override**, in first-assignment order, with topology from `Polycallfile`
  alone, and every loaded configuration is valid as a whole.
- **One corrupted byte.** For both languages it is settled byte by byte which corruptions of a
  frame can go unnoticed: C ignores flags, sequence and length and may be led to another type;
  Node misses type, flags and sequence only. Payload and checksum corruption is always noticed.
- **The two checksums agree** although JavaScript never truncates its accumulator in the loop.
- **Snapshots.** A restore is accepted exactly when the state is unlocked and was bumped a
  multiple of 2^32 times since the snapshot; below 2^32 it is harmless, happens at most once,
  and never revives a locked snapshot; at 2^32 it does.
- **Slots.** Count and mask agree in every run, so the free-slot search always stops.
- **Requests.** Each Node request is in exactly one of pending, resolved and rejected, and its
  outcome is what the first event of its own brought: response, error or timeout.
- **Damage.** One changed byte in any permanent field of a state is reported by the next
  verification, after every run.
- **Lockstep.** For every registration with any guards, protocol state and machine state agree
  in all runs exactly if every transition that the guards let through has its target right.
- **Collection.** Of each id the collector removes the lowest slots, as many as there are stale
  services of that id.

Properties that do not hold without a condition, each with the exact condition:

- The collector keeps exactly the fresh services if and only if no fresh service sits in a
  lower slot than a stale one of the same id (`CollectionExact`, `SharedIdLosesFreshService`).
  What it leaves otherwise is known slot by slot (`CollectionSurvivors`), and the number it
  removes is right in any case (`CollectionCount`).
- `reset` is safe for all that follows if and only if no timer is running
  (`ResetSafeExactly`): responses do not cancel timers, and an old timer removes a new request.
- Steps of the Node machine are defined transitions if and only if no two pairs of state names
  share a `from->to` key (`StepsDefinedExactly`, `ArrowNamesCollide`); names without `->` never do.
- The Node history is at all times the last steps taken if and only if no move is made whose
  `after` hook throws (`HistoryIsPathExactly`).
- The handshake reply that Node sends has no payload, and C refuses every empty payload
  (`HandshakeDialogue`).
- A transition is found under its own name if and only if the name has fewer than 32 bytes
  (`AddedTransitionIsFound`): names are clipped when stored, not when looked up.
- A reply from C reaches the Node request it answers if and only if the two sequence counters
  are equal, because C numbers replies itself (`ReplyReachesExactly`). Over a series of requests
  and replies, request `i` is settled by reply `i` plus the lag of C's counter modulo 2^32, be it
  the wrong one, or waits if there is none (`AnsweredExactly`). After a handshake the lag is 0;
  one heartbeat of Node makes it 1, so that every request gets the next one's reply
  (`HeartbeatShiftsReplies`); an authentication makes it 2^32 - 1, so that none of any series is answered
  (`AuthenticationLosesReplies`).
- The phases of a session follow the table of `can_transition` if and only if no authenticate
  goes through outside AUTH and READY and no set_error outside READY and ERROR
  (`PhaseOrderExactly`). The library itself lets both through from every phase
  (`AuthenticateSkipsAhead`, `SetErrorSkipsAhead`); guards can enforce the order, and do so
  exactly if all they let through, in the phases a session can get to, is in the table
  (`OrderEnforcedExactly`). For guards that ask for AUTH or READY before READY and for READY or
  ERROR before ERROR this means that the two transitions have them or are missing
  (`TurnGuardsEnforceOrder`, `TurnGuardsLetThrough`). Runs without the two calls visit all phases
  in turn (`PhasesInOrder`).
- Executions of the C machine go along registered edges in all runs if and only if each
  transition that the guards let through, in the states the machine can get to, does
  (`EdgesFollowedExactly`): without guards there has to be an edge from every state it can stand
  in to every target (`SaturatedExactly`), since the current state is never compared with the
  transition's source; guards that compare the two leave only the unguarded transitions to look
  at (`SourceGuardsExactly`).
- A changed stretch of a payload goes unnoticed if and only if both versions lead to the same
  accumulator (`WindowDecides`): for one byte never, for two sometimes.
- Credentials reach the other side's callback as sent if and only if they carry a zero byte
  (`CredentialsArrive`, `TextUnterminated`).

## Conventions

Configuration text is a sequence of characters; the theorems hold for all characters, bytes
included. `isspace`, `isdigit` and `isalnum` are those of the C locale, `unsigned long` has 64
bits, and a struct is laid out as on a little-endian LP64 host without leading padding. Number
text follows `strtoul` (section 7.22.1.4 of ISO C11), fields follow `%Ns` (section 7.21.6.2).
A file is its whole text, and reading it line by line with `fgets` is part of the model: lines
over 1022 characters and zero bytes before a line break are refused, as in the code. JavaScript
integer operators follow sections 7.1.6 and 7.1.7 of ECMA-262. Null pointers, failed
allocations and uninitialised machines are not modelled.

Where code and documentation differ the code is followed: docs/CONFIGURATION_STANDARD.md says
ports are between 1 and 65535, while the `port` value also accepts a plus sign, and white space
or even a negated number after the colon (`ParsePortsMeaning`, `NegatedPortIsAccepted`).

## Model

| member | source | states |
|---|---|---|
| `Checksum.CalculateChecksum` | src/polycall_protocol.c:396-410 | the C loop computes the rotate-by-5 fold, 0 for no data |
| `Checksum.CalculateStateChecksum` | src/polycall_state_machine.c:106-116 | the state loop computes the rotate-by-8 fold |
| `Checksum.JsCalculateChecksum` | bindings/node-polycall/src/modules/ProtocolHandler.js:205-215 | with an untruncated signed accumulator the JavaScript loop returns the same word as the C loop, for all bytes |
| `Checksum.JsStepCongruent` | bindings/node-polycall/src/modules/ProtocolHandler.js:212 | one JavaScript step on any Number is congruent modulo 2^32 to the C step on its residue |
| `Checksum.RotateParts` | src/polycall_protocol.c:406 | shift, shift and OR is a rotation: every bit of the accumulator is kept |
| `Checksum.AbsorbInjective` | src/polycall_protocol.c:405-407 | if two steps agree, accumulators are equal exactly when the bytes are |
| `Checksum.SingleByteErrorDetected` | src/polycall_protocol.c:396-421 | payloads of one length that differ in exactly one byte have different checksums, for both rotations |
| `Checksum.WindowDecides` | src/polycall_protocol.c:405-407 | a change of any stretch of a payload, length changes included, goes unnoticed if and only if old and new stretch lead from the accumulator before them to the same one |
| `Checksum.FrontPairPassesExactly` | src/polycall_protocol.c:405-407 | a changed first pair of bytes goes unnoticed, whatever follows, if and only if 32 times the first plus the second is the same |
| `Checksum.TwoByteErrorCanPass` | src/polycall_protocol.c:405-407 | such a pair: `1 0` and `0 32` before any bytes |
| `Checksum.StateFrontPairIsNoticed` | src/polycall_state_machine.c:106-116 | with the rotation by 8 no change of the first two bytes goes unnoticed |
| `Frames.HeaderRoundTrip` | include/polycall_protocol.h:43-50 | a header written before any payload reads back unchanged |
| `Frames.FrameLayout` | include/polycall_protocol.h:43-50 | where each header field is, byte by byte, lowest byte first |
| `Frames.EncodingRoundTrip` | include/polycall_protocol.h:43-50 | every 16 bytes are the encoding of exactly one header |
| `Frames.CFrameReachesNode` | src/polycall_protocol.c:156-201 | every frame C can send passes all Node checks and decodes to the fields and payload sent |
| `Frames.NodeFrameReachesC` | bindings/node-polycall/src/modules/ProtocolHandler.js:60-107 | C accepts a Node frame if and only if version is 1, payload is not empty and the type is not RESPONSE but one C knows; payload arrives unchanged |
| `Frames.CFrameReachesC` | src/polycall_protocol.c:204-264 | C accepts its own frames exactly for the types it has a case for |
| `Frames.NodeFrameReachesNode` | bindings/node-polycall/src/modules/ProtocolHandler.js:72-126 | Node accepts Node frames exactly up to payloads of 2^20 bytes |
| `Frames.AcceptedExactly` | src/polycall_protocol.c:204-264 | what either side accepts, read off the bytes |
| `Frames.HandshakeReplyIsRefused` | bindings/node-polycall/src/modules/ProtocolHandler.js:164 | the empty handshake reply passes Node's checks but never C's |
| `Frames.COneByteCorruption` | src/polycall_protocol.c:204-264 | a frame with one byte changed is still accepted by C exactly if the byte is in flags, sequence or length, or makes the type another deliverable one |
| `Frames.NodeOneByteCorruption` | bindings/node-polycall/src/modules/ProtocolHandler.js:109-126 | Node's checks still pass exactly if the byte is type, flags or sequence |
| `Session.ProtocolSession.Send` | src/polycall_protocol.c:156-201 | refuses empty and oversized payloads, uses up a sequence number for the latter too, hands the encoded frame to the network |
| `Session.ProtocolSession.Process` | src/polycall_protocol.c:204-264 | header, checksum and type checks; calls the callback of the type with nothing, with a C string without length, or with payload and length |
| `Session.ProtocolSession.Transition` | src/polycall_protocol.c:46-90 | runs the named machine transition, moves and notifies only on success |
| `Session.ProtocolSession.DoStartHandshake` | src/polycall_protocol.c:334-358 | only from INIT, after the handshake message went out |
| `Session.ProtocolSession.DoCompleteHandshake` | src/polycall_protocol.c:360-364 | only from HANDSHAKE, to AUTH |
| `Session.ProtocolSession.DoAuthenticate` | src/polycall_protocol.c:366-383 | sends the credentials and moves to READY |
| `Session.ProtocolSession.DoSetError` | src/polycall_protocol.c:388-393 | attempts the transition to ERROR |
| `Session.ProtocolSession.DoUpdate` | src/polycall_protocol.c:266-294 | one step along INIT, HANDSHAKE, AUTH, READY |
| `Session.StepEffect` | src/polycall_protocol.c:46-90 | a call moves session and machine if and only if it heads for a phase, its message goes out, the transition exists, neither of its states is locked and its guard allows it; all read off before the call |
| `Session.StepNumbers` | src/polycall_protocol.c:156-201 | every attempt at a message uses up a number, too large or not, taken by the network or not; what fits goes out under that number |
| `Session.NewSessionNumbers` | src/polycall_protocol.c:156-201 | over every run of a new session the counter is one more than the messages tried, modulo 2^32 |
| `Session.NoticeOfStep` | src/polycall_protocol.c:82-87 | an observer is told of every change of phase and of nothing else; without one there are no notices |
| `Session.LockstepExactly` | src/polycall_protocol.c:46-90 | for every registration and all guards: protocol state equals the machine's current state after all runs if and only if each transition let through in a phase the session can get to has the matching target |
| `Embedding.DocumentedNamesConform` | include/polycall_protocol.h:153-157 | a machine with six states or more and transitions named by the documented texts is conforming, READY's leads to state 3 and so on |
| `Embedding.DocumentedNamesKeepLockstep` | src/polycall_protocol.c:46-90 | with it every run keeps protocol state and machine state equal, under all guards |
| `Embedding.StatesAdded` | src/polycall_state_machine.c:198-228 | adding states leaves a fresh machine fresh |
| `Session.ConformingExactly` | src/polycall_protocol.c:46-90 | targets that match under all the `to_*` names in use suffice under all guards, and are needed if no guard refuses |
| `Session.MisregistrationBreaksLockstep` | src/polycall_protocol.c:266-393 | any other registration is out of step after some run that its guards allow |
| `Session.PhasesInOrder` | src/polycall_protocol.c:266-364 | a run without authenticate and set_error visits every phase up to the one it ends in, and never ERROR or CLOSED |
| `Session.AuthenticateSkipsAhead` | src/polycall_protocol.c:366-383 | authentication succeeds from any phase |
| `Session.SetErrorSkipsAhead` | src/polycall_protocol.c:388-393 | set_error succeeds from any phase, also from INIT, against the table of transitions |
| `Session.TableFollowedExactly` | src/polycall_protocol.c:305-332 | a call leaves the phase alone or moves it along the table of transitions if and only if it is not an authenticate outside AUTH and READY or a set_error outside READY and ERROR that goes through |
| `Session.TableIsForward` | src/polycall_protocol.c:305-332 | the table leads to the next phase, and from READY to CLOSED |
| `Session.PhaseOrderExactly` | src/polycall_protocol.c:266-393 | over every run the notices follow the table of transitions if and only if every call was made in turn in that sense |
| `Session.OrderEnforcedExactly` | src/polycall_protocol.c:305-393 | for every registration and all guards: all runs keep the order if and only if what is let through, in phases a session can get to, is in the table of transitions |
| `Session.TurnGuardsEnforceOrder` | src/polycall_state_machine.c:291-295 | guards that let through to READY from AUTH and READY and to ERROR from READY and ERROR only enforce the order if and only if the two transitions have them or are missing |
| `Session.TurnGuardsLetThrough` | src/polycall_state_machine.c:291-295 | with them a full registration still gets to every phase but CLOSED |
| `Session.ObserverSeesPath` | src/polycall_protocol.c:82-87 | in every run the state-change notices are a gapless path from INIT to the current phase |
| `Session.NodeCommandIsDelivered` | src/polycall_protocol.c:243-247 | a command framed by Node reaches the callback unchanged |
| `Session.FrameIsDelivered` | src/polycall_protocol.c:204-264 | for every frame a session can send: whether it is accepted and exactly which callback is called with what |
| `Session.TextArrives` | src/polycall_protocol.c:237-253 | the C string a callback reads is the text before the payload's first zero |
| `Session.TextUnterminated` | src/polycall_protocol.c:237-253 | it has no end in the payload if and only if the payload has no zero |
| `Session.CredentialsArrive` | src/polycall_protocol.c:237-241 | credentials of one session reach the callback of another up to their first zero, if and only if they have one |
| `Session.CorruptedPayloadIsDropped` | src/polycall_protocol.c:223-227 | any one changed payload byte of a sent frame: refused, nothing delivered |
| `NodeRequests.ProtocolHandler.CreateMessage` | bindings/node-polycall/src/modules/ProtocolHandler.js:60-107 | the frame, the range errors, and when the counter moves despite an error |
| `NodeRequests.ProtocolHandler.SendMessage` | bindings/node-polycall/src/modules/ProtocolHandler.js:218-231 | a new waiting request under the number read back from the frame |
| `NodeRequests.ProtocolHandler.ProcessMessage` | bindings/node-polycall/src/modules/ProtocolHandler.js:109-202 | checks and effects of an incoming message, and when it throws: an error message does without a listener, after its request was rejected |
| `NodeRequests.ProtocolHandler.Answer` | bindings/node-polycall/src/modules/ProtocolHandler.js:181-197 | removes the table entry and settles its promise |
| `NodeRequests.ProtocolHandler.TimerFires` | bindings/node-polycall/src/modules/ProtocolHandler.js:223-226 | deletes whatever is under the request's number, rejects its own promise if unsettled |
| `NodeRequests.ProtocolHandler.ResetHandler` | bindings/node-polycall/src/modules/ProtocolHandler.js:49-57 | counter and table start over, timers go on |
| `NodeRequests.RequestsAreConserved` | bindings/node-polycall/src/modules/ProtocolHandler.js:181-231 | in every run without reset numbers are never reused and a request is waiting exactly if it is in the table under its number |
| `NodeRequests.EveryRequestSettles` | bindings/node-polycall/src/modules/ProtocolHandler.js:222-227 | when all timers have fired nothing waits and the table is empty |
| `NodeRequests.SettlesOnce` | bindings/node-polycall/src/modules/ProtocolHandler.js:181-226 | a settled request keeps its outcome in every run, reset included |
| `NodeRequests.OutcomeIsFirstBrought` | bindings/node-polycall/src/modules/ProtocolHandler.js:181-227 | over every run without reset: a waiting request ends with what the first event for it brings, a response or error with its number or its own timer |
| `NodeRequests.SentRequestSettles` | bindings/node-polycall/src/modules/ProtocolHandler.js:218-231 | the same from its sending on, under the number the counter had |
| `NodeRequests.FiredEffect` | bindings/node-polycall/src/modules/ProtocolHandler.js:223-226 | a timer rejects its request as timed out if it is waiting, and touches no other |
| `NodeRequests.ResetStartsOver` | bindings/node-polycall/src/modules/ProtocolHandler.js:49-57 | after any run a reset gives a new handler but for the requests under way |
| `NodeRequests.AnswerReachesItsRequest` | bindings/node-polycall/src/modules/ProtocolHandler.js:181-197 | an incoming message changes exactly the waiting request with its number, and only if it is a response or an error |
| `NodeRequests.RefusedChangesNothing` | bindings/node-polycall/src/modules/ProtocolHandler.js:109-134 | a message that fails a check throws and changes nothing |
| `NodeRequests.ResetSafeExactly` | bindings/node-polycall/src/modules/ProtocolHandler.js:49-57 | conservation holds in all futures of a reset if and only if no timer was running |
| `Interop.HandshakeDialogue` | bindings/node-polycall/src/modules/ProtocolHandler.js:155-165 | C's handshake completes at Node, Node's reply is refused by C in every state |
| `Interop.NodeTakesFrame` | bindings/node-polycall/src/modules/ProtocolHandler.js:109-202 | for every frame C can send: which bytes complete a handshake, which flag is set, whether the call throws |
| `Interop.OwnMessageBytes` | src/polycall_protocol.c:334-383 | the bytes of the handshake and authentication messages that C sends by itself |
| `Interop.ReplyReachesExactly` | src/polycall_protocol.c:156-201 | a response or error sent by C settles a waiting request of Node if and only if its number equals C's own counter, and touches no other request |
| `Interop.ProcessingKeepsNumber` | src/polycall_protocol.c:204-264 | processing a message does not change the number of the next frame |
| `Interop.ExchangeCounts` | bindings/node-polycall/src/modules/ProtocolHandler.js:181-231 | request and reply advance both counters by one |
| `Interop.ExchangeEffect` | bindings/node-polycall/src/modules/ProtocolHandler.js:181-231 | the reply of an exchange settles the waiting request that carries C's number, its own or an earlier one, and leaves all others alone |
| `Interop.AnsweredExactly` | bindings/node-polycall/src/modules/ProtocolHandler.js:181-231 | after a series of exchanges request `i` has the outcome of reply `i` plus the lag of C's counter modulo 2^32 if there is one, and waits otherwise |
| `Interop.EarlierAnsweredExactly` | bindings/node-polycall/src/modules/ProtocolHandler.js:181-197 | a request from before the series gets the reply its number stands for, if there is one |
| `Interop.NoRepliesExactly` | bindings/node-polycall/src/modules/ProtocolHandler.js:181-231 | no request of a series is settled if and only if the lag is at least its length |
| `Interop.HeartbeatShiftsReplies` | bindings/node-polycall/src/modules/ProtocolHandler.js:60-72 | after one message of Node's own each request is settled with the reply to the next one |
| `Interop.SeriesDelivers` | src/polycall_protocol.c:243-247 | C's embedder is given all commands of the series in order |
| `Interop.AuthenticationLosesReplies` | bindings/node-polycall/src/modules/ProtocolHandler.js:155-170 | a fresh pair: after the handshake every request of any series has its own reply at the end, after the authentication all still wait |
| `StateMachine.PolycallStateMachine.AddState` | src/polycall_state_machine.c:198-228 | bounded append with clipped name, version 2 and checksum |
| `StateMachine.PolycallStateMachine.AddTransition` | src/polycall_state_machine.c:232-262 | bounded append with both endpoints in range |
| `StateMachine.PolycallStateMachine.Execute` | src/polycall_state_machine.c:264-308 | first transition of that name, lock and guard checks, the actions called and their order, move and version bump |
| `StateMachine.PolycallStateMachine.Verify` | src/polycall_state_machine.c:312-336 | checksum, then custom check; failures are counted |
| `StateMachine.PolycallStateMachine.Lock` | src/polycall_state_machine.c:340-353 | sets the lock and bumps the version |
| `StateMachine.PolycallStateMachine.Unlock` | src/polycall_state_machine.c:355-368 | clears the lock and bumps the version |
| `StateMachine.PolycallStateMachine.CreateSnapshot` | src/polycall_state_machine.c:372-389 | an exact copy of the state |
| `StateMachine.PolycallStateMachine.Restore` | src/polycall_state_machine.c:391-413 | refused if locked or at another version, otherwise the snapshot with a bumped version |
| `StateMachine.RestoreAcceptedExactly` | src/polycall_state_machine.c:391-413 | after every run: accepted if and only if unlocked and bumped a multiple of 2^32 times since |
| `StateMachine.RestoreIsHarmless` | src/polycall_state_machine.c:406-410 | with fewer than 2^32 bumps an accepted restore changes timestamp and version only |
| `StateMachine.RestoresAtMostOnce` | src/polycall_state_machine.c:118-121 | after a successful restore and any calls, a second one is refused below 2^32 bumps |
| `StateMachine.LockedSnapshotIsDead` | src/polycall_state_machine.c:340-413 | a snapshot of a locked state is refused below 2^32 bumps |
| `StateMachine.WrapAroundRevivesLockedSnapshot` | src/polycall_state_machine.c:118-121 | after a multiple of 2^32 unlocks it is accepted and locks the state again |
| `StateMachine.RunIsLater` | src/polycall_state_machine.c:118-121 | in every run versions only advance, identities never change, snapshots are kept |
| `StateMachine.IntegrityNeverBreaks` | src/polycall_state_machine.c:312-336 | after every run verification succeeds exactly if the custom check accepts |
| `StateMachine.IntegrityDetectsOneByte` | include/polycall_state_machine.h:18-28 | any one changed byte before the checksum field makes the checksums differ |
| `StateMachine.DamageIsReported` | src/polycall_state_machine.c:312-336 | after every run: one changed byte in the name, either action, the final flag or the id of a state makes its verification fail |
| `StateMachine.VolatileFieldsPass` | src/polycall_state_machine.c:312-336 | changes of lock, version and timestamp are not seen by verification |
| `StateMachine.LockedUntilUnlocked` | src/polycall_state_machine.c:264-368 | from a lock to the next unlock, over any calls: still locked, no transition with that endpoint succeeds, the state is not entered |
| `StateMachine.TablesStayInRange` | src/polycall_state_machine.c:232-262 | in every run tables are bounded, endpoints and current state exist |
| `StateMachine.FailedCallsChangeNothing` | src/polycall_state_machine.c:198-413 | a call that fails leaves states, transitions and current state as they were |
| `StateMachine.AddedTransitionTakesEffect` | src/polycall_state_machine.c:232-308 | a transition registered under a new name and then executed leads to the registered target: refused exactly for a lock on one of its two states or by its guard |
| `StateMachine.EdgesFollowedExactly` | src/polycall_state_machine.c:264-308 | for a freshly registered machine and all guards: all successful executions of all runs go along registered edges if and only if each transition let through in a state the machine can get to does |
| `StateMachine.SaturatedExactly` | src/polycall_state_machine.c:264-308 | an edge from state 0 and every target of a callable transition to every such target suffices under all guards, and is needed if no guard refuses |
| `StateMachine.SourceGuardsExactly` | src/polycall_state_machine.c:291-295 | if guards compare the current state with the source, only the unguarded transitions can leave the edges |
| `StateMachine.AddedTransitionIsFound` | src/polycall_state_machine.c:252-278 | it is found under its own name if and only if the name has fewer than 32 bytes |
| `StateMachine.AddedTransitionIsFoundAs` | src/polycall_state_machine.c:252-278 | the only name it is found under is its own, or the first 31 bytes of it |
| `StateMachine.RegisteredStateLasts` | src/polycall_state_machine.c:198-228 | a state keeps clipped name, actions, final flag and id through every run; it starts unlocked at version 2 |
| `StateMachine.SnapshotIsExact` | src/polycall_state_machine.c:372-413 | after every run a snapshot holds the state, the time and the stored checksum, and can be restored at once unless locked |
| `StateMachine.StatesCounted` | src/polycall_state_machine.c:198-228 | over every run as many states as tried, up to 32 |
| `StateMachine.TransitionsCounted` | src/polycall_state_machine.c:232-262 | a transition is taken in exactly below 64 and with both states there; no other call changes the table |
| `StateMachine.RegisteredActionsAreCalled` | src/polycall_state_machine.c:299-302 | whatever is called in between, an execution calls the exit action of the registered source, the transition's, and the entry action of the target, in this order |
| `StateMachine.DiagnosticsCount` | src/polycall_state_machine.c:280-336 | over every run the two diagnostics count failed executions and integrity violations modulo 2^32 |
| `StateMachine.FailedExecutionExactly` | src/polycall_state_machine.c:270-297 | an execution counts as failed if and only if there is no such transition or its guard refuses it, both ends being unlocked |
| `MicroServices.ServiceTable.Create` | src/polycall_micro.c:84-115 | the bit search terminates below 32; the new service is in the lowest free slot |
| `MicroServices.ServiceTable.Destroy` | src/polycall_micro.c:118-141 | clears the lowest active slot with the id, mask bit and count |
| `MicroServices.ServiceTable.UpdateState` | src/polycall_micro.c:251-269 | sets state and time of the lowest active slot with the id |
| `MicroServices.ServiceTable.BatchProcess` | src/polycall_micro.c:206-248 | the queue becomes the first 64 of old queue and commands of legal size |
| `MicroServices.ServiceTable.SelfBatchProcess` | src/polycall_micro.c:230-244 | the same loop when the batch is the service's own queue and grows while it runs |
| `MicroServices.SelfBatchFills` | src/polycall_micro.c:230-244 | such a batch repeats the queue until it is full, and changes nothing else but the time |
| `MicroServices.QueuedCommandsAreLegal` | src/polycall_micro.c:234-237 | in every run queues hold commands of legal size only |
| `MicroServices.ServiceTable.CollectGarbage` | src/polycall_micro.c:272-291 | the scan that destroys stale services by id |
| `MicroServices.FilterCommands` | src/polycall_micro.c:163-187 | in-place filtering is order-preserving filtering; the rest of the buffer is untouched |
| `MicroServices.FilterFuses` | src/polycall_micro.c:163-187 | filtering twice is filtering by the conjunction |
| `MicroServices.SingleBatch` | src/polycall_micro.c:230-247 | a batch of one command queues it exactly if it has at most 4096 bytes and there is room among 64; no other slot changes |
| `MicroServices.BatchesConcatenate` | src/polycall_micro.c:206-248 | two batches leave the table as one batch of both at the later time |
| `MicroServices.UpdateKeepsAlive` | src/polycall_micro.c:251-291 | a service that is alone with its id survives collection for 3600 seconds after a state update, with the new state |
| `MicroServices.BatchKeepsAlive` | src/polycall_micro.c:206-291 | and after a batch |
| `MicroServices.CountMatchesMask` | src/polycall_micro.c:84-141 | in every run count is the number of set bits, a free slot exists exactly below 32, queues stay bounded |
| `MicroServices.InactiveSlotsAreBlank` | src/polycall_micro.c:118-141 | in every run a slot without a service is zero |
| `MicroServices.CreatedEffect` | src/polycall_micro.c:84-115 | creation fails if and only if all 32 slots are active; otherwise exactly the lowest free one becomes active |
| `MicroServices.DestroyedEffect` | src/polycall_micro.c:118-141 | exactly one slot, the lowest with the id, becomes inactive; all others keep service and status |
| `MicroServices.CollectionSurvivors` | src/polycall_micro.c:272-291 | for every table: of each id the lowest slots go, as many as there are stale services of that id; all others stay unchanged in place |
| `MicroServices.CollectionExact` | src/polycall_micro.c:272-291 | survivors are exactly the fresh services, in place, if and only if no fresh one is below a stale one of the same id |
| `MicroServices.CollectionExactForDistinctIds` | src/polycall_micro.c:272-291 | with distinct ids and a clock not behind: survivors are those idle at most 3600 seconds |
| `MicroServices.ClockBehindIsStale` | src/polycall_micro.c:283 | the unsigned difference makes a service from the collector's future stale |
| `MicroServices.SharedIdLosesFreshService` | src/polycall_micro.c:283-285 | a run of three calls after which the collector destroys the fresh one of two services of one id and leaves the stale one |
| `MicroServices.CollectionCount` | src/polycall_micro.c:272-291 | as many services are removed as are stale, shared ids or not |
| `ConfigText.Trim` | src/polycall_config.c:114-127 | the two loops compute `Trimmed` |
| `ConfigText.TrimmedMargins` | src/polycall_config.c:114-127 | trimming takes white space off both ends and nothing else |
| `ConfigText.SpacesExactly` | src/polycall_config.c:114-127 | what counts as white space, by character codes |
| `ConfigText.ParsePositiveMeaning` | src/polycall_config.c:167-185 | accepted are exactly blanks, an optional sign and digits of value 1 to 2^64 - 1, a minus only behind a blank; it negates modulo 2^64 |
| `ConfigText.ParsesDecimal` | src/polycall_config.c:167-185 | a printed positive number reads back as itself |
| `ConfigRoundTrip.ParsePortsMeaning` | src/polycall_config.c:187-221 | accepted are exactly two such numbers up to 65535 around the only colon, in fewer than 64 characters |
| `ConfigRoundTrip.NegatedPortIsAccepted` | src/polycall_config.c:187-221 | every mapping is accepted too with its target as a blank, a minus and the complement to 2^64 |
| `ConfigRoundTrip.PortsParse` | src/polycall_config.c:187-221 | printed mappings of legal ports are accepted and read back |
| `ConfigLoader.PolycallConfig.Get` | src/polycall_config.c:223-231 | the value of the first entry with the key |
| `ConfigLoader.PolycallConfig.Set` | src/polycall_config.c:233-270 | overwrite in place or append while there is room |
| `ConfigLayers.FullTable` | src/polycall_config.c:233-270 | only a new key in a full table is refused |
| `ConfigLoader.PolycallConfig.AddServer` | src/polycall_config.c:341-396 | language, mapping, duplicate and capacity checks, then append |
| `ConfigLoader.PolycallConfig.ParseServerLine` | src/polycall_config.c:434-468 | exactly two fields, project layer only; a refused line changes nothing |
| `ConfigLoader.PolycallConfig.ParseNetworkLine` | src/polycall_config.c:470-491 | exactly `start` or `stop`, project layer only; a refused line changes nothing |
| `ConfigLoader.PolycallConfig.ParseAssignmentLine` | src/polycall_config.c:493-531 | one equals sign, sizes, warning for unknown keys, value checks, assignment; a refused value leaves the warning behind |
| `ConfigAcceptance.ValueExactly` | src/polycall_config.c:272-339 | which values each key may have: true or false for eight, a number for six, a mapping for `port`, anything for all others |
| `ConfigAcceptance.KnownExactly` | src/polycall_config.c:51-165 | which keys draw no warning in which layer |
| `ConfigAcceptance.ContentExactly` | src/polycall_config.c:425-429 | what is left of a line: margins and comment are cut, nothing else |
| `ConfigAcceptance.LineExactly` | src/polycall_config.c:434-538 | a line is accepted, and leads to the configuration the grammar says, if and only if it is a legal server, network or assignment line or empty |
| `ConfigAcceptance.RawLineExactly` | src/polycall_config.c:413-538 | the same for a line with margins and comment |
| `ConfigAcceptance.LineAccepted` | src/polycall_config.c:434-538 | acceptance splits into legality of the line and room for its language or key |
| `ConfigAcceptance.TextAccepted` | src/polycall_config.c:398-546 | a file is accepted if and only if all its lines fit and are legal, no language is named twice and servers and keys are not too many |
| `ConfigAcceptance.LoadAcceptedExactly` | src/polycall_config.c:631-683 | a hierarchy loads if and only if the files read are legal, servers and keys of all layers fit and the last values are complete |
| `ConfigAcceptance.LanguageFileExactly` | src/polycall_config.c:655-677 | which file the third layer is read from |
| `ConfigLoader.PolycallConfig.ParseFile` | src/polycall_config.c:398-546 | the line loop computes `ParseText`, over-long lines and zero bytes included, or `RefusedText` |
| `ConfigLayers.RefusalKeepsBeginning` | src/polycall_config.c:398-546 | a refused file leaves the effect of the lines before the first refused one, and the warning that one has cost |
| `ConfigLoader.PolycallConfig.ValidateRequired` | src/polycall_config.c:548-601 | required fields, TLS fields, server type |
| `ConfigLoader.PolycallConfig.Load` | src/polycall_config.c:631-683 | three layers in order with the legacy fallback, then the required fields; a refusal leaves what was read before it |
| `ConfigLoader.PolycallConfig.ShowConfig` | src/polycall_config.c:685-702 | the printed text |
| `ConfigRoundTrip.ShownParts` | src/polycall_config.c:685-702 | servers are printed first, then the network state, then the values |
| `ConfigRoundTrip.ShownServers` | src/polycall_config.c:688-694 | each server on a line of its own |
| `ConfigRoundTrip.ShownNetwork` | src/polycall_config.c:695-697 | the network line, if there is one |
| `ConfigRoundTrip.ShownValues` | src/polycall_config.c:698-701 | each value on a line of its own |
| `ConfigRoundTrip.TextKeepsWellFormed` | src/polycall_config.c:398-546 | a parsed file keeps the table well-formed |
| `ConfigRoundTrip.ShowThenParse` | src/polycall_config.c:685-702 | printing and parsing a well-formed configuration gives it back |
| `ConfigRoundTrip.RoundTrip` | src/polycall_config.c:398-546 | for every configuration built from any files at any layers, its printed form parses to the same servers, flags and entries in order |
| `ConfigRoundTrip.WellFormedExactly` | src/polycall_config.c:398-546 | well-formed is exactly what some Polycallfile produces |
| `ConfigLayers.TextRepresents` | src/polycall_config.c:493-531 | parsing a file acts on the table as its assignments act on a map |
| `ConfigLayers.TopologyIsTheProjects` | src/polycall_config.c:434-491 | files of the other layers leave servers and network flags alone |
| `ConfigLayers.WarningsCountUnknownKeys` | src/polycall_config.c:512-521 | unknown keys never fail a file; the warning counter advances by their number |
| `ConfigLayers.LinesFit` | src/polycall_config.c:413-423 | an accepted file has no more than 1022 characters without a line break |
| `ConfigLayers.LayeringIsOverride` | src/polycall_config.c:631-683 | after a load every key has its last assigned value over all layers; unique keys in first-assignment order; topology of Polycallfile |
| `ConfigLayers.LoadedIsValid` | src/polycall_config.c:548-601 | ports, distinct languages, booleans, positive integers, TLS files, required fields and server type hold whichever layer set a key |
| `ConfigLayers.ShownConfigurationReloads` | src/polycall_config.c:750-773 | a shown configuration loads again as the only file of a project |
| `Tokenizer.MatchNumber` | src/polycall_tokenizer.c:75-106 | the scanner's verdict and length |
| `Tokenizer.MatchIsNumber` | src/polycall_tokenizer.c:75-106 | what is matched is in the grammar of numbers |
| `Tokenizer.NumberExactly` | src/polycall_tokenizer.c:75-106 | the grammar of numbers put together from texts |
| `Tokenizer.MatchIsLongest` | src/polycall_tokenizer.c:75-106 | no longer prefix is |
| `Tokenizer.FailsExactly` | src/polycall_tokenizer.c:80-102 | failure if and only if no prefix is a number or a point or exponent mark dangles |
| `Tokenizer.MatchString` | src/polycall_tokenizer.c:108-129 | ends at the first quote after an even number of backslashes, fails exactly if there is none |
| `Tokenizer.MatchOperator` | src/polycall_tokenizer.c:131-151 | the longest operator that starts the input, fails exactly if there is none |
| `Tokenizer.OperatorsExactly` | src/polycall_tokenizer.c:131-151 | which texts are operators, by a rule instead of the table |
| `Tokenizer.MatchIdentifier` | src/polycall_tokenizer.c:63-73 | the longest identifier that starts the input, fails exactly if there is none |
| `Tokenizer.IdentifierExactly` | src/polycall_tokenizer.c:63-73 | identifiers by character codes |
| `Tokenizer.ComposedPatterns` | src/polycall_tokenizer.c:388-415 | composed patterns try the second list only where the first finds nothing |
| `TransitionHistory.StateMachine.DoAddState` | bindings/node-polycall/src/modules/StateMachine.js:22-42 | a new state, current if it is the first not deferred |
| `TransitionHistory.StateMachine.DoAddTransition` | bindings/node-polycall/src/modules/StateMachine.js:56-81 | both ends must exist; stored under the joined key |
| `TransitionHistory.StateMachine.ExecuteTransition` | bindings/node-polycall/src/modules/StateMachine.js:84-137 | checks, hooks, move, record, and what a throwing hook leaves behind |
| `TransitionHistory.StateMachine.RecordTransition` | bindings/node-polycall/src/modules/StateMachine.js:140-151 | push, then shift if too long |
| `TransitionHistory.HistoryIsPath` | bindings/node-polycall/src/modules/StateMachine.js:84-151 | in every run without throwing `after` hooks the history is the last steps taken, connected, ending at the current state |
| `TransitionHistory.PathLostExactly` | bindings/node-polycall/src/modules/StateMachine.js:84-151 | without self-transitions a call ends the agreement of history and last steps if and only if it moves and its `after` hook or listener throws |
| `TransitionHistory.HistoryIsPathExactly` | bindings/node-polycall/src/modules/StateMachine.js:84-151 | over every run: the history is at all times the last steps taken if and only if no such move is made |
| `TransitionHistory.StepTakenExactly` | bindings/node-polycall/src/modules/StateMachine.js:84-137 | over names that share no keys, after every run: a step is taken, and the call returns, if and only if the calls so far and the hooks allow it; definitions, locks and self-transitions are read off the calls |
| `TransitionHistory.LockedUntilUnlocked` | bindings/node-polycall/src/modules/StateMachine.js:102-105 | from a lock to the unlock, over any calls: still locked, no step from or to it |
| `TransitionHistory.CurrentExactly` | bindings/node-polycall/src/modules/StateMachine.js:22-42 | the current state is the first one added undeferred, or the target of the last step |
| `TransitionHistory.StepsDefinedExactly` | bindings/node-polycall/src/modules/StateMachine.js:67-96 | all steps of all runs are defined transitions if and only if no two pairs of names share a key |
| `TransitionHistory.ArrowFreeNames` | bindings/node-polycall/src/modules/StateMachine.js:67 | names without the arrow share no keys |
| `TransitionHistory.ArrowNamesCollide` | bindings/node-polycall/src/modules/StateMachine.js:67-92 | names with the arrow can |

## Left out

- ConfigLoader.PolycallConfig.ParseLine: messages and line numbers are not modelled.
- StateMachine.PolycallStateMachine.Execute: actions are recorded, not run; they receive the library context, not the machine.
- Session.ProtocolSession.Process: callbacks are recorded, not called; re-entrant calls from callbacks are not covered.
- MicroServices.ServiceTable.BatchProcess: endpoints and memory pool of a service are not modelled.
- TransitionHistory.StateMachine.ExecuteTransition: targets are given by name, hooks and listeners finish before the next call, timestamps are dropped.
- NodeRequests.ProtocolHandler.ProcessMessage: of the event emitter only the exception of an `error` event without a listener is modelled; listeners that throw themselves are not.
- The file-system side of the configuration code (opening, migration, error output) and its command line.
- `polycall_micro_init`, `polycall_micro_cleanup`, command transforms and `process_commands`: wiring, or effects of caller code.
- The tokenizer's outer loop over its buffer, token values, `src/polycall_parser.c`, `src/polycall_token.c`: the loop goes by buffer capacity instead of input length, and the parser's nodes outlive their pool, so no meaning of a whole text can be stated.
- `src/network.c`, `src/main.c` and `src/polycall.c`: sockets, threads, command loop.
- Snapshot and restore of the Node machine, the Go, Java, Python, COBOL, Lua and Zig bindings, XML schemas.
