# libdeadcom: framing, link and fault injector, verified

This project models the C library libdeadcom in Dafny and proves what it is for: a reliable, in-order datagram link
over a byte line that loses and damages frames. `dafny verify dfyconfig.toml` checks everything.

The model has three layers, and the proofs join them.

**Bytes to frames (`yahdlc.c`).** `Fcs` holds the 256-entry table and the 16-bit check sequence, `Control` the control
byte, `Framing` the framer that escapes and writes a frame. `Parser` says what the deframer means one byte at a time,
and gives a second, independent specification that cuts the stream at flags; `Deframing` is the resumable deframer
itself, with its state in fields, its look-ahead over repeated flags and its overflow reset. `Streams` and `Damage` are
about whole streams: cutting into buffers, resynchronisation, round trips, errors the FCS catches. `Limits` states where
lengths and buffers stop meaning what their users take them to mean.

**Frames to messages (`dcl2.c`).** `Station` gives every atomic step of a station between taking and releasing the mutex;
the two blocking calls are cut where they wait. `Deadcom` is the link object, bytes in and bytes out, with its consuming
loop and its retry loop; what other threads do during a wait is an argument of the call. `Lifting` shows that the object's
effect on a byte stream is the fold of the frame handler over the frames sent. `Link` puts two stations on two lossy FIFO
channels of frames as a transition system; `Session` proves the stop-and-wait protocol over all its runs, `Recovery` when
an outstanding message can still come home, `Handshake`, `Contention` and `ContentionSafety` how a session comes about,
`Interruption` and `Failures` what goes wrong without their conditions, and `Calls` that the blocking calls on bytes are
runs of the transition system, so that the theorems about runs hold of the calls. `Answers` says what every call and every
DATA frame gets in answer, in every state and not only inside a session.

**The fault injector (`leaky-pipe.c`).** `LeakyPipe` proves the cursors over sorted fault lists against a specification by
position; `LossyLine` puts the injector between two stations.

Sequence numbers are counted modulo 8 as in the code, and compared with unbounded histories: the messages submitted, the
messages picked up, and the number reported as delivered.

The code, not the prose, is modelled where they differ: three transmissions rather than ten failures
(docs/dcl2/protocol.md:248-249 against dcl2/lib/inc/dcl2.h:25), no NACK is ever sent (docs/dcl2/protocol.md:264-265), the
acknowledgement is sent when the application picks the message up (docs/dcl2/protocol.md:253-255 against
dcl2/lib/src/dcl2.c:228-248), out-of-sequence DATA is ignored (docs/dcl2/protocol.md:261-262 against
dcl2/lib/src/dcl2.c:325), a message being sent makes a second send fail instead of wait
(dcl2/lib/inc/dcl2.h:226-227 against dcl2/lib/src/dcl2.c:132-135), and the poll bit of ACK, NACK and CONN_ACK is clear and
the supervisory bits of NACK are 2 (docs/dcl2/protocol.md:133-149 against dcl2/lib/src/yahdlc.c:176-204).

Four expectations turned out not to hold without a condition. Each has its exact condition, and runs show the failure:
that the scratchpad of 249 bytes is enough (`Limits.ScratchpadEnough`, with `Limits.CoveredLineFits` and
`Limits.MergedFramesFit` for what that means for payloads), that the reported length is a length
(`Limits.ReportedLengthExact` with `Limits.ThreeByteFrameAccepted`), that a message that was delivered can be reported
(`Recovery.RecoverableExactly` with `Failures.SignalOverlooked`: a clock that runs out after the acknowledgement was
counted makes the sender drop the link), and that success of `dcConnect` means a session. The last fails when the peer
was sending as the request arrived (`Handshake.PeerMustBeFree`, `Interruption.InterruptedMessageHarms` and
`Failures.BusyPeerBreaksSession`), or when an answer to an earlier attempt is taken for the answer to the current one
(`Handshake.AnswerExactly` and `Handshake.LostRequestNeverJoins` with `Failures.LateAnswerBreaksSession` and
`Failures.LostRequestBreaksSession`).

## Model

| member | source | states |
|---|---|---|
| Fcs.TableDrivenIsPolynomial | dcl2/lib/src/yahdlc.c:73-106 | The table-driven FCS is the bit-by-bit remainder by the reflected polynomial 0x8408, for every starting value and byte sequence. |
| Fcs.AcceptanceExact | dcl2/lib/src/yahdlc.c:359-366 | After any prefix, two bytes bring the FCS to 0xF0B8 if and only if they are the low and the high byte of the complemented FCS of that prefix. |
| Fcs.BurstDetected | dcl2/lib/src/yahdlc.c:104-106 | A change of one byte or of two adjacent bytes changes the FCS of data of any length. |
| Fcs.InitialValueComplements | dcl2/lib/inc/yahdlc.h:49-50 | Starting from the initial value has the effect of starting from zero with the first two bytes complemented, as ISO/IEC 13239, section 4.2.5.2, has it, for every byte sequence of at least two bytes. |
| Control.ControlRoundTrip | dcl2/lib/src/yahdlc.c:129-207 | Decoding an encoded control field gives back the frame type and exactly the sequence numbers that type carries. |
| Control.ControlLayout | docs/dcl2/protocol.md:66-90 | Which bits of the control byte say what: format, supervisory and modifier bits, N(S) in bits 1 to 3, N(R) in bits 5 to 7, and the poll bit exactly in DATA and CONN. |
| Control.EveryByteRead | dcl2/lib/src/yahdlc.c:129-162 | How every one of the 256 control bytes is read: exactly which are CONN, CONN_ACK, ACK and NACK, that the rest read as DATA, and which bits the numbers come from; reading is stable under writing and reading again. |
| Framing.EscapeValue | dcl2/lib/src/yahdlc.c:109-126 | Appends the escaped form of one byte and touches nothing behind it; without a destination only the index advances. |
| Framing.EscapeRoundTrip | dcl2/lib/src/yahdlc.c:257-266 | Escaped data contains no flag, unescapes to the original, and is longer by the number of special bytes. |
| Framing.EscapesOctets | docs/dcl2/protocol.md:108-113 | The octets replaced are 0x7E and 0x7D and no others, each by 0x7D and the octet with its sixth bit complemented. |
| Framing.FrameData | dcl2/lib/src/yahdlc.c:322-377 | The framer writes exactly the encoded frame and nothing behind it, and the dry run reports exactly the length the real run writes. |
| Framing.RequestOnWire | dcl2/lib/src/dcl2.c:62-72 | A connection request is on the wire as 7E FF 3F F3 39 7E. |
| Framing.FrameLength | dcl2/lib/inc/dcl2.h:27-29 | A frame has 6 bytes, the payload of a DATA frame and one byte for every escaped one; at most twice the payload plus 10. |
| Framing.FlagsOnlyAtEnds | dcl2/lib/src/yahdlc.c:334-374 | In an encoded frame a byte is a flag exactly at the two ends. |
| Framing.ContentIsGood | dcl2/lib/inc/yahdlc.h:49-53 | The content of every encoded frame has the good FCS value. |
| Parser.SplitJoin | dcl2/lib/src/yahdlc.c:233-256 | Cutting a stream at its flags gives flag-free pieces that join to the stream again. |
| Parser.JoinSplit | dcl2/lib/src/yahdlc.c:233-256 | There is no other way to cut it: flag-free pieces joined by flags are cut into the same pieces. |
| Parser.StreamRefinement | dcl2/lib/src/yahdlc.c:232-320 | For every stream and limit, the frames and rejections of the byte-by-byte parser are those of the specification: between flags drop empty pieces, unescape, reject the short, the oversize and those with a bad FCS; and the state reached is that of the last piece. |
| Deframing.Deframer.ResetState | dcl2/lib/src/yahdlc.c:210-218 | Resets every field and keeps the limit it is given. |
| Deframing.Deframer.TakeByte | dcl2/lib/src/yahdlc.c:257-288 | One byte inside a frame acts as the byte step; at the limit the state is reset and the byte left unread. |
| Deframing.Deframer.Scan | dcl2/lib/src/yahdlc.c:232-291 | The scanning loop with its look-ahead agrees with the byte step, which takes an end flag at once as the next start flag. |
| Deframing.Deframer.GetData | dcl2/lib/src/yahdlc.c:221-320 | Either the whole buffer was read without a report, or the first report of the byte-by-byte parser is returned with the position from which a reset parser continues to the same end; zero progress only from inside a frame. |
| Streams.ReachableSound | dcl2/lib/src/yahdlc.c:210-291 | What is known of the parser state in every reachable state: hunting with cleared fields, or inside a frame, cleared just behind a flag. |
| Streams.ChunkIndependence | dcl2/lib/src/yahdlc.c:236-256 | Any cutting of a stream into buffers gives the same frames, rejections and final parser state. |
| Streams.FrameVerdict | dcl2/lib/src/yahdlc.c:300-312 | The wire form of a frame that fits is accepted with its carried control field and its payload. |
| Streams.SelfSynchronisation | dcl2/lib/src/yahdlc.c:247-284 | From every reachable state and after any garbage, a frame that fits is delivered intact and last. |
| Streams.StreamRoundTrip | dcl2/lib/src/yahdlc.c:221-377 | From every reachable state, a line of frames with shared, doubled or repeated flags delivers exactly those frames, in order. |
| Streams.TransmittedEvents | dcl2/lib/src/yahdlc.c:322-377 | The concatenated encodings of a list of frames deliver exactly that list and end between frames. |
| Damage.WireByteRejected | dcl2/lib/src/yahdlc.c:300-305 | A change of one wire byte of a good frame, neither value being a flag or an escape, is rejected. |
| Damage.BurstRejected | dcl2/lib/src/yahdlc.c:300-305 | A change of one byte or of two adjacent bytes of the content before escaping is rejected. |
| Damage.DamageIsLoss | dcl2/lib/src/yahdlc.c:293-316 | On a line that loses frames or damages them so, the receiver gets exactly the untouched frames, in order. |
| Limits.ScratchpadNeeded | dcl2/lib/inc/dcl2.h:105-106 | One undamaged frame stores its payload and two bytes more, so that 249 bytes hold it if and only if the payload has at most 247. |
| Limits.ScratchpadEnough | dcl2/lib/inc/yahdlc.h:119-120 | For every stream and every size below the limit: reading never stores more than that many bytes if and only if no piece behind the first flag has more than two bytes more after unescaping. |
| Limits.CoveredLineFits | dcl2/lib/inc/dcl2.h:105-106 | On a line that loses whole frames or damages them within what the FCS is certain to catch, 249 bytes are enough if and only if the payloads that arrive have at most 247. |
| Limits.LongestDelivered | dcl2/lib/src/yahdlc.c:269-283 | A station's deframer delivers a frame if and only if its information field has at most 505 bytes. |
| Limits.MergedFramesFit | dcl2/lib/inc/dcl2.h:105-106 | Two frames that run together because the flags between them were lost need both their payloads to have at most 243 bytes in sum. |
| Limits.ReportedLengthExact | dcl2/lib/src/yahdlc.c:311 | For an accepted frame the reported length is that of the information field if and only if the frame has at least four bytes. |
| Limits.ThreeByteFrameAccepted | dcl2/lib/src/yahdlc.c:299-301 | Every three-byte content with a correct FCS is accepted, and its reported length wraps around. |
| Deadcom.FeedAppend | dcl2/lib/src/dcl2.c:266-288 | Feeding two buffers to a station one after the other is feeding their concatenation. |
| Deadcom.DeadcomL2.constructor | dcl2/lib/src/dcl2.c:16-40 | A new object is disconnected with zero counters, an empty parser and nothing sent. |
| Deadcom.DeadcomL2.DropLink | dcl2/lib/src/dcl2.c:5-13 | Clears counters and the stored message and disconnects; parser and history stay. |
| Deadcom.DeadcomL2.OnFrame | dcl2/lib/src/dcl2.c:290-415 | The switch over frame types changes fields and transmits bytes exactly as the frame handler says. |
| Deadcom.DeadcomL2.Consume | dcl2/lib/src/dcl2.c:266-417 | The loop terminates although a round may use no byte, consumes the whole buffer, and equals handling every report of the buffer in order. |
| Deadcom.DeadcomL2.ProcessData | dcl2/lib/src/dcl2.c:259-421 | An empty buffer fails and changes nothing; any other buffer has the effect of its reports and leaves the parser behind it. |
| Deadcom.DeadcomL2.GetReceivedMsg | dcl2/lib/src/dcl2.c:207-256 | Hands over the pending message whole, acknowledges it and clears it; otherwise nothing changes. |
| Deadcom.DeadcomL2.PeekReceivedMsg | dcl2/lib/src/dcl2.c:214-226 | Reports the length of the pending message, zero if there is none, and changes nothing. |
| Deadcom.DeadcomL2.DisconnectLink | dcl2/lib/src/dcl2.c:107-122 | Disconnects unless the link is connecting, and changes nothing else. |
| Deadcom.DeadcomL2.ConnectLink | dcl2/lib/src/dcl2.c:43-104 | For every activity during the wait, the call equals begin, wait and wake-up of the station. |
| Deadcom.DeadcomL2.SendMessage | dcl2/lib/src/dcl2.c:125-204 | For every activity during its waits, the call equals its begin step followed by rounds of transmit, wait and wake-up. |
| Deadcom.DeadcomL2.Retry | dcl2/lib/src/dcl2.c:157-197 | The retry loop over the failure counter, which other threads may clear, equals the recursive specification. |
| Deadcom.DeadcomL2.Attempt | dcl2/lib/src/dcl2.c:160-184 | One round transmits the frame, waits, and classifies the response; only an unanswered round counts as a failure. |
| Answers.SendAnswers | dcl2/lib/src/dcl2.c:125-204 | Whatever happens during the waits: DC_FAILURE exactly for a message that is not of 1 to 249 bytes or while one is being sent, DC_NOT_CONNECTED exactly for a legal message on a link that is down, both without any change; in every other case a DATA frame with this payload and the station's numbers was transmitted from CONNECTED, DC_OK leaves the link connected and DC_LINK_RESET leaves it dropped. |
| Answers.SilenceDropsLink | dcl2/lib/inc/dcl2.h:25 | Three waits without an answer: the same frame is transmitted exactly three times, and DC_LINK_RESET returned with the link down. |
| Answers.RejectIsTimeout | docs/dcl2/protocol.md:267-270 | A rejection wakes the sender exactly as the running out of its clock does, and is ignored by a station that is not sending. |
| Answers.DataAnswers | dcl2/lib/src/dcl2.c:291-327 | Every DATA frame in every state: stored exactly if it bears the number expected, has a payload and nothing is stored; acknowledged with its own number, the station unchanged, exactly if it bears the number before and nothing is pending; otherwise ignored. |
| Answers.RequestAnswers | dcl2/lib/src/dcl2.c:357-403 | Every connection request, in every state: answered, all counters and the stored message cleared, the link up unless a connect is under way; a waiting send is woken to return DC_LINK_RESET, a waiting connect is woken, and nobody else is. |
| Answers.PickUpAnswers | dcl2/lib/src/dcl2.c:207-256 | Peek and pick-up return DC_OK exactly if the link is up, otherwise DC_NOT_CONNECTED, and agree on the length; without a complete message nothing is handed over, transmitted or changed; with one it is handed over, acknowledged with its own number, and gone. |
| Answers.ConnectAnswers | dcl2/lib/src/dcl2.c:43-104 | DC_OK at once if connected and DC_FAILURE exactly while connecting, both without change or transmission; otherwise a request is transmitted, and the call returns DC_OK exactly if the wait ended by a signal, connected with zero counters, and DC_NOT_CONNECTED exactly if it ended by the clock, disconnected. |
| Answers.DisconnectAnswers | dcl2/lib/src/dcl2.c:107-122 | DC_FAILURE exactly while connecting, without change; otherwise DC_OK, and the link is down with everything else as it was. |
| Answers.HangupSilences | dcl2/lib/inc/dcl2.h:203-217 | After a hang-up, in every run in which the station does not connect and is handed no request, it submits, stores, picks up, reports and transmits nothing, and stays disconnected. |
| Answers.NewIsReset | dcl2/lib/src/dcl2.c:16-40 | A new station is as one whose link was reset. |
| Lifting.TransmissionLifts | dcl2/lib/src/dcl2.c:266-417 | Everything one station transmitted, cut into buffers in any way, acts on the other exactly as its frames in order. |
| Lifting.LineLifts | dcl2/lib/src/dcl2.c:266-417 | The same for frames that share or repeat flags, from any reachable parser state. |
| Lifting.DamageLifts | dcl2/lib/src/dcl2.c:277-279 | A line with losses and covered damage acts as a line from which those frames are missing. |
| Lifting.EmittedFits | dcl2/lib/inc/dcl2.h:24-29 | Every frame a station transmits is within the receiver's limits and is seen as it was sent. |
| Session.StepKeeps | dcl2/lib/src/dcl2.c:125-343 | The session invariant, relating counters modulo 8, both channels and both histories in both directions, is kept by every send, wake-up, delivery, loss, pick-up and disconnect. |
| Session.InOrderDelivery | dcl2/lib/src/dcl2.c:291-327 | In every run of a session, what a station has picked up, followed by what is pending, is a prefix of what the other has submitted: no loss, repetition or reordering. |
| Session.ConfirmedWerePickedUp | docs/dcl2/py-api.rst:80-82 | In every run, the messages reported DC_OK have been picked up by the peer, and at most one submitted message is not reported. |
| Session.OkMeansPickedUp | dcl2/lib/src/dcl2.c:174-191 | When a wake-up makes the send return DC_OK, the peer has picked up this message and all before it. |
| Session.OnlyTheRightAckCounts | dcl2/lib/src/dcl2.c:328-343 | An acknowledgement that has an effect belongs to the message being sent, which was picked up and not acknowledged before. |
| Session.OnlyNewDataIsStored | dcl2/lib/src/dcl2.c:294-301 | A DATA frame has an effect if and only if it is a copy of the one message not received yet and none is pending. |
| Session.StoredExactlyWhenComplete | dcl2/lib/src/dcl2.c:295-300 | In every run, connecting and resetting included, the stored size is positive exactly when a complete message is stored. |
| Session.PendingIsStable | dcl2/lib/inc/dcl2.h:263-271 | In any state of the system, as long as the link of the station stays up, no connection request arrives and nothing is picked up, the pending message is kept; peek reports its length and pick-up returns it whole. |
| Session.SessionKeepsPending | dcl2/lib/inc/dcl2.h:263-271 | In a session it is enough that the link is up at the end of the run. |
| Link.Symmetry | docs/dcl2/protocol.md:157-158 | Exchanging the two stations turns runs into runs. |
| Recovery.Recoverable | dcl2/lib/src/dcl2.c:158-185 | While a retry remains and the peer is up, some schedule of deliveries, pick-ups and at most one timeout makes the send return DC_OK; while the message leaves a trace (a copy or an acknowledgement under way, or pending at the peer), one without any timeout. |
| Recovery.RecoverableExactly | dcl2/lib/src/dcl2.c:157-197 | Such a schedule exists if and only if no counted acknowledgement was overlooked by a timeout and a retry or a trace of the message remains; otherwise no run of the session ever reports the message, and one that was overlooked has been picked up. |
| Handshake.ConnectEstablishes | dcl2/lib/src/dcl2.c:60-102 | With anything under way in both channels and the peer in any state, losses included: if the peer was in no send call when it handled the request, did not connect anew afterwards, and no older request or answer was handed to the caller, DC_OK means both ends restarted from zero during the call and every frame left belongs to the new session. |
| Handshake.ConnectionDelivers | dcl2/lib/src/dcl2.c:43-343 | From that request on: after such a connection every run of sends, timeouts, retransmissions, losses, deliveries and pick-ups delivers in order and reports only what was picked up. |
| Handshake.PeerMustBeFree | dcl2/lib/src/dcl2.c:379-402 | From the moment the peer handles the request, every success of the call leaves nothing of the past if and only if the peer was not transmitting then, nor interrupted before; otherwise an old message of the peer can be under way behind its answer. |
| Interruption.InterruptedMessageHarms | dcl2/lib/src/dcl2.c:157-197 | If the peer was in a send call, some success followed by some run of the session ends with a message that was not submitted, or reported and not picked up, if and only if the interrupted message has number 0. |
| Handshake.AnswerExactly | dcl2/lib/src/dcl2.c:404-413 | Any request or answer handed to the caller makes dcConnect return DC_OK, with a new session if and only if it is an answer with only new frames behind it and the peer had handled the request; or, if the request was lost, an older request or a connect of its own had made the peer start over since the call began, nothing more is under way to it, and it is as that left it. |
| Handshake.OlderAnswerSpoils | dcl2/lib/src/dcl2.c:404-413 | So an older request or answer handed to the caller spoils the call, if the request or the answer to it is still under way, or the request was lost and the peer has not started over. |
| Handshake.LostRequestNeverJoins | dcl2/lib/src/dcl2.c:60-102 | Over all runs in which no other request was under way and the peer completes no connect of its own: the peer starts over if and only if it handles the request, and until then whatever request or answer is handed to the caller makes dcConnect return DC_OK without a new session. |
| Failures.BusyPeerBreaksSession | dcl2/lib/src/dcl2.c:157-197 | For every message, a run in which the peer begins to send before the request arrives and its wait ends by the clock: dcConnect returns DC_OK, and then the caller receives a message that was not submitted in the session. |
| Failures.LateAnswerBreaksSession | dcl2/lib/src/dcl2.c:404-413 | From two initialised stations, for every two different messages, a run in which a late answer ends the second attempt; later a send returns DC_OK for a message that the other end never picks up. |
| Failures.LostRequestBreaksSession | dcl2/lib/src/dcl2.c:305-324 | From any new session with a late answer under way, for every two different messages, a run in which the request is lost and that answer ends the call; then a send returns DC_OK for a message that the other end takes for a copy of the old one. |
| Failures.SignalOverlooked | dcl2/lib/src/dcl2.c:167-184 | From every new session, for every message, a run in which the clock ends the wait after the acknowledgement was counted: the message is picked up, and no continuation ever reports it. |
| Handshake.InterruptedForGood | dcl2/lib/src/dcl2.c:157-197 | A station that was transmitting when it handled a request never returns DC_OK from that call in any run without a further request, woken by the signal or by the clock, and once the call has returned the link is down. |
| Contention.ContentionProgress | dcl2/lib/src/dcl2.c:357-414 | Every step of two simultaneous connection attempts brings them closer to their end. |
| Contention.SimultaneousConnect | docs/dcl2/protocol.md:193-202 | Without loss and timeout every run is bounded, and where it stops both calls returned DC_OK, both ends are connected with zero counters and nothing is under way. |
| ContentionSafety.ContentionSafe | dcl2/lib/src/dcl2.c:357-414 | When both stations call dcConnect once, at any times, with losses, timeouts and messages sent as soon as either end is connected: in every state reached, what has arrived is a prefix of what was submitted, and what was reported has been picked up. |
| Calls.WaitAgrees | dcl2/lib/src/dcl2.c:259-421 | What the buffers handed to the object during a wait do to it is a stretch of a run, however the bytes are cut, whichever frames were lost or damaged within what the FCS is certain to catch, and also when a frame is half received at a pick-up or at the end of the wait. |
| Calls.BeginningIsProper | dcl2/lib/src/yahdlc.c:293-317 | Any beginning of a frame, up to its end flag, may have been read without a report when a wait begins or ends. |
| Calls.SendIsRun | dcl2/lib/src/dcl2.c:125-204 | The send call on bytes, refused or begun, and the run of the two-station system on frames reach the same station state with the same result, for every way the waits may go, every cutting of the bytes and all covered damage. |
| Calls.OkReachesThePeer | docs/dcl2/py-api.rst:78-82 | In a session, whenever a send call on bytes returns DC_OK, the peer has picked up exactly the messages submitted so far, this one last. |
| Calls.ConnectIsRun | dcl2/lib/src/dcl2.c:43-104 | The connect call on bytes and the run on frames reach the same station state with the same result, for every way its wait may go. |
| Calls.ConnectReachesThePeer | dcl2/lib/src/dcl2.c:60-102 | When the connect call on bytes returns DC_OK under the conditions of `Handshake.ConnectEstablishes`, a new session is established. |
| LeakyPipe.LeakyPipe.constructor | leaky-pipe/src/leaky-pipe.c:31-53 | A new pipe has pushed exactly the additions at position 0. |
| LeakyPipe.LeakyPipe.Transmit | leaky-pipe/src/leaky-pipe.c:56-109 | With sorted lists and whatever the random draws decide, the pushed bytes are those of the specification by position; a pipe cut off ignores the byte. |
| LeakyPipe.CorruptionIsPointwise | leaky-pipe/inc/leaky-pipe.h:55-60 | Without drops and additions each output byte is its input byte with the corruptions of its own position. |
| LeakyPipe.FlawlessPipe | leaky-pipe/src/leaky-pipe.c:8-23 | A pipe without faults is the identity. |
| LeakyPipe.FaultsFollowTheInput | leaky-pipe/inc/leaky-pipe.h:73-84 | The output consists of what is left of the transmitted bytes, which no addition changes or shifts, and of the additions, which no drop or corruption changes or shifts. |
| LeakyPipe.DocumentedExample | leaky-pipe/inc/leaky-pipe.h:76-82 | The example of the header comes out as documented. |
| LossyLine.HitFramesAreLost | leaky-pipe/src/leaky-pipe.c:71-75 | Whatever frames are sent and however many of them the corruption list hits in one ordinary byte each, the receiving station acts as if exactly the frames hit had been lost. |

## Left out

- Deadcom.DeadcomL2.constructor: the scratchpad is as long as `yahdlc_get_data` demands of its destination; when the 249 bytes of dcl2/lib/inc/dcl2.h:106 are enough is what `Limits.ScratchpadEnough` says.
- Deadcom.DeadcomL2.OnFrame: the same limit on DATA frames as for ProcessData.
- Deadcom.DeadcomL2.Consume: the same limit on DATA frames as for ProcessData.
- Deadcom.DeadcomL2.Attempt: a failing transmit callback or wait ends the loop early in the source; both always succeed here, as for SendMessage.
- Deadcom.DeadcomL2.GetReceivedMsg: the transmit callback always succeeds, as for SendMessage.
- Deadcom.DeadcomL2.ProcessData: required are DATA frames of at most 249 bytes and at least an FCS, the limit of docs/dcl2/protocol.md:93-94; what the code does with longer ones is undefined in C.
- Deadcom.DeadcomL2.SendMessage: the transmit callback always succeeds, so the branches that undo the send number are not modelled, nor are failing mutex and condition variable calls and null arguments.
- Deadcom.DeadcomL2.ConnectLink: mutexes, clocks and the condition variable appear only as what may happen during a wait, the signal flag, and the choice to time out.
- Deframing.Deframer.GetData: indices are unbounded; the 64-bit range matters only for the reported length.
- Handshake.ConnectEstablishes: a peer whose own request reaches the caller is the subject of `Contention.SimultaneousConnect` and `ContentionSafety.ContentionSafe`.
- Recovery.Recoverable: a schedule exists; that a fair line follows one is not stated.
- ContentionSafety.ContentionSafe: a station that connects again after it was reached and lost the link is the subject of `Handshake.ConnectEstablishes`.
- LeakyPipe.LeakyPipe.Transmit: the random draws are arguments; the generator, the probabilities and the thread-safe pipe are not modelled.
- NACK frames are handled as the code does but no station sends one, so no run contains them.
- Calls of connect or disconnect while the same station is sending are not part of a run.
- dcrcp, the Python bindings, the pthread helper and the tests are not part of this model.
