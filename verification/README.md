# Loona: a verified model

This project models the parts of Loona, an HTTP/1.1 and HTTP/2 stack, whose
correctness is hard to see from the code, and proves what they promise. Everything
is Dafny; `dafny verify dfyconfig.toml` checks the whole project.

## What is modelled

**The HTTP/2 server connection** (RFC 9113). `H2State` holds stream states, send
queues and the specification of one turn of the scheduler; `H2Machine` is the
connection as a transition system whose steps are a frame from the peer, an event
from a response encoder, and a run of the scheduler over the pending streams in any
order. The `Notify` permit is a boolean; connection errors and every `unreachable!`,
`expect` and guard are states that nothing leaves. Beside the connection the model
keeps the frames written and, for each stream, a log of what its encoder gave, so that
invariants can be stated; the main results speak of the inputs and the wire alone.
`H2Scheduler` and `H2Effects` give, for one arbitrary stream, the effect of each kind of step; `H2Lifecycle`,
`H2Delivery`, `H2Windows`, `H2Wakeup`, `H2Requests` and `H2Wire` prove one invariant each;
`H2Safety` puts those of the sending side together over all runs. `H2Aborts` states exactly
when the scheduler aborts, `H2Blocks` when header blocks leave in the order of their
compression, `H2Reader` what a peer collects of them, and `H2Counterexamples` gives the runs
in which they do not. `H2Turn` and `H2Server`
are the code as it runs, nested loops and fields updated in place, proved against the
transition system. `H2History` ties what a connection keeps and writes to its inputs alone,
`H2Answers` what it tells the peer: answers, resets and errors. `H2Encoder` is the per-stream
response encoder, and `HandlerToPeer` leads from its calls to the bytes that the peer reads.

**HPACK** (RFC 7541). Integers, strings, the evicting table, blocks, whole sessions
with resizes (`HpackInteger`, `HpackTable`, `HpackCodec`, `HpackSession`, `Hpack`), every
representation that a peer may choose and what it means (`HpackMeaning`), which
table sizes an encoder may be told alone (`HpackSizes`), the
encoder and decoder as objects (`HpackPeers`), and the Huffman decoder with the exact
set of inputs it accepts (`Huffman`, `HuffmanTable`, `HuffmanCode`).

**Framing and incremental parsing.** `Frames`, `Transports`, `Reading` (`read_and_parse` with
its rolling buffer over a transport that splits reads as it likes), `Deframer`, `H1Chunked`,
`H1Senders` (bodies as any sender may write them, and as they break off);
`EndToEnd` composes
compression, fragmentation, writing, deframing and reassembly.

**Buffers and I/O.** `RollBuffer` (buffers and aliased views on heap arrays, which are pool
blocks or boxes), `RollPool` (any number of them on one pool), `RollRefinement` (the first
moves as the second does), `BufPool` (reference counts), `Uring` (operations on any number of
rings, an asynchronous kernel and cancellation), `VectoredIo`.

## Where the code and its promises part

- The scheduler can abort with a legal peer: `SchedulerRunsIff` gives the exact
  condition, and three runs show each way it fails.
- `read_and_parse` panics when `reserve` leaves its buffer full, which two legal frames
  bring about (`TwoFramesStick`); `StuckIff` gives the exact condition and `DeframeLoop`
  carries it.
- `filled` makes views of pool blocks that are not counted, so a block can be freed and
  handed out while a view or even a buffer is still on it. `StableUntilHandedOut` and
  `ExposedIff` state exactly how long and when a view is safe, `FreedExactlyWhen` when a
  block is freed, and two runs show bytes that change. Payloads that the deframer sends
  are such views; the model gives their bytes at the time they are sent.
- `MAX_WINDOW_SIZE` is `u32::MAX`, not the 2^31-1 of section 6.9.1 of RFC 9113; the
  window bounds are stated with the code's constant, `WindowPassesRfcLimit` is a run beyond
  the standard's, and three lemmas say exactly when it is kept.
- Header blocks are compressed when the event arrives but sent in the order in which a
  hash set is visited: `BlocksInOrderIff` says when that is the same order,
  `BlocksOutOfOrder` and `SwappedBlocksFail` what happens when it is not.
- `Encoder::set_max_table_size` tells the peer nothing: `EncoderSizeSafeIff` says exactly
  which sizes that leaves readable.
- `reserve` promises room and leaves none in one case, which its contract names exactly and
  `ReserveLeavesNoRoom` brings about.
- `reserve_at_least` subtracts before it compares: its contract names the overflow exactly
  (a build without overflow checks goes on with a wrapped number there). The server gets
  there through `write` when it compresses two header blocks of about 9000 octets into its
  scratch buffer, as `SecondBlockOverflows` does.
- `freeze_slice` does not count the handle it makes: `CountLaw` states what holds with it
  and `FreezeSliceFreesTooEarly` what breaks.
- An empty chunk is written as the chunked terminator, so the round trip holds exactly
  for lists without one.
- A size line of more than 16 octets that parses is refused or accepted as it happens to be
  buffered: `SameAnswerIff` says that these are exactly the lines whose answer depends on it.
- `H1Body::next_chunk` answers with the end of the body once its buffer slot is empty, so the
  call after an error reads as a clean end (`ErrorThenEnd`).
- `rst` writes the same RST_STREAM frame fifteen times; the model does too.
- `might_receive_more` says "more can come from the user", but is true also when all was
  received and something is still queued; the model follows the code.
- No receive window is ever given back, so the upload of a legal peer stalls after 65535 bytes
  of a request body; more DATA than that is a window underflow (`UploadsStall`).
- An operation that is dropped early is cancelled by its key on the thread's own ring, whatever
  ring it is on: `AimKeptIff` says when cancels aim right, `CancelHitsAnother` is a run in which
  one does not.
- Trailers after a complete response abort the server (`TrailersInWrongState`):
  `FramePanics` says exactly when, and `LateTrailersAbort` is a run that does.

## Model

| member | source | states |
|---|---|---|
| `H2Safety.SafeOverRuns` | crates/loona/src/h2/server.rs:394-425 | in every run, in any order of frames, events and scheduler runs, every state that was not aborted satisfies the delivery, window, wake-up and id invariants of all streams at once, and an abort has one of four known reasons |
| `H2Safety.StepKeepsGood` | crates/loona/src/h2/server.rs:400-422 | one iteration of the process loop keeps all of these invariants or aborts for a known reason |
| `H2Safety.NewWorldIsGood` | crates/loona/src/h2/types.rs:37-56 | a new connection satisfies them |
| `H2History.ResponseDelivery` | crates/loona/src/h2/server.rs:444-593 | for every run, from the inputs alone: what a peer reads of a stream is the header block that its handler gave and a prefix of the chunks that it gave, put together; all of them once the end is seen, which the handler must have given; while the stream sends, bytes on the wire and bytes queued are exactly those chunks |
| `H2Safety.EndIsSentExactlyWhen` | crates/loona/src/h2/server.rs:553-578 | a scheduler run puts END_STREAM on the wire if and only if BodyEnd was received, both windows are positive and everything queued fits both |
| `H2History.WindowAccounts` | crates/loona/src/h2/server.rs:727-759 | for every run that goes on, from the inputs alone: a stream window is the initial window that the peer set last plus all it granted minus body bytes on the wire, within [-(2^31-1), u32::MAX]; the connection window is 65535 plus all it was granted minus all DATA, and not negative; the frame size is the one set last |
| `H2History.SettingsHold` | crates/loona-h2/src/lib.rs:811-846 | settings are refused exactly if one has a value that section 6.5.2 of RFC 9113 forbids; otherwise the last value of each holds |
| `H2History.RequestAccounts` | crates/loona/src/h2/server.rs:849-866 | for every run that goes on, from the inputs alone: a stream that still receives has received the bytes of all its DATA, has that much less than 65535 of its window left, and keeps the length that its HEADERS announced, which was not passed |
| `H2History.DataOutcome` | crates/loona/src/h2/server.rs:835-894 | what DATA comes to, from the DATA before it and the length announced: a window underflow past 65535, a reset with PROTOCOL_ERROR if the length is not as announced, with CANCEL if nobody reads, and otherwise accepted and counted |
| `H2History.UploadsStall` | crates/loona/src/h2/server.rs:849-866 | in no run is a WINDOW_UPDATE written; and DATA for a stream that receives ends the connection with a window underflow if and only if it takes the DATA of that stream past 65535 |
| `H2History.TrailersOutcome` | crates/loona/src/h2/server.rs:1860-1885 | trailers end a request whose DATA came to the announced length and reset any other |
| `H2History.RunCompresses` | crates/loona/src/h2/server.rs:617-641 | header blocks are compressed for the streams that could still send when their handlers gave headers, in that order |
| `H2Answers.SignalsAreCalled` | crates/loona/src/h2/server.rs:1182-1224 | every run that goes on has acknowledged each SETTINGS frame and returned each PING with its payload, in order, and has written no other frame that is neither a response nor a reset |
| `H2Answers.FrameWrites` | crates/loona/src/h2/server.rs:1317-1347 | what a frame makes the server write at once is exactly the answer that it calls for, or fifteen resets of its stream with the error code for its fault |
| `H2Answers.FrameFails` | crates/loona/src/h2/server.rs:828-1314 | exactly when a frame ends the connection, and with which error |
| `H2Answers.RequestOutcome` | crates/loona/src/h2/server.rs:1815-1830 | an accepted request opens its stream with the whole receive window, or half closed, and with the send window that the peer set last |
| `HandlerToPeer.HandlerReachesPeer` | crates/loona/src/h2/encode.rs:70-168 | from the calls of a handler to the bytes: the peer reads the block that the handler gave, or the error response's, and a prefix of the chunks that it wrote with success, all of them once the end is seen |
| `H2Safety.NoLostWakeup` | crates/loona/src/h2/server.rs:394-711 | in every reachable state a stream that sends and has headers, pieces or an end to send is pending, and if both windows are open the notify permit is set |
| `H2Wakeup.ScheduleKeepsPending` | crates/loona/src/h2/server.rs:460-468 | a scheduler run takes no stream that has its headers off the pending set while it sends |
| `H2Safety.ArmsNeverReached` | crates/loona/src/h2/server.rs:617-706 | no run reaches the headers-too-late, body-end-twice, body-end-after-sending, piece-after-done-sending, DATA-for-missing-stream, DATA-in-wrong-state or Transition arms |
| `H2Safety.FramePanics` | crates/loona/src/h2/server.rs:828-1314 | a frame from the peer aborts the server if and only if it is accepted trailers for a stream whose response is complete |
| `H2Safety.StepGrowsWhole` | crates/loona/src/h2/server.rs:459-509 | what one step adds to the wire are whole header blocks and frames, and each HEADERS, CONTINUATION and DATA payload fits the peer's maximum frame size |
| `H2Safety.BlocksAreContiguous` | crates/loona/src/h2/server.rs:470-508 | in every run no frame of any stream stands between a HEADERS frame and the end of its header block |
| `H2Lifecycle.LifecycleOverRuns` | crates/loona/src/h2/server.rs:915-1048 | over every run: opened ids are odd and at most last_stream_id, which never falls; live streams stay within the maximum; each id takes only transitions of section 5.1 of RFC 9113, so a closed id never returns; Transition is never visible; a GOAWAY covers every stream opened |
| `H2Lifecycle.StepMoves` | crates/loona/src/h2/server.rs:394-425 | one step takes any stream id along one transition of section 5.1 of RFC 9113 at most: an idle id is not half closed (local) or closed at once |
| `H2Lifecycle.LeadsIsClosure` | crates/loona/src/h2/types.rs:111-134 | what runs may do to a stream is the closure of what steps may do, and two steps connect any two states that it relates |
| `H2Lifecycle.WriteAllMoves` | crates/loona/src/h2/server.rs:761-786 | sending alone half closes an open stream or closes one whose remote side is closed, and does nothing else |
| `H2Lifecycle.StepCounts` | crates/loona/src/h2/server.rs:946-964 | one step keeps the number of live streams within the maximum |
| `H2Lifecycle.NewHeadersMove` | crates/loona/src/h2/server.rs:915-971 | HEADERS for an id that is not live opens it only when odd and larger than every id before |
| `H2Lifecycle.SettingsKeepStreams` | crates/loona-h2/src/lib.rs:811-846 | applying settings changes the initial window and frame size and nothing else that is modelled |
| `H2Requests.RequestBodiesBounded` | crates/loona/src/h2/server.rs:849-866 | in every run a stream's receive window and what it received add up to 65535, the window is not negative, and no more than the announced length was received |
| `H2Requests.HalfClosingHasACause` | crates/loona/src/h2/server.rs:761-786 | an open stream becomes half closed (remote) only by its own DATA or HEADERS with END_STREAM, and half closed (local) only by a scheduler run that wrote its END_STREAM |
| `H2Requests.EndOfDataIsSeen` | crates/loona/src/h2/server.rs:857-882 | accepted DATA with END_STREAM closes the remote side, and only if all that was announced has come |
| `H2Requests.DataGoesOn` | crates/loona/src/h2/server.rs:864-868 | DATA without END_STREAM never does |
| `H2Requests.ScheduleKeepsIncoming` | crates/loona/src/h2/server.rs:761-786 | sending never touches the receiving side, also when it ends a response |
| `H2Scheduler.SchedulerEffect` | crates/loona/src/h2/server.rs:427-593 | closed form of both loops for one stream in any visiting order: a ready stream sends exactly its header block and as many body bytes as both windows allow, any other is untouched, windows fall by the bytes written, the permit is consumed |
| `H2Scheduler.QueueAllEffect` | crates/loona/src/h2/server.rs:444-581 | the first loop changes only the streams it visits, each once, and queues exactly their turns |
| `H2Scheduler.WriteAllEffect` | crates/loona/src/h2/server.rs:583-586 | the second loop writes all frames in order and takes their DATA bytes from the connection window, which stays non-negative |
| `H2Scheduler.WriteAllSide` | crates/loona/src/h2/server.rs:719-786 | writing a stream's own frames lowers its window by their DATA bytes and, with END_STREAM, ends its sending; nothing is written on a negative window |
| `H2Scheduler.TurnShape` | crates/loona/src/h2/server.rs:464-579 | a turn's frames all belong to its stream, carry exactly the bytes taken, and contain END_STREAM exactly when the turn ends the stream |
| `H2Aborts.SchedulerRunsIff` | crates/loona/src/h2/server.rs:444-586 | a scheduler run completes if and only if the connection window is closed, or every pending stream still sends, none has a negative window with something to send, and their turns together fit the connection window; otherwise it aborts, with the stream-gone reason exactly when a pending stream is gone |
| `H2Aborts.QueueRuns` | crates/loona/src/h2/server.rs:450-455 | the first loop aborts exactly when a pending stream has left the map or stopped sending |
| `H2Aborts.WriteTurnsRuns` | crates/loona/src/h2/server.rs:727-759 | the second loop aborts exactly when some turn overdraws its stream or all together overdraw the connection |
| `H2Counterexamples.ResetStreamStaysPending` | crates/loona/src/h2/server.rs:1076-1115 | a run from a new connection in which RST_STREAM leaves an id pending and the next scheduler run aborts |
| `H2Counterexamples.TwoStreamsOverdraw` | crates/loona/src/h2/server.rs:511-516 | a run in which two streams with open windows overdraw the connection window and abort |
| `H2Counterexamples.NegativeWindowOverdraws` | crates/loona/src/h2/server.rs:511-511 | a run in which SETTINGS makes a window negative, the cast makes it huge, and the scheduler aborts |
| `H2Counterexamples.LateTrailersAbort` | crates/loona/src/h2/server.rs:1860-1885 | a run in which a handler answers before the request has ended and the trailers that end it abort the server |
| `H2Counterexamples.WindowPassesRfcLimit` | crates/loona/src/h2/server.rs:43-43 | a run of one WINDOW_UPDATE after which the connection window is beyond 2^31-1 and the connection goes on |
| `H2Counterexamples.ConnectionWindowWithinRfc` | crates/loona/src/h2/server.rs:1249-1258 | an accepted increment keeps the connection window within 2^31-1 if and only if the sum is |
| `H2Counterexamples.StreamWindowWithinRfc` | crates/loona/src/h2/server.rs:1272-1283 | the same for a stream window |
| `H2Counterexamples.SettingsWithinRfc` | crates/loona/src/h2/server.rs:1158-1176 | the same for the change of a stream window by SETTINGS |
| `H2Counterexamples.BlocksOutOfOrder` | crates/loona/src/h2/server.rs:436-444 | a run in which two header blocks are on the wire in the opposite order of their compression |
| `H2Blocks.BlocksInOrderIff` | crates/loona/src/h2/server.rs:636-641 | over every run the header blocks on the wire are, in order and without gaps, the first ones compressed if and only if every scheduler run came to the streams with a block to send in the order of compression |
| `H2Blocks.OrderKeptIff` | crates/loona/src/h2/server.rs:436-444 | the same for one step, as a condition on the state and the visiting order before it |
| `H2Blocks.ScheduleSendsBlocks` | crates/loona/src/h2/server.rs:459-509 | a scheduler run adds exactly the blocks of the visited streams that have not sent theirs, in visiting order |
| `H2Effects.FrameEffect` | crates/loona/src/h2/server.rs:828-1314 | for every frame and every stream: windows move only by accepted increments and the change of the initial window, no response frame is written, and a stream that becomes able to send wakes the scheduler |
| `H2Effects.ShiftEffect` | crates/loona/src/h2/server.rs:1154-1190 | a SETTINGS delta moves each stream window by the delta, leaves the connection window alone, and wakes the scheduler if a window opens |
| `H2Effects.WindowUpdateEffect` | crates/loona/src/h2/server.rs:1231-1297 | WINDOW_UPDATE widens one window or fails or resets, and wakes the scheduler when a closed window opens |
| `H2Effects.RequestEffect` | crates/loona/src/h2/server.rs:1815-1830 | an accepted request opens a stream whose send window is the peer's initial window |
| `H2Delivery.TurnDelivers` | crates/loona/src/h2/server.rs:464-579 | a turn moves bytes from the queue to the wire: read by the peer's automaton the trace stays well formed, and it is Ended exactly when the turn ends the stream |
| `H2Delivery.FollowBlock` | crates/loona/src/h2/server.rs:470-508 | the queued HEADERS and CONTINUATION frames are read as the block |
| `H2Delivery.FollowTurnData` | crates/loona/src/h2/server.rs:516-579 | the queued DATA frames are read as the bytes taken; an empty one occurs only with END_STREAM |
| `H2Delivery.TurnKeepsBytes` | crates/loona/src/h2/types.rs:241-277 | bytes taken followed by bytes left are the bytes there were |
| `H2Delivery.EventKeepsDelivery` | crates/loona/src/h2/server.rs:595-711 | an event the encoder may emit never aborts and keeps the delivery invariant |
| `H2Delivery.ScheduleKeepsDelivery` | crates/loona/src/h2/server.rs:427-593 | a scheduler run keeps the delivery invariant of every stream |
| `H2Windows.ScheduleKeepsWindow` | crates/loona/src/h2/server.rs:727-759 | a scheduler run keeps both window accounts |
| `H2Windows.PeerKeepsWindow` | crates/loona/src/h2/server.rs:1137-1283 | frames from the peer keep both window accounts |
| `H2Windows.SentIsBody` | crates/loona/src/h2/server.rs:511-579 | bytes charged to a stream are the body bytes its peer reads |
| `H2Wakeup.ScheduleKeepsWake` | crates/loona/src/h2/server.rs:427-593 | after a scheduler run no pending stream is left that could still send |
| `H2Wakeup.TurnLeavesWork` | crates/loona/src/h2/server.rs:511-579 | a turn that leaves work behind has used up one of the two windows |
| `H2Wakeup.EventKeepsWake` | crates/loona/src/h2/server.rs:642-698 | an event that gives a stream work sets the permit when both windows are open |
| `H2Wakeup.EventWakesExactly` | crates/loona/src/h2/server.rs:646-703 | an event wakes the scheduler exactly if it brings headers or a chunk and both windows are open, or the end of a body with nothing queued |
| `H2Wakeup.PeerKeepsWake` | crates/loona/src/h2/server.rs:1154-1297 | frames from the peer lose no wake-up |
| `H2Wire.FrameGrows` | crates/loona/src/h2/server.rs:828-1347 | frames written in answer to the peer interrupt no header block |
| `H2Wire.TurnIsWhole` | crates/loona/src/h2/server.rs:470-579 | a turn is a whole header block and frames that fit the maximum frame size |
| `H2State.AdvanceDrops` | crates/loona/src/h2/types.rs:241-266 | popping whole pieces and splitting one drops exactly the first n queued bytes and leaves no empty piece in front |
| `H2Turn.QueueHeaderFrames` | crates/loona/src/h2/server.rs:470-508 | the header loop terminates and queues exactly the block cut at the frame size, CONTINUATION after HEADERS, END_HEADERS on the last |
| `H2Turn.BuildFrame` | crates/loona/src/h2/server.rs:522-557 | the piece loop fills a frame with the first min(queued, limit) bytes and puts the rest of a split piece back |
| `H2Turn.QueueBodyFrames` | crates/loona/src/h2/server.rs:516-579 | the body loop queues exactly the frames of a turn and leaves the queue that a turn leaves |
| `H2Turn.TakeTurn` | crates/loona/src/h2/server.rs:459-580 | headers and body of one stream, against the specification of a turn |
| `H2Turn.FullFrame` | crates/loona/src/h2/server.rs:516-579 | one filled frame and the turn that is left are the turn there was |
| `H2Server.Server.constructor` | crates/loona/src/h2/types.rs:37-56 | a new connection |
| `H2Server.Server.WriteFrame` | crates/loona/src/h2/server.rs:713-826 | the new state is that of the transition system, with the four guards as aborts |
| `H2Server.Server.SendDataMaybe` | crates/loona/src/h2/server.rs:427-593 | nested loops over pending streams and frames against the specification whose run properties are proved |
| `H2Server.Server.QueueStreams` | crates/loona/src/h2/server.rs:444-581 | the loop over pending streams, with its early exit and its expect |
| `H2Server.Server.HandleEvent` | crates/loona/src/h2/server.rs:595-711 | events update queue, pending set and permit as specified; an event for a stream that does not send is ignored |
| `H2Server.Server.Rst` | crates/loona/src/h2/server.rs:1316-1347 | the stream is removed and fifteen RST_STREAM frames are written |
| `H2Server.Server.ApplySettings` | crates/loona-h2/src/lib.rs:811-943 | settings take effect in order until one is refused, and those before it stay in effect |
| `H2Server.Server.ShiftStreams` | crates/loona/src/h2/server.rs:1154-1178 | whatever the iteration order, every window moves by the delta or some window overflows and some others have moved; the flag says whether a closed window opened |
| `H2Server.Server.ReceiveSettings` | crates/loona/src/h2/server.rs:1116-1192 | the answer to SETTINGS and the new state; after a refused setting those before it hold, after an overflow all hold and some windows have moved by the delta, and nothing else has changed |
| `H2Server.Server.ReceiveWindowUpdate` | crates/loona/src/h2/server.rs:1231-1298 | zero, overflowing and misdirected increments fail or reset; others widen one window |
| `H2Server.Server.ReceiveData` | crates/loona/src/h2/server.rs:835-894 | request DATA moves the request side of a stream, with window and content-length checks |
| `H2Server.Server.ReceiveHeaders` | crates/loona/src/h2/server.rs:895-1052 | request HEADERS and trailers by id, state and verdict on the block |
| `H2Server.Server.ReceiveTrailers` | crates/loona/src/h2/server.rs:1860-1885 | trailers half-close an open stream |
| `H2Server.Server.ReceiveRst` | crates/loona/src/h2/server.rs:1076-1115 | RST_STREAM closes a stream and leaves it in the pending set |
| `H2Server.Server.ProcessFrame` | crates/loona/src/h2/server.rs:828-1314 | every frame type against the transition system, whole state included; for SETTINGS as above |
| `H2Server.Server.ProcessStep` | crates/loona/src/h2/server.rs:394-425 | one iteration of the process loop on the object itself keeps every invariant proved over runs |
| `H2Encoder.EveryResponseIsWhole` | crates/loona/src/h2/encode.rs:70-168 | for every sequence of handler calls ended by a drop at any point the events are Headers BodyChunk* BodyEnd; if the connection stops listening they are a prefix of that |
| `H2Encoder.CallsAreSent` | crates/loona/src/h2/encode.rs:70-168 | for every sequence of calls the blocks and the body that were sent are those that the accepted calls gave, in order |
| `H2Encoder.OverIffWhole` | crates/loona/src/h2/encode.rs:10-15 | the phases accept exactly the sequences Headers BodyChunk* BodyEnd |
| `H2Encoder.EventsAreEnabled` | crates/loona/src/h2/encode.rs:41-47 | such events are the ones the connection expects, one after another |
| `H2Encoder.H2Encoder.Write` | crates/loona/src/h2/encode.rs:73-119 | a call in the wrong state or to a closed channel is an error and changes nothing; any other emits one event and advances |
| `H2Encoder.H2Encoder.Drop` | crates/loona/src/h2/encode.rs:135-168 | dropping sends what completes the response, as far as the connection listens |
| `EndToEnd.HeadersEndToEnd` | crates/loona/src/h2/server.rs:1349-1636 | a header list that is compressed, cut into frames, written, deframed, collected and decompressed comes back, with the tables in step and later frames untouched |
| `EndToEnd.BlockEndToEnd` | crates/loona/src/h2/server.rs:459-509 | a block cut at any legal frame size and written as bytes is read back whole |
| `EndToEnd.ResponsesSurviveTheWire` | crates/loona/src/h2/server.rs:800-823 | a peer that deframes the bytes sees the same responses as the frames written |
| `EndToEnd.PeerReadsResponses` | crates/loona/src/h2/server.rs:713-826 | the same from the bytes: for every run whose frames have ids of 31 bits, what a peer deframes is, for every stream, the block and a prefix of the chunks that its handler gave, and the end only with all of them |
| `EndToEnd.ReachableWireIsSendable` | crates/loona/src/h2/server.rs:795-805 | every frame a run writes has a length and an id that fit a frame header, and no padding |
| `EndToEnd.SessionEndToEnd` | crates/loona/src/h2/server.rs:1365-1636 | any number of header lists, compressed with one table, are read back from the bytes of any frames that hold their blocks in that order uninterrupted, whatever other frames are between them and whatever bytes follow |
| `EndToEnd.ConnectionEndToEnd` | crates/loona/src/h2/server.rs:594-711 | for every run in which each scheduler run fits: a peer that deframes the bytes and decodes the header blocks among all the frames gets the first header lists that were compressed, as many as blocks were sent |
| `EndToEnd.WireBlocks` | crates/loona/src/h2/server.rs:1365-1420 | in every run the blocks that a reader collects are, in wire order, those that the streams' handlers gave |
| `H2Reader.BlocksAreTraces` | crates/loona/src/h2/server.rs:1365-1420 | on frames whose blocks are not interrupted, collecting frame by frame gives the blocks that the per-stream traces have |
| `EndToEnd.SwappedBlocksFail` | crates/loona/src/h2/server.rs:636-641 | from any tables in step, of two blocks with one header of a new name the second read without the first gives the reader's newest entry, or an error without one: it gives the header if and only if the table has no room for it or the newest entry is it already |
| `Frames.FrameRoundTrip` | crates/loona-h2/src/lib.rs:397-422 | a frame header parses back to itself whatever follows, all fields included |
| `Frames.FrameLayout` | crates/loona-h2/src/lib.rs:413-441 | the nine octets of a header, one by one (section 4.1 of RFC 9113) |
| `Frames.FlagAt` | crates/loona-h2/src/lib.rs:193-230 | a flag is read from its own bit, whatever the bits around it are |
| `Frames.TypeRoundTrip` | crates/loona-h2/src/lib.rs:192-236 | type code and flags decode to the frame type they were encoded from |
| `Frames.ParsedFrameIsWellFormed` | crates/loona-h2/src/lib.rs:397-411 | a parsed header has a 24-bit length and a 31-bit stream id |
| `Frames.ChunksPartition` | crates/loona/src/h2/server.rs:470-508 | pieces concatenate to the block, all fit, all but the last are full |
| `Frames.FragmentationRoundTrip` | crates/loona/src/h2/server.rs:1365-1420 | collecting the HEADERS and CONTINUATION frames of any cut gives the block and leaves the frames after it |
| `Frames.BlockBreaksOff` | crates/loona/src/h2/server.rs:1376-1412 | a block that is not ended: the frames run out, or one comes for another stream or of another type, and the error says which |
| `Frames.CollectFragments` | crates/loona/src/h2/server.rs:1365-1420 | the collecting loop, with its three errors, against its specification |
| `Transports.Transport.Read` | crates/loona/src/util.rs:62-85 | a read takes between one and the allowed number of the bytes that are left, or fails and takes none |
| `Reading.ReadAndParse` | crates/loona/src/util.rs:31-103 | unless a read fails or the pool is empty: it panics if and only if the buffer gets stuck, and otherwise the answer, what is left and the shape of the buffer are functions of the bytes and the shape before, whatever the reads |
| `Reading.StuckIff` | crates/loona/src/util.rs:62-78 | the buffer gets stuck if and only if it is a box with an offset and exactly one block of room, more than a block is wanted, that many bytes come and the parser wants more |
| `Reading.Decided` | crates/loona/src/util.rs:43-50 | a decision on a prefix is the decision on the whole |
| `Reading.FrameStreams` | crates/loona-h2/src/lib.rs:397-411 | the frame parser never revises a decision when more bytes come |
| `Deframer.DeframeLoop` | crates/loona/src/h2/server.rs:282-392 | for every byte stream and every split into reads: the frames, unpadded payloads and final outcome, a panic included, of a one-shot parse through a buffer of that shape |
| `Deframer.BufferChangesNothingElse` | crates/loona/src/h2/server.rs:282-392 | that parse is the parse of the bytes alone unless the buffer gets stuck, and then gives the frames before that |
| `Deframer.TwoFramesStick` | crates/loona/src/h2/server.rs:325-350 | two legal frames, 12279 octets and then any length above 4096, on a fresh buffer make the loop panic |
| `Deframer.SmallFramesNeverStick` | crates/loona/src/h2/server.rs:325-350 | with frames of at most 4096 octets it never does |
| `Deframer.PayloadSettles` | crates/loona/src/util.rs:62-78 | reading a payload gets the buffer stuck exactly in that case, and otherwise moves and doubles it until the payload fits |
| `Deframer.NextPacket` | crates/loona/src/h2/server.rs:293-388 | one frame: header, length check, payload, padding, with each error and the panic |
| `Deframer.WireRoundTrip` | crates/loona/src/h2/server.rs:282-392 | frames written one after another are deframed as they were, followed by the rest of the stream |
| `Deframer.PaddedExactly` | crates/loona/src/h2/server.rs:357-382 | a padded frame is delivered with its content exactly if its octets are the length of the padding, the content and the padding; otherwise it is empty or too short for its padding, each with its error |
| `Deframer.PeerRoundTrip` | crates/loona/src/h2/server.rs:282-392 | whatever frames a peer writes, padded as it likes, are read as their contents, and then the rest of the stream |
| `Deframer.BadFrame` | crates/loona/src/h2/server.rs:318-350 | a frame that is longer than allowed, or that the stream does not hold, is none, with its error |
| `H1Chunked.HexRoundTrip` | crates/loona/src/h1/parse.rs:113-120 | a printed length parses back |
| `H1Chunked.HexIsShortest` | crates/loona/src/h1/body.rs:299-327 | a printed length is in lower case and has no leading zero |
| `H1Chunked.SizeLineRoundTrip` | crates/loona/src/h1/parse.rs:23-30 | a printed size line parses back within the reader's limit for sizes below 16^14 |
| `H1Chunked.ChunkSizeStreams` | crates/loona/src/h1/parse.rs:23-30 | the size-line parser never revises a decision |
| `H1Chunked.ChunkedRoundTrip` | crates/loona/src/h1/body.rs:299-349 | decoding what the writer produced gives the chunks' bytes and leaves what follows, if and only if no chunk is empty |
| `H1Senders.BodyIsRead` | crates/loona/src/h1/parse.rs:23-30 | every body that a sender may write, with sizes in digits of either case and with leading zeros, is read as its data and leaves what follows |
| `H1Senders.SizeFoundIff` | crates/loona/src/h1/parse.rs:113-120 | a size line is found exactly where one to fourteen hexadecimal digits and CRLF are |
| `H1Senders.NoSizeAfter` | crates/loona/src/h1/body.rs:162-174 | after whole chunks, the end of the stream or anything but a size line is that error |
| `H1Senders.DataCutShort` | crates/loona/src/h1/body.rs:218-241 | a stream that ends within a chunk gives what came and that error |
| `H1Senders.NoCrlfAfterData` | crates/loona/src/h1/body.rs:200-216 | a chunk that no CRLF ends gives its data and that error |
| `H1Senders.NoCrlfAtEnd` | crates/loona/src/h1/body.rs:176-192 | so does a last chunk that no empty line follows |
| `H1Chunked.EmptyChunkEndsBody` | crates/loona/src/h1/body.rs:299-327 | an empty chunk is written as the terminator |
| `H1Chunked.ChunkedBody.NextChunk` | crates/loona/src/h1/body.rs:145-241 | on every stream whose size lines have an answer independent of the reads, well formed or not, each call gives a portion of the body, its end or its error, under every split into reads |
| `H1Chunked.ChunkedBody.Next` | crates/loona/src/h1/body.rs:85-97 | with an empty buffer slot the answer is the end of a body and nothing moves; otherwise it is the decoder's |
| `H1Chunked.ErrorThenEnd` | crates/loona/src/h1/body.rs:85-97 | the call after one that gives an error gives a clean end |
| `H1Chunked.ReadRest` | crates/loona/src/h1/body.rs:145-241 | reading to the end gives the bytes before the end or the error, and the end or the error, as functions of the bytes alone |
| `H1Chunked.SizeAnswer` | crates/loona/src/h1/body.rs:162-172 | the answer to a size line that fits 16 octets, or that never parses, does not depend on what is buffered |
| `H1Chunked.SameAnswerIff` | crates/loona/src/h1/body.rs:162-172 | whether a size line is accepted is independent of what is buffered if and only if it ends or fails within 16 octets, or the stream ends before, or it never parses |
| `H1Chunked.LongLineDependsOnBuffer` | crates/loona/src/h1/body.rs:162-172 | every other line is refused with nothing buffered and accepted with all of it buffered |
| `H1Chunked.LongLine` | crates/loona/src/h1/body.rs:162-172 | sixteen zeros and a five are such a line, of size 5 |
| `H1Chunked.CompleteIsRegular` | crates/loona/src/h1/body.rs:145-241 | every stream that holds a whole body has only such lines |
| `H1Chunked.ReadBody` | crates/loona/src/h1/body.rs:145-241 | reading to the end gives exactly the body and leaves buffer plus unread bytes equal to what follows the terminator |
| `HpackInteger.IntegerRoundTrip` | crates/loona-hpack/src/encoder.rs:93-122 | decoding an encoding returns the value and its length if the value is below 2^prefix - 1 + 2^28, and otherwise reports too many octets; leading bits are kept |
| `HpackInteger.DecodedIntegerBound` | crates/loona-hpack/src/decoder.rs:67-125 | any accepted integer is below that bound and took one to five octets of the input |
| `HpackInteger.LongInteger` | crates/loona-hpack/src/decoder.rs:67-125 | whatever octets follow a full prefix, shortest or not: those up to the first without the top bit are the number, least significant first |
| `HpackInteger.BrokenInteger` | crates/loona-hpack/src/decoder.rs:67-125 | five octets with the top bit set are too many, and fewer are not enough |
| `HpackInteger.EncodeIntegerInto` | crates/loona-hpack/src/encoder.rs:93-122 | the writing loop against its specification |
| `HpackInteger.DecodeIntegerLoop` | crates/loona-hpack/src/decoder.rs:67-125 | the reading loop, with its three errors, against its specification |
| `HpackTable.PushThenEvict` | crates/loona-hpack/src/lib.rs:108-139 | push-then-evict is the evict-then-insert rule of section 4.4 of RFC 7541 |
| `HpackTable.FitIsLongestPrefix` | crates/loona-hpack/src/lib.rs:124-139 | eviction keeps the longest newest-first prefix that fits |
| `HpackTable.DynamicTable.ConsolidateTable` | crates/loona-hpack/src/lib.rs:124-139 | the loop restores size <= max_size with size the sum of entry sizes, and its panic is dead |
| `HpackTable.DynamicTable.AddHeader` | crates/loona-hpack/src/lib.rs:108-118 | the table is that of section 4.4 of RFC 7541 |
| `HpackTable.DynamicTable.SetMaxTableSize` | crates/loona-hpack/src/lib.rs:88-93 | a resize keeps what fits (section 4.3 of RFC 7541) |
| `HpackTable.HeaderTable.GetIsIndexing` | crates/loona-hpack/src/lib.rs:228-249 | indices count from one across both tables, and nothing else is found |
| `HpackTable.FindHeader` | crates/loona-hpack/src/lib.rs:261-288 | the scan loop against Find |
| `HpackTable.Find` | crates/loona-hpack/src/lib.rs:261-288 | the first equal entry, else the last with the name, else none |
| `HpackCodec.StringRoundTrip` | crates/loona-hpack/src/decoder.rs:135-163 | a plain string, as the encoder writes it, comes back whatever follows exactly when it is shorter than 127 + 2^28; a longer one is refused |
| `HpackCodec.FieldRoundTrip` | crates/loona-hpack/src/encoder.rs:241-334 | one header comes back from exactly its octets, and the tables stay in step |
| `HpackCodec.BlockRoundTrip` | crates/loona-hpack/src/decoder.rs:368-450 | one block decodes to its list without error, and the tables stay in step |
| `HpackMeaning.BlockMeans` | crates/loona-hpack/src/decoder.rs:368-450 | every block that a peer may write, in any of the representations of section 6 of RFC 7541, names by index or text, strings plain or Huffman-coded, with size updates, is decoded to the headers it means and leaves the table it means; a size update at its end is an error |
| `HpackMeaning.FieldIsRead` | crates/loona-hpack/src/decoder.rs:380-440 | each representation is read from exactly its octets |
| `HpackMeaning.CodedExactly` | crates/loona-hpack/src/decoder.rs:135-163 | a Huffman-coded string is read as the text whose codes its bits are, followed by at most seven ones, and any other is refused |
| `HpackMeaning.CodedLegalIff` | crates/loona-hpack/src/decoder.rs:135-163 | so such a string is legal in a field or block exactly then |
| `HpackMeaning.MissingIsRefused` | crates/loona-hpack/src/decoder.rs:472-497 | an index that no entry has is refused |
| `HpackMeaning.MissingNameIsRefused` | crates/loona-hpack/src/decoder.rs:502-532 | so it is for the name of a literal |
| `HpackMeaning.LargeSizeIsRefused` | crates/loona-hpack/src/decoder.rs:537-553 | a table size beyond what is allowed is refused |
| `HpackCodec.IndexBound` | crates/loona-hpack/src/lib.rs:228-249 | every index into a table below 2^32 stays decodable |
| `HpackSession.SessionStaysInStep` | crates/loona-hpack/src/decoder.rs:368-527 | over every session of blocks and resizes each block decodes to its list and the encoder's table stays a prefix of the decoder's |
| `HpackSession.ExchangeKeepsEqual` | crates/loona-hpack/src/encoder.rs:225-234 | with no encoder-only resize equal tables are equal again after each exchange |
| `HpackSession.LargerEncoderTableFails` | crates/loona-hpack/src/encoder.rs:193-197 | whatever is in the tables, a header of a new name that fits only a larger encoder table comes through once and is refused the second time it is sent |
| `HpackSizes.EncoderSizeSafeIff` | crates/loona-hpack/src/encoder.rs:193-197 | from any tables in step, a size told to the encoder alone keeps every later session readable if and only if it is no larger than the decoder's or below 32 |
| `Hpack.FreshSizeSafeIff` | crates/loona-hpack/src/encoder.rs:193-197 | for fresh peers, if and only if it is at most 4096 |
| `HpackSizes.FailingSession` | crates/loona-hpack/src/encoder.rs:193-197 | a session of new headers that fills the larger table and then refers to the oldest, which the decoder has evicted |
| `HpackSession.EncoderNamesOnce` | crates/loona-hpack/src/encoder.rs:199-224 | the encoder's table never holds a name twice, as its documentation promises |
| `Hpack.FreshPeersStayInStep` | crates/loona-hpack/src/lib.rs:293-355 | peers as they start, with the 61 static entries and 4096 octets, stay in step over every legal session |
| `HpackPeers.Encoder.EncodeInto` | crates/loona-hpack/src/encoder.rs:225-234 | the encoding loop over a list, with the table changed in place, against the block specification |
| `HpackPeers.Encoder.EncodeHeaderInto` | crates/loona-hpack/src/encoder.rs:241-334 | literal, indexed name or indexed, with the table updated in place |
| `HpackPeers.Decoder.DecodeWithCb` | crates/loona-hpack/src/decoder.rs:368-450 | the decoding loop with its callback and errors, against the block specification |
| `HpackPeers.Decoder.DecodeOne` | crates/loona-hpack/src/decoder.rs:380-440 | one field of each representation, size updates and the allowed maximum included |
| `Huffman.HuffmanExact` | crates/loona-hpack/src/huffman.rs:95-161 | decoding gives s if and only if the bits are the codes of s followed by at most seven ones |
| `Huffman.HuffmanClassifies` | crates/loona-hpack/src/huffman.rs:130-158 | every other input is refused, and with which error |
| `Huffman.HuffmanDecoder.Decode` | crates/loona-hpack/src/huffman.rs:95-161 | the bit loop against the specification; the accumulator never passes 30 bits |
| `Huffman.HuffmanDecoder.FromTable` | crates/loona-hpack/src/huffman.rs:58-82 | the nested maps hold exactly the table |
| `Huffman.BitIterator.Next` | crates/loona-hpack/src/huffman.rs:197-219 | bits come in order, most significant first |
| `HuffmanCode.HpackTableIsGood` | crates/loona-hpack/src/huffman.rs:222-480 | the 257 codes are prefix-free and complete, and EOS is thirty ones |
| `HuffmanCode.DecodeHuffmanString` | crates/loona-hpack/src/decoder.rs:135-163 | the decoder for the table of appendix B of RFC 7541 |
| `RollBuffer.RollMut.Reserve` | crates/buffet/src/roll.rs:213-225 | room is left if and only if it is not box storage with an offset holding exactly BUF_SIZE bytes; contents and views unchanged; a block is taken from the pool exactly in the one case that needs it, and out of memory is only then and without a free block |
| `RollBuffer.RollMut.ReserveAtLeast` | crates/buffet/src/roll.rs:232-257 | at least the requested room, and the storage it is in; the subtraction overflows exactly with an offset, more than a block filled and a request that does not fit; out of memory exactly when it compacts without a free block |
| `RollBuffer.RollMut.Compact` | crates/buffet/src/roll.rs:174-204 | contents and views unchanged, offset zero, back to a pool block when it fits, which then counts as taken |
| `RollBuffer.RollMut.Grow` | crates/buffet/src/roll.rs:149-168 | storage doubled and boxed, contents and views unchanged, the old block's count lowered |
| `RollBuffer.RollMut.MoveToPool` | crates/buffet/src/roll.rs:180-199 | the filled part is at the front of the first free block, also when that is the storage itself; the rest of the block and the counts are as they must be |
| `RollBuffer.RollMut.Put` | crates/buffet/src/roll.rs:319-333 | bytes are appended or refused whole; every view shows what it showed |
| `RollBuffer.RollMut.Write` | crates/buffet/src/roll.rs:478-488 | room is made where needed and the bytes appended, or refused whole with the overflow or out of memory under its exact condition |
| `RollBuffer.RollMut.ReadInto` | crates/buffet/src/roll.rs:291-313 | a prefix of what the transport had is appended; every view shows what it showed |
| `RollBuffer.RollMut.Filled` | crates/buffet/src/roll.rs:376-390 | a view of the filled part, which takes no count |
| `RollBuffer.RollMut.DropView` | crates/buffet/src/bufpool.rs:331-335 | dropping a view of a pool block lowers its count |
| `RollBuffer.RollMut.TakeAtMost` | crates/buffet/src/roll.rs:420-432 | the view taken and the rest are what was there |
| `RollBuffer.RollMut.Keep` | crates/buffet/src/roll.rs:449-475 | the filled part from a view on is kept |
| `RollBuffer.RollMut.PutToRoll` | crates/buffet/src/roll.rs:355-374 | the view shows the bytes written; a failing closure hands out nothing |
| `RollBuffer.Run` | crates/buffet/src/roll.rs:149-493 | over every sequence of operations the filled part is a first-in first-out queue; no view made before or during it is forgotten; each shows what it showed when made, if its block was not taken from the pool since; those of boxes always; and at most one block is taken by each operation that may |
| `RollBuffer.ReserveLeavesNoRoom` | crates/buffet/src/roll.rs:187-199 | allocate, grow, fill, consume one block, reserve: success and no room |
| `RollBuffer.SecondBlockOverflows` | crates/buffet/src/roll.rs:232-257 | a new buffer, a block of two to three pool blocks written in pieces and taken out, a second one that fills the storage: the next write overflows, whatever the bytes |
| `RollBuffer.Roll.SplitAt` | crates/buffet/src/roll.rs:702-705 | the two halves together show what the view showed |
| `RollPool.StableUntilHandedOut` | crates/buffet/src/roll.rs:376-390 | over every run of any number of buffers and views on one pool, what a covered view shows does not change until its block was freed and is handed out again |
| `RollPool.ExposedIff` | crates/buffet/src/roll.rs:319-333 | a write can change what a view shows if and only if some buffer on its storage writes below the view's end |
| `RollPool.BoxViewsNeverChange` | crates/buffet/src/roll.rs:387-390 | views of box storage never change, over every run |
| `RollPool.NewViewCovered` | crates/buffet/src/roll.rs:383-390 | a new view is covered if its maker is alone on the block |
| `RollPool.ActionShows` | crates/buffet/src/roll.rs:291-475 | what buffers and views show after each action: appends are seen at the end of the filled part, skips drop its front, moves keep it, and the parts of a view are parts of its bytes |
| `RollPool.CountLaw` | crates/buffet/src/bufpool.rs:82-92 | each count is the live handles on the block less the views made by freeze_slice |
| `RollPool.FreedExactlyWhen` | crates/buffet/src/bufpool/privatepool.rs:149-157 | dropping a handle frees its block if and only if the live handles outnumber the uncounted views by one |
| `RollPool.FreedByGrowing` | crates/buffet/src/roll.rs:149-168 | the same when a buffer moves to a box |
| `RollPool.RecycledViewChanges` | crates/buffet/src/roll.rs:383-390 | a run in which a buffer grows, its block is handed to another one, and a live view shows what that one writes |
| `RollPool.DroppedViewSharesBlock` | crates/buffet/src/bufpool.rs:82-92 | a run in which dropping a view gives the block of a live buffer to a second one, whose write changes the first one's contents |
| `RollRefinement.SameContents` | crates/buffet/src/roll.rs:496-506 | a buffer on the heap that stands for a writer of the system has the filled part that the system shows |
| `RollRefinement.RefineAppend` | crates/buffet/src/roll.rs:319-333 | appending on the heap is the system's append, block for block and count for count, whatever other handles there are |
| `RollRefinement.RefineScribble` | crates/buffet/src/roll.rs:355-374 | so is writing past the filled part, as a failing closure does |
| `RollRefinement.RefineGive` | crates/buffet/src/roll.rs:376-390 | so is handing out a view |
| `RollRefinement.RefineToBox` | crates/buffet/src/roll.rs:149-168 | so is moving to a box |
| `RollRefinement.RefineToPool` | crates/buffet/src/roll.rs:174-204 | so is moving to the first free block |
| `RollRefinement.RefineDrop` | crates/buffet/src/bufpool.rs:331-335 | so is dropping a view |
| `BufPool.RunConserves` | crates/buffet/src/bufpool.rs:63-129 | over every run without freeze_slice each count is the live handles on the block, the free list is exactly the zero-count blocks without duplicates, and writable ranges overlap no other handle |
| `BufPool.StepConserves` | crates/buffet/src/bufpool.rs:252-335 | every such operation keeps it |
| `BufPool.CountLaw` | crates/buffet/src/bufpool.rs:82-92 | with freeze_slice counted in, each count is the live handles less the uncounted ones |
| `BufPool.RunKeepsCountLaw` | crates/buffet/src/bufpool.rs:82-92 | the same over every run |
| `BufPool.FreezeSliceFreesTooEarly` | crates/buffet/src/bufpool.rs:82-92 | freeze_slice followed by a drop frees a block that still has a handle |
| `BufPool.WriteIsPrivate` | crates/buffet/src/bufpool.rs:155-170 | a write through one handle is seen through no other |
| `BufPool.OperationShows` | crates/buffet/src/bufpool.rs:63-170 | what handles show after each operation: the halves of a split are the whole, a skip drops the front, a slice is that part, frozen parts and clones show the same bytes, a write is seen where it was made |
| `BufPool.OthersUntouched` | crates/buffet/src/bufpool.rs:63-170 | no other handle is touched |
| `BufPool.PrivatePool.Alloc` | crates/buffet/src/bufpool/privatepool.rs:124-138 | the first free block is taken and counted once; none is an error |
| `BufPool.PrivatePool.DecRef` | crates/buffet/src/bufpool/privatepool.rs:149-157 | a block whose count reaches zero joins the free list |
| `Uring.RunsAreSafe` | crates/luring/src/linux.rs:60-147 | in every interleaving of push, poll, drop and completion on any number of rings each operation owns an occupied slot of its own, no other slot is occupied, and entries in flight are exactly the incomplete ones; and cancels aim at the operations they are for, if no incomplete operation of another ring than the thread's is dropped |
| `Uring.StepKeepsSafe` | crates/luring/src/linux.rs:60-147 | one action on any ring keeps slots and entries so and never panics |
| `Uring.AimKeptIff` | crates/luring/src/linux.rs:60-90 | one action keeps all cancels aimed at their own operations if and only if it is not the drop of an incomplete operation of another ring than the thread's |
| `Uring.WrongTarget` | crates/luring/src/linux.rs:74-80 | the cancel of such an operation aims at its key on the thread's own ring |
| `Uring.CancelHitsAnother` | crates/luring/src/linux.rs:74-80 | a run from the start in which such a cancel aims at an operation that another user holds |
| `Uring.NothingPanics` | crates/luring/src/linux.rs:243-266 | every completion finds its own operation's slot occupied and incomplete |
| `Uring.NoSlotRecycledEarly` | crates/luring/src/linux.rs:227-240 | a slot handed out anew is used by no operation in flight, and aimed at by no cancel in flight while cancels aim at their own |
| `Uring.CompletionIsKept` | crates/luring/src/linux.rs:99-121 | a recorded completion is returned by the next poll, whatever happens in between |
| `Uring.NoLostWakeup` | crates/luring/src/linux.rs:243-266 | over every run in which an operation is not polled again after a poll with some waker, it is still incomplete and waits with that waker, or that waker was called since |
| `Uring.ResultIsReturned` | crates/luring/src/linux.rs:99-121 | what the kernel answered for a user's operation is what its next poll returns, whatever happens in between |
| `Uring.CompleteIsFreed` | crates/luring/src/linux.rs:60-147 | whoever drops or awaits an operation that is complete frees its slot, and a task that has its cancel goes on to await the operation |
| `Uring.IoUringAsync.HandleCqe` | crates/luring/src/linux.rs:243-266 | all completions are recorded in place, each once; the wakers called are those of the slots that were waited on and are complete now, each once, and no other |
| `Uring.IoUringAsync.PollInner` | crates/luring/src/linux.rs:99-121 | a poll returns the recorded completion or leaves its waker |
| `VectoredIo.Sink.WritevAllOwned` | crates/buffet/src/io.rs:74-106 | success means the sink grew by exactly the list's bytes, failure by a prefix, for every pattern of partial writes; it terminates |
| `VectoredIo.Sink.WriteAllOwned` | crates/buffet/src/io.rs:21-39 | the same for one piece |
| `VectoredIo.Sink.WritevOwned` | crates/buffet/src/io.rs:42-71 | the total returned is what the sink grew by |
| `VectoredIo.Advance` | crates/buffet/src/io.rs:86-103 | the inner loop drops exactly the bytes written |
| `VectoredIo.Piece.SplitAt` | crates/buffet/src/piece.rs:164-193 | both halves are windows on the same bytes and together are the piece |

## Left out

- Sockets, mmap, TLS, timers, the tokio runtime and real io_uring submission: only read and write sizes, failures and completions remain, chosen freely.
- The `http`, `nom` and `memchr` libraries, URI and authority parsing, header maps: the combinators used are functions on byte sequences.
- Pseudo-header and field validity checks in `read_headers`: their outcome is a `Verdict` given with the frame, and a request's HEADERS frame with its CONTINUATION frames is one step (`CollectFragments` treats them one by one).
- HPACK inside the connection steps: a response event carries its encoded block, and a `HEADER_TABLE_SIZE` setting does not reach the encoder's table there; `HpackSession` and `EndToEnd` treat compression.
- Skipped header blocks in HPACK sessions: they are never decoded, so peers may diverge.
- The six-octet records of a SETTINGS payload and the masking of a WINDOW_UPDATE increment: settings arrive as code and value, increments below 2^31.
- The connection preface, the first SETTINGS exchange, the GOAWAY frame's error code and debug text: only its last stream id is kept.
- Write failures of the transport inside the connection steps: `VectoredIo` treats them.
- The deframer's exit when nobody receives its frames any more, and the `ContentLengthDecoder`: one-branch behaviour.
- Sending trailers and interim responses over HTTP/2: a `todo!` and an assertion in the code.
- "A clean end of `H2Body` means a complete request body": a server-side reset ends the channel cleanly too, so it is not claimed.
- Bit operations on octets are written as arithmetic (a mask is a remainder, a shift a product or quotient), and stream outgoing state inside the map is replaced as a value, not through a mutable reference.
- A buffer already longer than the limit is answered with the limit error, as a build without overflow checks does; with them the subtraction in `read_and_parse` before the comparison would panic.
- Cancellation of a read that is under way, and other users of the pool while one buffer waits for a read: `RollPool` treats any number of buffers, but `ReadAndParse` is one run of one buffer. Views that a parser clones and drops within one call are not followed.
- Reference counts above `i16::MAX`: the operations of `BufPool` are enabled only below it, and `RollPool` leaves the width out. Copying a filled part within its own block is taken to read before it writes.
- What the kernel does with a cancel: it may complete any operation in flight at any time, so only the slot that a cancel aims at is stated.
- Composite operations of `RollMut` in `RollRefinement`: it treats the primitives they are made of, one by one.
