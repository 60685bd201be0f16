/** Runs in which a well-behaved handler and a legal peer make the scheduler abort.
    They show that the conditions of `CanRun` are needed. */
module H2Counterexamples {
  import opened Common
  import opened H2State
  import opened H2Machine
  import opened H2Lifecycle
  import opened H2Scheduler
  import opened H2Aborts
  import opened H2Requests
  import opened H2Safety
  import opened H2Blocks

  function Request(id: StreamId): Input {
    Received(InHeaders(id, true, false, BlockAccepted(None)))
  }

  lemma {:induction false} RunsToMore(w: World, inputs: seq<Input>, last: World, input: Input)
    requires RunsTo(w, inputs, last) && Enabled(last, input)
    ensures RunsTo(w, inputs + [input], Step(last, input))
    decreases |inputs|
  {
    var all := inputs + [input];
    if inputs == [] {
      assert all[1..] == [] && all[0] == input;
      assert RunsTo(Step(last, input), [], Step(last, input));
    } else {
      assert all[1..] == inputs[1..] + [input] && all[0] == inputs[0];
      RunsToMore(Step(w, inputs[0]), inputs[1..], last, input);
    }
  }

  function NewStream(block: Option<Bytes>, pieces: seq<Bytes>): StreamState {
    var headers := if block.Some? then WroteNone(block.value) else WaitingForHeaders;
    HalfClosedRemote(Outgoing(headers, StillReceiving(pieces), DEFAULT_WINDOW))
  }

  /** A connection with one request, and with the response headers of its handler. */
  function Requested(max: nat): World {
    World(Running, Conn(map[1 := NewStream(None, [])], 1, max, DEFAULT_WINDOW, MIN_FRAME_SIZE, false, {}, DEFAULT_WINDOW),
          [], map[1 := Log(ExpectResponseHeaders, None, [], false, 0)], 0, [])
  }

  function Responding(max: nat): World {
    World(Running, Conn(map[1 := NewStream(Some([]), [])], 1, max, DEFAULT_WINDOW, MIN_FRAME_SIZE, true, {1}, DEFAULT_WINDOW),
          [], map[1 := Log(ExpectResponseBody, Some([]), [], false, 0)], 0, [1])
  }

  lemma FirstRequest(max: nat)
    requires max >= 1
    ensures Step(NewWorld(max), Request(1)) == Requested(max)
  {
    var w := NewWorld(max);
    assert ReceiveNewHeaders(w, 1, true, BlockAccepted(None)) == ReceiveRequest(w, 1, true, BlockAccepted(None));
  }

  lemma FirstHeaders(max: nat)
    ensures Step(Requested(max), Event(1, HeadersEvent([]))) == Responding(max)
  {
  }

  lemma RunToResponding(max: nat)
    requires max >= 1
    ensures RunsTo(NewWorld(max), [Request(1), Event(1, HeadersEvent([]))], Responding(max))
  {
    assert RunsTo(NewWorld(max), [], NewWorld(max));
    RunsToMore(NewWorld(max), [], NewWorld(max), Request(1));
    FirstRequest(max);
    RunsToMore(NewWorld(max), [] + [Request(1)], Requested(max), Event(1, HeadersEvent([])));
    FirstHeaders(max);
    assert [] + [Request(1)] + [Event(1, HeadersEvent([]))] == [Request(1), Event(1, HeadersEvent([]))];
  }

  lemma RunToReset() returns (inputs: seq<Input>, last: World)
    ensures RunsTo(NewWorld(1), inputs, last) && last.status.Running? && last.conn.streams == map[]
    ensures last.conn.pending == {1} && last.conn.notify && last.conn.outgoingCapacity > 0
  {
    RunToResponding(1);
    var before, reset := [Request(1), Event(1, HeadersEvent([]))], Received(InRstStream(1, 4));
    RunsToMore(NewWorld(1), before, Responding(1), reset);
    inputs, last := before + [reset], Step(Responding(1), reset);
  }

  /** A stream that is reset stays pending, and the next run of the scheduler does not
      find it. */
  lemma ResetStreamStaysPending() returns (inputs: seq<Input>, last: World)
    ensures RunsTo(NewWorld(1), inputs, last) && last.status == Panicked(PendingStreamGone)
  {
    var before, w := RunToReset();
    ScheduleGone(w);
    RunsToMore(NewWorld(1), before, w, Scheduled([1]));
    inputs, last := before + [Scheduled([1])], Step(w, Scheduled([1]));
  }

  lemma ScheduleGone(w: World)
    requires w.status.Running? && !w.conn.HasOutgoing(1) && w.conn.outgoingCapacity > 0
    ensures SendDataMaybe(w, [1]).status == Panicked(PendingStreamGone)
  {
    var start := Queueing(w.(conn := w.conn.(notify := false)), [], {});
    assert !start.world.conn.HasOutgoing([1][0]);
    QueueRuns(start, [1]);
    WriteAllKeepsPanic(QueueAll(start, [1]).world, QueueAll(start, [1]).frames);
  }

  // ---- Two streams share one connection window ----

  function Body(): Bytes {
    seq(40000, i => 0)
  }

  function OpenLog(block: Option<Bytes>, body: Bytes): Log {
    Log(if block.Some? then ExpectResponseBody else ExpectResponseHeaders, block, body, false, 0)
  }

  /** Stream 1 has headers and a body queued; stream 3 is new. */
  function Pair(block: Option<Bytes>, pieces: seq<Bytes>, body: Bytes, pending: set<StreamId>): World {
    World(Running,
          Conn(map[1 := NewStream(Some([]), [Body()]), 3 := NewStream(block, pieces)], 3, 2, DEFAULT_WINDOW, MIN_FRAME_SIZE,
               true, pending, DEFAULT_WINDOW),
          [], map[1 := OpenLog(Some([]), [] + Body()), 3 := OpenLog(block, body)], 0, if block.Some? then [1, 3] else [1])
  }

  function One(): World {
    World(Running, Conn(map[1 := NewStream(Some([]), [Body()])], 1, 2, DEFAULT_WINDOW, MIN_FRAME_SIZE, true, {1}, DEFAULT_WINDOW),
          [], map[1 := OpenLog(Some([]), [] + Body())], 0, [1])
  }

  lemma FirstBody()
    ensures Step(Responding(2), Event(1, BodyChunk(Body()))) == One()
  {
    assert [] + [Body()] == [Body()];
  }

  lemma SecondRequest()
    ensures Step(One(), Request(3)) == Pair(None, [], [], {1})
  {
    assert |One().conn.streams| == 1;
    assert ReceiveNewHeaders(One(), 3, true, BlockAccepted(None)) == ReceiveRequest(One(), 3, true, BlockAccepted(None));
  }

  lemma SecondHeaders()
    ensures Step(Pair(None, [], [], {1}), Event(3, HeadersEvent([]))) == Pair(Some([]), [], [], {1, 3})
  {
  }

  lemma SecondBody()
    ensures Step(Pair(Some([]), [], [], {1, 3}), Event(3, BodyChunk(Body()))) == Pair(Some([]), [Body()], [] + Body(), {1, 3})
  {
    assert [] + [Body()] == [Body()];
  }

  lemma PairDemand(conn: Conn)
    requires conn == Pair(Some([]), [Body()], [] + Body(), {1, 3}).conn
    ensures AllSend(conn, [1, 3]) && InRange(conn, [1, 3]) && Demand(conn, [1, 3]) == 80000
  {
    FlattenSingle(Body());
    assert Need(conn.Out(1), DEFAULT_WINDOW) == 40000 && Need(conn.Out(3), DEFAULT_WINDOW) == 40000;
    assert [1, 3][1..] == [3] && [3][1..] == [];
    assert Demand(conn, [3]) == 40000 + Demand(conn, []);
  }

  /** Two streams whose windows are open, but not both at once. */
  lemma TwoStreamsOverdraw() returns (inputs: seq<Input>, last: World)
    ensures RunsTo(NewWorld(2), inputs, last) && WindowPanic(last.status)
  {
    var w0, final := NewWorld(2), Pair(Some([]), [Body()], [] + Body(), {1, 3});
    inputs := RunToPair();
    PairDemand(final.conn);
    SchedulerRunsIff(final, [1, 3]);
    RunsToMore(w0, inputs, final, Scheduled([1, 3]));
    inputs, last := inputs + [Scheduled([1, 3])], Step(final, Scheduled([1, 3]));
  }

  lemma RunToPair() returns (inputs: seq<Input>)
    ensures RunsTo(NewWorld(2), inputs, Pair(Some([]), [Body()], [] + Body(), {1, 3}))
  {
    var before := RunToTwoBlocks();
    RunsToMore(NewWorld(2), before, Pair(Some([]), [], [], {1, 3}), Event(3, BodyChunk(Body())));
    SecondBody();
    inputs := before + [Event(3, BodyChunk(Body()))];
  }

  lemma RunToTwoBlocks() returns (inputs: seq<Input>)
    ensures RunsTo(NewWorld(2), inputs, Pair(Some([]), [], [], {1, 3}))
  {
    var w0 := NewWorld(2);
    RunToResponding(2);
    inputs := [Request(1), Event(1, HeadersEvent([]))];
    RunsToMore(w0, inputs, Responding(2), Event(1, BodyChunk(Body())));
    FirstBody();
    inputs := inputs + [Event(1, BodyChunk(Body()))];
    RunsToMore(w0, inputs, One(), Request(3));
    SecondRequest();
    inputs := inputs + [Request(3)];
    RunsToMore(w0, inputs, Pair(None, [], [], {1}), Event(3, HeadersEvent([])));
    SecondHeaders();
    inputs := inputs + [Event(3, HeadersEvent([]))];
  }

  // ---- Blocks that leave in another order than they were compressed ----

  /** Both streams have a block to send, and stream 1 a body. */
  predicate TwoBlocks(conn: Conn) {
    && conn.HasOutgoing(1) && conn.Out(1) == Outgoing(WroteNone([]), StillReceiving([Body()]), DEFAULT_WINDOW)
    && conn.HasOutgoing(3) && conn.Out(3) == Outgoing(WroteNone([]), StillReceiving([]), DEFAULT_WINDOW)
    && conn.outgoingCapacity == DEFAULT_WINDOW
  }

  lemma TwoBlocksUnsent(conn: Conn)
    requires TwoBlocks(conn)
    ensures SendsBlocks(conn, [3, 1]) == [3, 1]
  {
    assert [3, 1][1..] == [1] && [1][1..] == [];
    assert Unsent(conn, [1]) == [1] + Unsent(conn, []);
  }

  lemma TwoBlocksDemand(conn: Conn)
    requires TwoBlocks(conn)
    ensures AllSend(conn, [3, 1]) && InRange(conn, [3, 1]) && NoneOverdrawn(conn, [3, 1]) && Demand(conn, [3, 1]) == 40000
  {
    FlattenSingle(Body());
    assert Need(conn.Out(3), DEFAULT_WINDOW) == 0 && Need(conn.Out(1), DEFAULT_WINDOW) == 40000;
    assert [3, 1][1..] == [1] && [1][1..] == [];
    assert Demand(conn, [1]) == 40000 + Demand(conn, []);
  }

  lemma TwoBlocksRun(w: World)
    requires w.status.Running? && TwoBlocks(w.conn)
    ensures SendDataMaybe(w, [3, 1]).status.Running?
  {
    TwoBlocksDemand(w.conn);
    SchedulerRunsIff(w, [3, 1]);
  }

  lemma TwoBlocksSwapped(w: World)
    requires Good(w) && w.status.Running? && TwoBlocks(w.conn) && w.conn.pending == {1, 3} && HeadersOn(w.wire) == []
    ensures HeadersOn(SendDataMaybe(w, [3, 1]).wire) == [3, 1]
  {
    TwoBlocksRun(w);
    TwoBlocksUnsent(w.conn);
    ScheduleSendsBlocks(w, [3, 1]);
    assert [] + [3, 1] == [3, 1];
  }

  lemma TwoBlocksEncoded(w: World)
    requires Good(w) && w.status.Running? && TwoBlocks(w.conn) && w.conn.pending == {1, 3}
    ensures SendDataMaybe(w, [3, 1]).encoded == w.encoded
  {
    TwoBlocksRun(w);
    assert StreamGood(w, 1);
    SchedulerEffect(w, [3, 1], 1);
  }

  /** The pending set is visited in no particular order, and one that is not the order of
      compression gives the peer the second block first. */
  lemma BlocksOutOfOrder() returns (inputs: seq<Input>, last: World)
    ensures RunsTo(NewWorld(2), inputs, last) && last.status.Running?
    ensures last.encoded == [1, 3] && HeadersOn(last.wire) == [3, 1] && !InOrder(last)
  {
    var before := RunToTwoBlocks();
    var w := Pair(Some([]), [], [], {1, 3});
    ReachedIsGood(2, before, w);
    TwoBlocksRun(w);
    TwoBlocksSwapped(w);
    TwoBlocksEncoded(w);
    RunsToMore(NewWorld(2), before, w, Scheduled([3, 1]));
    inputs, last := before + [Scheduled([3, 1])], SendDataMaybe(w, [3, 1]);
  }

  // ---- A window that SETTINGS made negative ----

  /** Stream 1 has sent its headers and one byte, and nothing is queued. */
  predicate SentOne(w: World, capacity: int, pieces: seq<Bytes>) {
    && w.status.Running? && w.conn.streams.Keys == {1} && w.conn.HasOutgoing(1)
    && w.conn.Out(1) == Outgoing(WroteAll, StillReceiving(pieces), capacity)
    && w.conn.pending == {1} && 0 <= w.conn.outgoingCapacity <= DEFAULT_WINDOW && w.conn.initialWindow <= DEFAULT_WINDOW
    && 1 in w.logs && w.logs[1].phase == ExpectResponseBody
  }

  /** The peer shrinks the initial window to nothing. */
  lemma ShrinkWindow(w: World)
    requires SentOne(w, DEFAULT_WINDOW - 1, []) && w.conn.initialWindow == DEFAULT_WINDOW
    ensures SentOne(Step(w, Received(InSettings(0, 6, false, [SettingValue(4, 0)]))), -1, [])
  {
    var settings := [SettingValue(4, 0)];
    assert settings[1..] == [];
    var next := w.conn.(initialWindow := 0);
    assert ApplySetting(w.conn, settings[0]) == Some(next);
    assert ApplySettings(next, []) == Some(next);
    assert ApplySettings(w.conn, settings) == Some(next);
    assert !SomeOverflows(next.streams, -DEFAULT_WINDOW);
  }

  function OneByte(): World {
    World(Running, Conn(map[1 := NewStream(Some([]), [[0]])], 1, 1, DEFAULT_WINDOW, MIN_FRAME_SIZE, true, {1}, DEFAULT_WINDOW),
          [], map[1 := OpenLog(Some([]), [] + [0])], 0, [1])
  }

  lemma FirstByte()
    ensures Step(Responding(1), Event(1, BodyChunk([0]))) == OneByte()
  {
    assert [] + [[0]] == [[0]];
  }

  /** What matters of that state: headers and one byte are queued. */
  predicate ByteQueued(w: World) {
    && w.status.Running? && w.conn.streams.Keys == {1} == w.logs.Keys && w.conn.HasOutgoing(1)
    && w.conn.Out(1) == Outgoing(WroteNone([]), StillReceiving([[0]]), DEFAULT_WINDOW)
    && w.conn.pending == {1} && w.conn.lastStreamId == 1 && w.logs[1].phase == ExpectResponseBody
    && w.conn.outgoingCapacity == DEFAULT_WINDOW == w.conn.initialWindow
  }

  lemma ByteTurn(o: Outgoing)
    requires o == Outgoing(WroteNone([]), StillReceiving([[0]]), DEFAULT_WINDOW)
    ensures var capacity := Usable(DEFAULT_WINDOW, o.capacity);
            && TurnBytes(o.body, capacity) == 1 == Need(o, DEFAULT_WINDOW) && !TurnEnds(o.body, capacity) && !Overdrawn(o)
            && AfterTurn(o, DEFAULT_WINDOW) == Outgoing(WroteAll, StillReceiving([]), DEFAULT_WINDOW)
  {
    FlattenSingle([0]);
    assert Advance([[0]], 1) == Advance([[0]][1..], 0) == [];
  }

  lemma ByteRuns(w: World)
    requires ByteQueued(w)
    ensures SendDataMaybe(w, [1]).status.Running?
  {
    ByteTurn(w.conn.Out([1][0]));
    assert AllSend(w.conn, [1]) && InRange(w.conn, [1]) && NoneOverdrawn(w.conn, [1]);
    assert [1][1..] == [] && Demand(w.conn, []) == 0;
    assert Demand(w.conn, [1]) == 1;
    SchedulerRunsIff(w, [1]);
  }

  /** A run of the scheduler only takes ids off the pending set. */
  lemma OnlyUnpends(w: World, order: seq<StreamId>, id: StreamId)
    requires IdOk(w, id) && w.status.Running? && Enumerates(order, w.conn.pending) && SendDataMaybe(w, order).status.Running?
    ensures id in SendDataMaybe(w, order).conn.pending ==> id in w.conn.pending
  {
    SchedulerEffect(w, order, id);
  }

  lemma ByteLeavesOnePending(w: World)
    requires ByteQueued(w)
    ensures SendDataMaybe(w, [1]).conn.pending <= {1}
  {
    ByteRuns(w);
    forall id | id in SendDataMaybe(w, [1]).conn.pending
      ensures id == 1
    {
      OnlyUnpends(w, [1], id);
    }
  }

  /** The scheduler sends the byte. */
  lemma ByteIsServed(w: World)
    requires ByteQueued(w)
    ensures var next := SendDataMaybe(w, [1]);
            SentOne(next, DEFAULT_WINDOW - 1, []) && next.conn.initialWindow == DEFAULT_WINDOW
  {
    ByteRuns(w);
    ByteLeavesOnePending(w);
    SchedulerEffect(w, [1], 1);
    ByteTurn(w.conn.Out(1));
    ScheduleAddsNone(w, [1]);
  }

  lemma QueueByte(w: World)
    requires SentOne(w, -1, [])
    ensures var queued := Step(w, Event(1, BodyChunk([0]))); SentOne(queued, -1, [[0]])
  {
    assert [] + [[0]] == [[0]];
  }

  lemma WakeUp(w: World)
    requires SentOne(w, -1, [[0]])
    ensures var next := WidenConnection(w, 1);
            && next.status.Running? && next.conn == w.conn.(outgoingCapacity := w.conn.outgoingCapacity + 1, notify := true)
  {
  }

  lemma WidenedAborts(w: World)
    requires SentOne(w, -1, [[0]])
    ensures WindowPanic(SendDataMaybe(WidenConnection(w, 1), [1]).status)
  {
    WakeUp(w);
    var next := WidenConnection(w, 1);
    FlattenSingle([0]);
    assert AllSend(next.conn, [1]) && Overdrawn(next.conn.Out([1][0]));
    SchedulerRunsIff(next, [1]);
  }

  lemma RunToOneByte() returns (inputs: seq<Input>, last: World)
    ensures RunsTo(NewWorld(1), inputs, last) && ByteQueued(last) && last.conn.notify
  {
    RunToResponding(1);
    var before := [Request(1), Event(1, HeadersEvent([]))];
    RunsToMore(NewWorld(1), before, Responding(1), Event(1, BodyChunk([0])));
    FirstByte();
    inputs, last := before + [Event(1, BodyChunk([0]))], OneByte();
  }

  lemma RunToSentOne() returns (inputs: seq<Input>, last: World)
    ensures RunsTo(NewWorld(1), inputs, last)
    ensures SentOne(last, DEFAULT_WINDOW - 1, []) && last.conn.initialWindow == DEFAULT_WINDOW
  {
    var before, w := RunToOneByte();
    RunsToMore(NewWorld(1), before, w, Scheduled([1]));
    ByteIsServed(w);
    inputs, last := before + [Scheduled([1])], SendDataMaybe(w, [1]);
  }

  lemma RunToNegative() returns (inputs: seq<Input>, last: World)
    ensures RunsTo(NewWorld(1), inputs, last) && SentOne(last, -1, [])
  {
    var shrink := Received(InSettings(0, 6, false, [SettingValue(4, 0)]));
    var sent, w := RunToSentOne();
    RunsToMore(NewWorld(1), sent, w, shrink);
    ShrinkWindow(w);
    inputs, last := sent + [shrink], Step(w, shrink);
  }

  lemma RunToOverdrawn() returns (inputs: seq<Input>, last: World)
    ensures RunsTo(NewWorld(1), inputs, last) && SentOne(last, -1, [[0]])
  {
    var chunk := Event(1, BodyChunk([0]));
    var before, w := RunToNegative();
    RunsToMore(NewWorld(1), before, w, chunk);
    QueueByte(w);
    inputs, last := before + [chunk], Step(w, chunk);
  }

  /** A stream window that the peer made negative is taken for a huge one. */
  lemma NegativeWindowOverdraws() returns (inputs: seq<Input>, last: World)
    ensures RunsTo(NewWorld(1), inputs, last) && WindowPanic(last.status)
  {
    var widen := Received(InWindowUpdate(0, 4, 1));
    var before, w := RunToOverdrawn();
    RunsToMore(NewWorld(1), before, w, widen);
    WakeUp(w);
    WidenedAborts(w);
    RunsToMore(NewWorld(1), before + [widen], WidenConnection(w, 1), Scheduled([1]));
    inputs, last := before + [widen] + [Scheduled([1])], SendDataMaybe(WidenConnection(w, 1), [1]);
  }

  // ---- Trailers after a complete response ----

  /** A request whose body is still to come, and how far its response is. */
  predicate Uploading(w: World, headers: HeadersOutgoing, body: BodyOutgoing, phase: Phase) {
    && w.status.Running? && w.conn.streams.Keys == {1} == w.logs.Keys && w.conn.lastStreamId == 1
    && w.conn.streams[1] == Open(Incoming(DEFAULT_WINDOW, 0, None), Outgoing(headers, body, DEFAULT_WINDOW))
    && w.conn.outgoingCapacity == DEFAULT_WINDOW && w.logs[1].phase == phase
    && (if headers.WaitingForHeaders? then w.conn.pending == {} else w.conn.pending == {1} && w.conn.notify)
  }

  function Upload(): Input {
    Received(InHeaders(1, false, false, BlockAccepted(None)))
  }

  function Trailers(): Input {
    Received(InHeaders(1, true, false, BlockAccepted(None)))
  }

  lemma UploadOpens()
    ensures Uploading(Step(NewWorld(1), Upload()), WaitingForHeaders, StillReceiving([]), ExpectResponseHeaders)
  {
    var w := NewWorld(1);
    assert ReceiveNewHeaders(w, 1, false, BlockAccepted(None)) == ReceiveRequest(w, 1, false, BlockAccepted(None));
  }

  lemma UploadAnswered(w: World)
    requires Uploading(w, WaitingForHeaders, StillReceiving([]), ExpectResponseHeaders)
    ensures Uploading(HandleEvent(w, 1, HeadersEvent([])), WroteNone([]), StillReceiving([]), ExpectResponseBody)
  {
  }

  lemma UploadAnswerEnds(w: World)
    requires Uploading(w, WroteNone([]), StillReceiving([]), ExpectResponseBody)
    ensures Uploading(HandleEvent(w, 1, BodyEnd), WroteNone([]), DoneReceiving([]), ResponseDone)
  {
  }

  lemma EmptyTurn(o: Outgoing)
    requires o == Outgoing(WroteNone([]), DoneReceiving([]), DEFAULT_WINDOW)
    ensures Need(o, DEFAULT_WINDOW) == 0 && !Overdrawn(o) && TurnEnds(o.body, Usable(DEFAULT_WINDOW, o.capacity))
  {
  }

  lemma UploadRuns(w: World)
    requires Uploading(w, WroteNone([]), DoneReceiving([]), ResponseDone)
    ensures SendDataMaybe(w, [1]).status.Running?
  {
    EmptyTurn(w.conn.Out([1][0]));
    assert AllSend(w.conn, [1]) && InRange(w.conn, [1]) && NoneOverdrawn(w.conn, [1]);
    assert [1][1..] == [] && Demand(w.conn, []) == 0;
    assert Demand(w.conn, [1]) == 0;
    SchedulerRunsIff(w, [1]);
  }

  lemma UploadHalfCloses(w: World)
    requires Uploading(w, WroteNone([]), DoneReceiving([]), ResponseDone)
    ensures var next := SendDataMaybe(w, [1]);
            next.status.Running? && 1 in next.conn.streams && next.conn.streams[1].HalfClosedLocal?
  {
    UploadRuns(w);
    EmptyTurn(w.conn.Out(1));
    SchedulerEffect(w, [1], 1);
    ScheduleKeepsIncoming(w, [1], 1);
  }

  lemma RunToAnswered() returns (inputs: seq<Input>, last: World)
    ensures RunsTo(NewWorld(1), inputs, last) && Uploading(last, WroteNone([]), StillReceiving([]), ExpectResponseBody)
  {
    assert RunsTo(NewWorld(1), [], NewWorld(1));
    RunsToMore(NewWorld(1), [], NewWorld(1), Upload());
    UploadOpens();
    var w := Step(NewWorld(1), Upload());
    RunsToMore(NewWorld(1), [] + [Upload()], w, Event(1, HeadersEvent([])));
    UploadAnswered(w);
    inputs, last := [] + [Upload()] + [Event(1, HeadersEvent([]))], HandleEvent(w, 1, HeadersEvent([]));
  }

  lemma RunToHalfClosed() returns (inputs: seq<Input>, last: World)
    ensures RunsTo(NewWorld(1), inputs, last)
    ensures last.status.Running? && 1 in last.conn.streams && last.conn.streams[1].HalfClosedLocal?
  {
    var before, w := RunToAnswered();
    RunsToMore(NewWorld(1), before, w, Event(1, BodyEnd));
    UploadAnswerEnds(w);
    var ended := HandleEvent(w, 1, BodyEnd);
    RunsToMore(NewWorld(1), before + [Event(1, BodyEnd)], ended, Scheduled([1]));
    UploadHalfCloses(ended);
    inputs, last := before + [Event(1, BodyEnd)] + [Scheduled([1])], SendDataMaybe(ended, [1]);
  }

  /** A handler answers before the request body has ended; the trailers that end it then
      abort the server. */
  lemma LateTrailersAbort() returns (inputs: seq<Input>, last: World)
    ensures RunsTo(NewWorld(1), inputs, last) && last.status == Panicked(TrailersInWrongState)
  {
    var before, w := RunToHalfClosed();
    RunsToMore(NewWorld(1), before, w, Trailers());
    inputs, last := before + [Trailers()], Step(w, Trailers());
    assert ReceiveMoreHeaders(w, 1, true, BlockAccepted(None)).status == Panicked(TrailersInWrongState);
  }

  // ---- Windows beyond section 6.9.1 of RFC 9113 ----

  const RFC_MAX_WINDOW := 0x7FFF_FFFF

  /** An increment leaves the connection window within the limit of section 6.9.1 of
      RFC 9113 exactly when the sum is; between that limit and the code's the window
      grows beyond it where the standard asks for an error. */
  lemma ConnectionWindowWithinRfc(w: World, increment: nat)
    requires w.status.Running? && 0 < increment <= RFC_MAX_WINDOW && w.conn.outgoingCapacity <= RFC_MAX_WINDOW
    ensures var next, sum := ReceiveWindowUpdate(w, 0, 4, increment), w.conn.outgoingCapacity + increment;
            && next.status.Running?
            && (next.conn.outgoingCapacity <= RFC_MAX_WINDOW <==> sum <= RFC_MAX_WINDOW)
  {
  }

  /** The same for a stream window. */
  lemma StreamWindowWithinRfc(w: World, id: StreamId, increment: nat)
    requires w.status.Running? && id != 0 && w.conn.HasOutgoing(id)
    requires 0 < increment <= RFC_MAX_WINDOW && w.conn.Out(id).capacity <= RFC_MAX_WINDOW
    ensures var next, sum := ReceiveWindowUpdate(w, id, 4, increment), w.conn.Out(id).capacity + increment;
            && next.status.Running? && next.conn.HasOutgoing(id)
            && (next.conn.Out(id).capacity <= RFC_MAX_WINDOW <==> sum <= RFC_MAX_WINDOW)
  {
  }

  /** And for a change of the initial window: some stream window passes the limit exactly
      when one of the sums does. */
  lemma SettingsWithinRfc(w: World, next: Conn, id: StreamId)
    requires w.conn.HasOutgoing(id) && next == w.conn.(initialWindow := next.initialWindow, maxFrameSize := next.maxFrameSize)
    ensures var shifted, sum := ShiftWindows(w, next).conn, w.conn.Out(id).capacity + (next.initialWindow - w.conn.initialWindow);
            shifted.HasOutgoing(id) && (shifted.Out(id).capacity <= RFC_MAX_WINDOW <==> sum <= RFC_MAX_WINDOW)
  {
  }

  /** One WINDOW_UPDATE is enough. */
  lemma WindowPassesRfcLimit() returns (inputs: seq<Input>, last: World)
    ensures RunsTo(NewWorld(1), inputs, last) && last.status.Running? && last.conn.outgoingCapacity > RFC_MAX_WINDOW
  {
    var widen := Received(InWindowUpdate(0, 4, RFC_MAX_WINDOW));
    assert RunsTo(NewWorld(1), [], NewWorld(1));
    RunsToMore(NewWorld(1), [], NewWorld(1), widen);
    inputs, last := [] + [widen], Step(NewWorld(1), widen);
  }
}
