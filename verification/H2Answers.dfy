/** What the peer is told: the frames that answer it, over every run exactly those that the
    inputs call for and in their order; resets, with their codes; and the errors that end the
    connection. */
module H2Answers {
  import opened Common
  import opened Frames
  import opened H2State
  import opened H2Machine
  import opened H2Scheduler
  import opened H2Effects
  import opened H2Aborts
  import opened H2Wire
  import opened H2Safety
  import opened H2History
  import opened H2Lifecycle
  import opened H2Requests

  /** Neither part of a response nor a reset. */
  predicate IsSignal(p: Packet) {
    Quiet(p) && !p.frame.ty.RstStream?
  }

  function SignalsOn(packets: seq<Packet>): seq<Packet>
    decreases |packets|
  {
    if packets == [] then []
    else (if IsSignal(packets[0]) then [packets[0]] else []) + SignalsOn(packets[1..])
  }

  /** SETTINGS is acknowledged and PING is returned, each unless it is an acknowledgement. */
  function Called(input: Input): seq<Packet> {
    match input
    case Received(InSettings(_, _, false, _)) => [Packet(Frame(Settings(true), false, 0, 0), [])]
    case Received(InPing(_, false, payload)) => [Packet(Frame(Ping(true), false, 0, 8), payload)]
    case _ => []
  }

  function CalledBy(inputs: seq<Input>): seq<Packet>
    decreases |inputs|
  {
    if inputs == [] then [] else CalledBy(inputs[..|inputs| - 1]) + Called(inputs[|inputs| - 1])
  }

  lemma {:induction false} SignalsAppend(a: seq<Packet>, b: seq<Packet>)
    ensures SignalsOn(a + b) == SignalsOn(a) + SignalsOn(b)
    decreases |a|
  {
    if a == [] {
      assert a + b == b;
    } else {
      assert (a + b)[0] == a[0] && (a + b)[1..] == a[1..] + b;
      SignalsAppend(a[1..], b);
      Reassociate(if IsSignal(a[0]) then [a[0]] else [], SignalsOn(a[1..]), SignalsOn(b));
    }
  }

  lemma {:induction false} NoSignals(packets: seq<Packet>)
    requires forall i :: 0 <= i < |packets| ==> !IsSignal(packets[i])
    ensures SignalsOn(packets) == []
    decreases |packets|
  {
    if packets != [] {
      NoSignals(packets[1..]);
    }
  }

  lemma {:induction false} BlockHasNone(id: StreamId, pieces: seq<Bytes>, isContinuation: bool)
    ensures SignalsOn(HeaderPackets(id, pieces, isContinuation)) == []
    decreases |pieces|
  {
    if pieces != [] {
      var packets := HeaderPackets(id, pieces, isContinuation);
      assert packets[1..] == HeaderPackets(id, pieces[1..], true);
      BlockHasNone(id, pieces[1..], true);
    }
  }

  lemma {:induction false} DataHasNone(id: StreamId, pieces: seq<Bytes>, ends: bool)
    ensures SignalsOn(DataPackets(id, pieces, ends)) == []
    decreases |pieces|
  {
    if pieces != [] {
      var packets := DataPackets(id, pieces, ends);
      assert packets[1..] == DataPackets(id, pieces[1..], ends);
      DataHasNone(id, pieces[1..], ends);
    }
  }

  lemma TurnHasNone(id: StreamId, o: Outgoing, connCapacity: int, maxFrame: FrameSize)
    ensures SignalsOn(TurnPackets(id, o, connCapacity, maxFrame)) == []
  {
    var capacity := Usable(connCapacity, o.capacity);
    SignalsAppend(BlockPackets(id, o.headers, maxFrame), BodyPackets(id, o.body, capacity, maxFrame));
    if o.headers.WroteNone? || o.headers.WroteSome? {
      BlockHasNone(id, Chunks(o.headers.piece, maxFrame), o.headers.WroteSome?);
    }
    DataHasNone(id, Chunks(o.body.Queued()[..TurnBytes(o.body, capacity)], maxFrame), TurnEnds(o.body, capacity));
  }

  lemma {:induction false} TurnsHaveNone(conn: Conn, order: seq<StreamId>)
    requires AllSend(conn, order)
    ensures SignalsOn(Turns(conn, order)) == []
    decreases |order|
  {
    if order != [] {
      TurnHasNone(order[0], conn.Out(order[0]), conn.outgoingCapacity, conn.maxFrameSize);
      TurnsHaveNone(conn, order[1..]);
      SignalsAppend(Turn(conn, order[0]), Turns(conn, order[1..]));
    }
  }

  lemma RstHasNone(w: World, at: StreamId, code: nat)
    ensures SignalsOn(Rst(w, at, code).wire) == SignalsOn(w.wire)
  {
    var frames := Rst(w, at, code).wire[|w.wire|..];
    SignalsAppend(w.wire, frames);
    NoSignals(frames);
    assert Rst(w, at, code).wire == w.wire + frames;
  }

  // ---- Steps ----

  predicate SameSignals(w: World, next: World) {
    SignalsOn(next.wire) == SignalsOn(w.wire)
  }

  lemma NewHeadersSignalNone(w: World, at: StreamId, last: bool, verdict: Verdict)
    ensures SameSignals(w, ReceiveNewHeaders(w, at, last, verdict))
  {
    if at % 2 == 1 && at > w.conn.lastStreamId {
      if |w.conn.streams| + 1 > w.conn.maxStreams {
        RstHasNone(w, at, 7);
      } else {
        RstHasNone(w.(conn := w.conn.(lastStreamId := at)), at, 1);
        assert SameSignals(w, ReceiveRequest(w, at, last, verdict));
      }
    }
  }

  lemma MoreHeadersSignalNone(w: World, at: StreamId, last: bool, verdict: Verdict)
    requires at in w.conn.streams
    ensures SameSignals(w, ReceiveMoreHeaders(w, at, last, verdict))
  {
    RstHasNone(w, at, 1);
  }

  lemma HeadersSignalNone(w: World, at: StreamId, last: bool, badPriority: bool, verdict: Verdict)
    ensures SameSignals(w, ReceiveHeaders(w, at, last, badPriority, verdict))
  {
    if at in w.conn.streams {
      MoreHeadersSignalNone(w, at, last, verdict);
    } else {
      NewHeadersSignalNone(w, at, last, verdict);
    }
  }

  lemma DataSignalsNone(w: World, at: StreamId, len: nat, last: bool, receiverGone: bool)
    ensures SameSignals(w, ReceiveData(w, at, len, last, receiverGone))
  {
    RstHasNone(w, at, 1);
    RstHasNone(w, at, 5);
    RstHasNone(w, at, 8);
  }

  lemma WindowUpdateSignalsNone(w: World, at: StreamId, len: nat, increment: nat)
    ensures SameSignals(w, ReceiveWindowUpdate(w, at, len, increment))
  {
    RstHasNone(w, at, 3);
  }

  /** SETTINGS and PING, which are answered. */
  lemma AnswersSignal(w: World, f: InFrame)
    requires (f.InSettings? || f.InPing?) && w.status.Running? && ProcessFrame(w, f).status.Running?
    ensures ProcessFrame(w, f).wire == w.wire + Called(Received(f))
  {
  }

  lemma OthersSignalNone(w: World, f: InFrame)
    requires !f.InSettings? && !f.InPing?
    ensures SameSignals(w, ProcessFrame(w, f))
  {
    match f
    case InData(at, len, last, receiverGone) => DataSignalsNone(w, at, len, last, receiverGone);
    case InHeaders(at, last, badPriority, verdict) => HeadersSignalNone(w, at, last, badPriority, verdict);
    case InWindowUpdate(at, len, increment) => WindowUpdateSignalsNone(w, at, len, increment);
    case InPriority(at, _, _) => RstHasNone(w, at, 6);
    case InRstStream(at, _) => RstHasNone(w, at, 6);
    case _ =>
  }

  lemma FrameSignals(w: World, f: InFrame)
    requires w.status.Running? && ProcessFrame(w, f).status.Running?
    ensures SignalsOn(ProcessFrame(w, f).wire) == SignalsOn(w.wire) + Called(Received(f))
  {
    if f.InSettings? || f.InPing? {
      AnswersSignal(w, f);
      SignalsAppend(w.wire, Called(Received(f)));
    } else {
      OthersSignalNone(w, f);
    }
  }

  lemma StepSignals(w: World, input: Input)
    requires Good(w) && w.status.Running? && Enabled(w, input) && Step(w, input).status.Running?
    ensures SignalsOn(Step(w, input).wire) == SignalsOn(w.wire) + Called(input)
  {
    match input
    case Received(frame) => FrameSignals(w, frame);
    case Event(at, payload) => EventKeepsConn(w, at, payload);
    case Scheduled(order) =>
      GoodInRange(w, order);
      SchedulerRunsIff(w, order);
      ScheduleAppends(w, order);
      SignalsAppend(w.wire, Scheduling(w.conn, order));
      if w.conn.outgoingCapacity > 0 {
        TurnsHaveNone(w.conn, order);
      }
  }

  /** Every run that goes on has acknowledged each SETTINGS frame and returned each PING with
      its payload, in the order in which they came, and has written no other frame of the
      connection's own: no WINDOW_UPDATE, no PUSH_PROMISE, nothing unasked for. */
  lemma {:induction false} SignalsAreCalled(maxStreams: nat, inputs: seq<Input>, last: World)
    requires Reaches(maxStreams, inputs, last) && last.status.Running?
    ensures SignalsOn(last.wire) == CalledBy(inputs)
    decreases |inputs|
  {
    if inputs != [] {
      var before := LastStep(NewWorld(maxStreams), inputs, last);
      var earlier := inputs[..|inputs| - 1];
      SignalsAreCalled(maxStreams, earlier, before);
      ReachedIsGood(maxStreams, earlier, before);
      StepSignals(before, inputs[|inputs| - 1]);
    }
  }
  // ---- Resets ----

  /** The error code (section 7 of RFC 9113) with which a frame makes the server reset its
      stream, if it does: 1 PROTOCOL_ERROR, 3 FLOW_CONTROL_ERROR, 5 STREAM_CLOSED,
      6 FRAME_SIZE_ERROR, 7 REFUSED_STREAM, 8 CANCEL. */
  function ResetCode(w: World, f: InFrame): Option<nat> {
    match f
    case InPriority(_, wellFormed, _) => if wellFormed then None else Some(6)
    case InRstStream(_, len) => if len == 4 then None else Some(6)
    case InWindowUpdate(id, _, increment) =>
      if w.conn.HasOutgoing(id) && w.conn.Out(id).capacity + increment > 0xFFFF_FFFF then Some(3) else None
    case InData(id, len, last, receiverGone) =>
      if KindOf(w, id) == RemoteClosedKind then Some(5)
      else if IncomingOf(w, id).None? then None
      else if Mismatch(IncomingOf(w, id).value, len, last) then Some(1)
      else if receiverGone then Some(8) else None
    case InHeaders(id, last, _, verdict) =>
      if id !in w.conn.streams && |w.conn.streams| >= w.conn.maxStreams then Some(7)
      else if id !in w.conn.streams then if verdict.BadStream? then Some(1) else None
      else if !last || !verdict.BlockAccepted? then Some(1)
      else if IncomingOf(w, id).Some? && Mismatch(IncomingOf(w, id).value, 0, true) then Some(1) else None
    case _ => None
  }

  /** More than announced, or an end before that. */
  predicate Mismatch(incoming: Incoming, len: nat, last: bool) {
    var total := incoming.totalReceived + len;
    incoming.contentLength.Some? && (total > incoming.contentLength.value || (last && total < incoming.contentLength.value))
  }

  /** What a frame made the server write: nothing, an answer, or a reset with this code. */
  predicate Wrote(w: World, next: World, f: InFrame) {
    var code := ResetCode(w, f);
    && next.wire == w.wire + Called(Received(f)) + (if code.Some? then ResetFrames(f.id, code.value) else [])
    && (code.Some? ==> f.id !in next.conn.streams)
  }

  lemma ResetWrites(w: World, next: World, f: InFrame, base: World)
    requires ResetCode(w, f).Some? && ResetCode(w, f).value < 256
    requires base.wire == w.wire && next == Rst(base, f.id, ResetCode(w, f).value)
    ensures Wrote(w, next, f)
  {
    ResetBytes(base, f.id, ResetCode(w, f).value);
    assert w.wire + [] == w.wire;
  }
  lemma NothingWritten(w: World, next: World, f: InFrame)
    requires ResetCode(w, f).None? && Called(Received(f)) == [] && next.wire == w.wire
    ensures Wrote(w, next, f)
  {
    assert w.wire + [] + [] == w.wire;
  }

  lemma DataWrites(w: World, f: InFrame)
    requires f.InData? && IdOk(w, f.id) && ReceiveData(w, f.id, f.len, f.last, f.receiverGone).status.Running?
    requires IncomingOf(w, f.id).Some? ==> IncomingOf(w, f.id).value.totalReceived + IncomingOf(w, f.id).value.capacity == 65535
    ensures Wrote(w, ReceiveData(w, f.id, f.len, f.last, f.receiverGone), f)
  {
    var next := ReceiveData(w, f.id, f.len, f.last, f.receiverGone);
    if ResetCode(w, f).Some? {
      ResetWrites(w, next, f, w);
    } else {
      NothingWritten(w, next, f);
    }
  }

  lemma NewHeadersWrite(w: World, f: InFrame)
    requires f.InHeaders? && f.id !in w.conn.streams && ReceiveNewHeaders(w, f.id, f.last, f.verdict).status.Running?
    ensures Wrote(w, ReceiveNewHeaders(w, f.id, f.last, f.verdict), f)
  {
    var next := ReceiveNewHeaders(w, f.id, f.last, f.verdict);
    if |w.conn.streams| >= w.conn.maxStreams {
      ResetWrites(w, next, f, w);
    } else if f.verdict.BadStream? {
      ResetWrites(w, next, f, w.(conn := w.conn.(lastStreamId := f.id)));
    } else {
      NothingWritten(w, next, f);
    }
  }

  lemma MoreHeadersWrite(w: World, f: InFrame)
    requires f.InHeaders? && f.id in w.conn.streams && ReceiveMoreHeaders(w, f.id, f.last, f.verdict).status.Running?
    requires IncomingOf(w, f.id).Some? && IncomingOf(w, f.id).value.contentLength.Some? ==>
               IncomingOf(w, f.id).value.totalReceived <= IncomingOf(w, f.id).value.contentLength.value
    ensures Wrote(w, ReceiveMoreHeaders(w, f.id, f.last, f.verdict), f)
  {
    var next := ReceiveMoreHeaders(w, f.id, f.last, f.verdict);
    if ResetCode(w, f).Some? {
      ResetWrites(w, next, f, w);
    } else {
      NothingWritten(w, next, f);
    }
  }

  lemma WindowUpdateWrites(w: World, f: InFrame)
    requires f.InWindowUpdate? && ReceiveWindowUpdate(w, f.id, f.len, f.increment).status.Running? && 0 !in w.conn.streams
    ensures Wrote(w, ReceiveWindowUpdate(w, f.id, f.len, f.increment), f)
  {
    var next := ReceiveWindowUpdate(w, f.id, f.len, f.increment);
    if ResetCode(w, f).Some? {
      ResetWrites(w, next, f, w);
    } else {
      NothingWritten(w, next, f);
    }
  }

  /** In every run that goes on, what a frame makes the server write at once is exactly the
      answer that it calls for, or a reset of its stream with the code for its fault. */
  lemma FrameWrites(maxStreams: nat, inputs: seq<Input>, w: World, f: InFrame)
    requires Reaches(maxStreams, inputs, w) && w.status.Running? && ProcessFrame(w, f).status.Running?
    ensures Wrote(w, ProcessFrame(w, f), f)
  {
    ReachedIsGood(maxStreams, inputs, w);
    assert StreamGood(w, 0);
    match f
    case InData(id, _, _, _) =>
      assert StreamGood(w, id);
      RequestBodiesBounded(NewWorld(maxStreams), inputs, w, id);
      DataWrites(w, f);
    case InHeaders(id, _, _, _) =>
      RequestBodiesBounded(NewWorld(maxStreams), inputs, w, id);
      if id in w.conn.streams {
        MoreHeadersWrite(w, f);
      } else {
        NewHeadersWrite(w, f);
      }
    case InWindowUpdate(_, _, _) => WindowUpdateWrites(w, f);
    case _ => OthersWrite(w, f);
  }

  lemma OthersWrite(w: World, f: InFrame)
    requires w.status.Running? && ProcessFrame(w, f).status.Running?
    requires !f.InData? && !f.InHeaders? && !f.InWindowUpdate?
    ensures Wrote(w, ProcessFrame(w, f), f)
  {
    if ResetCode(w, f).Some? {
      ResetWrites(w, ProcessFrame(w, f), f, w);
    } else if f.InSettings? || f.InPing? {
      AnswersSignal(w, f);
      assert w.wire + Called(Received(f)) + [] == w.wire + Called(Received(f));
    } else {
      NothingWritten(w, ProcessFrame(w, f), f);
    }
  }
  // ---- Errors that end the connection ----

  /** SETTINGS: a frame error, a value that is not allowed, or a window that grows too far. */
  ghost predicate SomeForbidden(settings: seq<SettingValue>) {
    exists i :: 0 <= i < |settings| && Forbidden(settings[i])
  }

  ghost function SettingsFailure(w: World, f: InFrame): Option<ConnectionError>
    requires f.InSettings?
  {
    var delta := Latest(f.settings, 4, w.conn.initialWindow) - w.conn.initialWindow;
    if f.id != 0 then Some(SettingsWithNonZeroStreamId)
    else if f.len % 6 != 0 || (f.ack && f.len != 0) then Some(SettingsInvalidLength)
    else if f.ack then None
    else if SomeForbidden(f.settings) then Some(BadSettingValue)
    else if delta != 0 && SomeOverflows(w.conn.streams, delta) then Some(StreamWindowSizeOverflowDueToSettings)
    else None
  }

  /** HEADERS: for a stream that the peer has closed, an id that is not new and odd, or a block
      that cannot be put together or decompressed. */
  function HeadersFailure(w: World, f: InFrame): Option<ConnectionError>
    requires f.InHeaders?
  {
    if f.badPriority then Some(HeadersInvalidPriority)
    else if KindOf(w, f.id) == RemoteClosedKind then Some(StreamClosed)
    else if f.id !in w.conn.streams && f.id % 2 == 0 then Some(ClientSidShouldBeOdd)
    else if f.id !in w.conn.streams && f.id < w.conn.lastStreamId then Some(ClientSidShouldBeNumericallyIncreasing)
    else if f.id !in w.conn.streams && f.id == w.conn.lastStreamId then Some(StreamClosed)
    else if f.verdict.BadConnection? then Some(HeaderBlockError)
    else None
  }

  ghost function FailureOf(w: World, f: InFrame): Option<ConnectionError> {
    match f
    case InData(id, len, _, _) =>
      if id == 0 then Some(StreamSpecificFrameToConnection)
      else if id !in w.conn.streams then Some(StreamClosed)
      else if IncomingOf(w, id).Some? && len > IncomingOf(w, id).value.capacity then Some(WindowUnderflow)
      else None
    case InHeaders(_, _, _, _) => HeadersFailure(w, f)
    case InPriority(_, wellFormed, itself) => if wellFormed && itself then Some(HeadersInvalidPriority) else None
    case InRstStream(id, len) => if len == 4 && id !in w.conn.streams then Some(RstStreamForUnknownStream) else None
    case InSettings(_, _, _, _) => SettingsFailure(w, f)
    case InPushPromise => Some(ClientSentPushPromise)
    case InPing(id, _, payload) =>
      if id != 0 then Some(PingFrameWithNonZeroStreamId) else if |payload| != 8 then Some(PingFrameInvalidLength) else None
    case InGoAway(id) => if id != 0 then Some(GoAwayWithNonZeroStreamId) else None
    case InWindowUpdate(id, len, increment) =>
      if len != 4 then Some(WindowUpdateInvalidLength)
      else if increment == 0 then Some(WindowUpdateZeroIncrement)
      else if id == 0 then if w.conn.outgoingCapacity + increment > 0xFFFF_FFFF then Some(WindowUpdateOverflow) else None
      else if !w.conn.HasOutgoing(id) then Some(WindowUpdateForUnknownOrClosedStream)
      else None
    case InContinuation => Some(UnexpectedContinuationFrame)
    case InUnknown => None
  }

  ghost predicate EndsAsItMust(w: World, next: World, f: InFrame) {
    if FailureOf(w, f).None? then next.status.Running?
    else next.status == Closed(FailureOf(w, f).value, next.conn.lastStreamId)
  }

  lemma HeadersEnd(w: World, f: InFrame)
    requires f.InHeaders? && w.status.Running? && IdOk(w, f.id) && !LateTrailers(w, f)
    ensures EndsAsItMust(w, ReceiveHeaders(w, f.id, f.last, f.badPriority, f.verdict), f)
  {
    if !f.badPriority {
      if f.id in w.conn.streams {
        MoreHeadersEnd(w, f);
      } else {
        NewHeadersEnd(w, f);
      }
    }
  }

  lemma MoreHeadersEnd(w: World, f: InFrame)
    requires f.InHeaders? && !f.badPriority && w.status.Running? && IdOk(w, f.id) && !LateTrailers(w, f) && f.id in w.conn.streams
    ensures EndsAsItMust(w, ReceiveMoreHeaders(w, f.id, f.last, f.verdict), f)
  {
  }

  lemma NewHeadersEnd(w: World, f: InFrame)
    requires f.InHeaders? && !f.badPriority && w.status.Running? && f.id !in w.conn.streams
    ensures EndsAsItMust(w, ReceiveNewHeaders(w, f.id, f.last, f.verdict), f)
  {
  }

  lemma SettingsEnd(w: World, f: InFrame)
    requires f.InSettings? && w.status.Running?
    ensures EndsAsItMust(w, ReceiveSettings(w, f.id, f.len, f.ack, f.settings), f)
  {
    SettingsHold(w.conn, f.settings);
  }

  lemma DataEnds(w: World, f: InFrame)
    requires f.InData? && w.status.Running? && IdOk(w, f.id)
    ensures EndsAsItMust(w, ReceiveData(w, f.id, f.len, f.last, f.receiverGone), f)
  {
  }

  lemma OthersEnd(w: World, f: InFrame)
    requires w.status.Running? && !f.InData? && !f.InHeaders? && !f.InSettings? && (f.InRstStream? ==> IdOk(w, f.id))
    ensures EndsAsItMust(w, ProcessFrame(w, f), f)
  {
  }

  /** Exactly when a frame ends the connection, and with which error; otherwise it goes on,
      but for late trailers, which abort it. */
  lemma FrameFails(w: World, f: InFrame)
    requires Good(w) && w.status.Running? && !LateTrailers(w, f)
    ensures EndsAsItMust(w, ProcessFrame(w, f), f)
  {
    match f
    case InData(id, _, _, _) =>
      assert StreamGood(w, id);
      DataEnds(w, f);
    case InHeaders(id, _, _, _) =>
      assert StreamGood(w, id);
      HeadersEnd(w, f);
    case InSettings(_, _, _, _) => SettingsEnd(w, f);
    case InRstStream(id, _) =>
      assert StreamGood(w, id);
      OthersEnd(w, f);
    case _ => OthersEnd(w, f);
  }

  // ---- New requests ----

  /** A request that is accepted opens its stream: with all of the receive window and nothing
      received, or half closed if that is all of it; and with the send window that the peer
      set last, nothing queued and no headers. A bad one is answered, on a stream half closed. */
  lemma RequestOutcome(maxStreams: nat, inputs: seq<Input>, last: World, id: StreamId, ends: bool, verdict: Verdict)
    requires Reaches(maxStreams, inputs, last) && last.status.Running? && (verdict.BlockAccepted? || verdict.BadRequest?)
    requires id % 2 == 1 && id > last.conn.lastStreamId && |last.conn.streams| < maxStreams
    ensures var next := ReceiveHeaders(last, id, ends, false, verdict);
            var outgoing := Outgoing(WaitingForHeaders, StillReceiving([]), Latest(SettingsOf(inputs), 4, 65535));
            && next.status.Running? && next.wire == last.wire && next.conn.lastStreamId == id && id in next.logs
            && next.conn.streams == last.conn.streams[id :=
                 if ends || verdict.BadRequest? then HalfClosedRemote(outgoing)
                 else Open(Incoming(65535, 0, verdict.contentLength), outgoing)]
  {
    ReachedIsGood(maxStreams, inputs, last);
    assert StreamGood(last, id);
    RunTellsConn(maxStreams, inputs, last);
    LifecycleOverRuns(NewWorld(maxStreams), inputs, last);
  }
}
