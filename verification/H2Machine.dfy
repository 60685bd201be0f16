/** The HTTP/2 server connection as a transition system: a frame is processed, an
    event from a handler is handled, or the scheduler runs. A connection error or
    a panic is a state that nothing leaves. */
module H2Machine {
  import opened Common
  import opened Frames
  import opened H2State

  datatype ConnectionError =
    | StreamSpecificFrameToConnection
    | StreamClosed
    | WindowUnderflow
    | HeadersInvalidPriority
    | ClientSidShouldBeOdd
    | ClientSidShouldBeNumericallyIncreasing
    | HeaderBlockError
    | RstStreamForUnknownStream
    | SettingsWithNonZeroStreamId
    | SettingsInvalidLength
    | BadSettingValue
    | StreamWindowSizeOverflowDueToSettings
    | ClientSentPushPromise
    | PingFrameWithNonZeroStreamId
    | PingFrameInvalidLength
    | GoAwayWithNonZeroStreamId
    | WindowUpdateInvalidLength
    | WindowUpdateZeroIncrement
    | WindowUpdateOverflow
    | WindowUpdateForUnknownOrClosedStream
    | UnexpectedContinuationFrame

  datatype PanicReason =
    | PendingStreamGone
    | DataForMissingStream
    | DataInWrongState
    | StreamCapacityNegative
    | ConnectionCapacityNegative
    | HeadersTooLate
    | PieceAfterDoneSending
    | BodyEndTwice
    | BodyEndAfterSending
    | TrailersInWrongState
    | TransitionSeen

  /** After a connection error a GOAWAY with the last stream id is sent. */
  datatype Status = Running | Closed(error: ConnectionError, goAway: StreamId) | Panicked(reason: PanicReason)

  /** Where the response encoder of a stream is. */
  datatype Phase = ExpectResponseHeaders | ExpectResponseBody | ResponseDone

  /** What happened to a stream, seen from outside: the phase of its encoder, the
      header block and body bytes the server accepted, whether the body ended,
      and the window increments it accepted. */
  datatype Log = Log(phase: Phase, block: Option<Bytes>, body: Bytes, ended: bool, increments: nat)

  /** The connection, the frames written to the transport, the logs of all streams ever
      opened, and the streams whose header blocks were compressed, in that order. */
  datatype World = World(
    status: Status, conn: Conn, wire: seq<Packet>, logs: map<StreamId, Log>, connIncrements: nat, encoded: seq<StreamId>)
  {
    function Panic(reason: PanicReason): World {
      this.(status := Panicked(reason))
    }

    function Fail(error: ConnectionError): World {
      this.(status := Closed(error, conn.lastStreamId))
    }

    function Wrote(packets: seq<Packet>): World {
      this.(wire := wire + packets)
    }
  }

  function NewWorld(maxStreams: nat): World {
    World(Running, Conn(map[], 0, maxStreams, DEFAULT_WINDOW, MIN_FRAME_SIZE, false, {}, DEFAULT_WINDOW), [], map[], 0, [])
  }

  // ---- Writing frames ----

  /** END_STREAM was written: half closed from open, otherwise closed. */
  function EndLocal(conn: Conn, id: StreamId): Conn
    requires conn.HasOutgoing(id)
  {
    conn.(pending := conn.pending - {id},
          streams := if conn.streams[id].Open? then conn.streams[id := HalfClosedLocal(conn.streams[id].incoming)]
                     else conn.streams - {id})
  }

  function Deduct(conn: Conn, id: StreamId, n: nat): Conn
    requires conn.HasOutgoing(id)
  {
    conn.SetOut(id, conn.Out(id).(capacity := conn.Out(id).capacity - n)).(
      outgoingCapacity := conn.outgoingCapacity - n)
  }

  /** `write_frame` for a DATA frame: both windows are charged. */
  function WriteData(w: World, packet: Packet): World
    requires packet.frame.ty.Data?
  {
    var id, n := packet.frame.streamId, |packet.payload|;
    if id !in w.conn.streams then w.Panic(DataForMissingStream)
    else if !w.conn.streams[id].HasOutgoing() then w.Panic(DataInWrongState)
    else if w.conn.Out(id).capacity - n < 0 then w.Panic(StreamCapacityNegative)
    else if w.conn.outgoingCapacity - n < 0 then w.Panic(ConnectionCapacityNegative)
    else
      var charged := Deduct(w.conn, id, n);
      w.(conn := if packet.frame.ty.endStream then EndLocal(charged, id) else charged).Wrote([packet])
  }

  function WriteFrame(w: World, packet: Packet): World {
    if !w.status.Running? then w
    else if packet.frame.ty.Data? then WriteData(w, packet)
    else w.Wrote([packet])
  }

  function WriteAll(w: World, packets: seq<Packet>): World
    decreases |packets|
  {
    if packets == [] then w else WriteAll(WriteFrame(w, packets[0]), packets[1..])
  }

  // ---- The scheduler ----

  /** `send_data_maybe` between its two loops: frames queued but not written, and
      streams to take off the pending set. */
  datatype Queueing = Queueing(world: World, frames: seq<Packet>, notPending: set<StreamId>)

  /** One turn of the loop over pending streams. */
  function QueueTurn(q: Queueing, id: StreamId): Queueing {
    var conn := q.world.conn;
    if !q.world.status.Running? then q
    else if !conn.HasOutgoing(id) then q.(world := q.world.Panic(PendingStreamGone))
    else if conn.Out(id).headers.WaitingForHeaders? then q.(notPending := q.notPending + {id})
    else
      var o := conn.Out(id);
      q.(world := q.world.(conn := conn.SetOut(id, AfterTurn(o, conn.outgoingCapacity))),
         frames := q.frames + TurnPackets(id, o, conn.outgoingCapacity, conn.maxFrameSize))
  }

  function QueueAll(q: Queueing, order: seq<StreamId>): Queueing
    decreases |order|
  {
    if order == [] then q else QueueAll(QueueTurn(q, order[0]), order[1..])
  }

  /** The first loop: it does nothing without connection window, which it does not
      change. The permit was taken. */
  function QueuePending(w: World, order: seq<StreamId>): Queueing {
    var start := Queueing(w.(conn := w.conn.(notify := false)), [], {});
    if w.conn.outgoingCapacity <= 0 then start else QueueAll(start, order)
  }

  function Unpend(w: World, ids: set<StreamId>): World {
    if w.status.Running? then w.(conn := w.conn.(pending := w.conn.pending - ids)) else w
  }

  /** `send_data_maybe`, visiting the pending streams in the given order. */
  function SendDataMaybe(w: World, order: seq<StreamId>): World {
    var q := QueuePending(w, order);
    Unpend(WriteAll(q.world, q.frames), q.notPending)
  }

  // ---- Events from response encoders ----

  datatype EventPayload = HeadersEvent(block: Bytes) | BodyChunk(piece: Bytes) | BodyEnd

  function NextPhase(payload: EventPayload): Phase {
    if payload.BodyEnd? then ResponseDone else ExpectResponseBody
  }

  /** An event makes a stream pending, and is worth a wake-up if both windows allow
      sending. */
  function MarkPending(conn: Conn, id: StreamId, o: Outgoing): Conn
    requires conn.HasOutgoing(id)
  {
    conn.SetOut(id, o).(
      pending := conn.pending + {id},
      notify := conn.notify || (conn.outgoingCapacity > 0 && o.capacity > 0))
  }

  function SetLog(w: World, id: StreamId, log: Log): World {
    w.(logs := w.logs[id := log])
  }

  function HandleHeaders(w: World, id: StreamId, block: Bytes): World
    requires w.conn.HasOutgoing(id) && id in w.logs
  {
    var o := w.conn.Out(id);
    if !o.body.StillReceiving? then w.Panic(HeadersTooLate)
    else
      SetLog(w.(conn := MarkPending(w.conn, id, o.(headers := WroteNone(block))), encoded := w.encoded + [id]), id,
             w.logs[id].(block := Some(block)))
  }

  function HandleChunk(w: World, id: StreamId, piece: Bytes): World
    requires w.conn.HasOutgoing(id) && id in w.logs
  {
    var o := w.conn.Out(id);
    if o.body.DoneSending? then w.Panic(PieceAfterDoneSending)
    else SetLog(w.(conn := MarkPending(w.conn, id, o.(body := o.body.PushBack(piece)))), id,
                w.logs[id].(body := w.logs[id].body + piece))
  }

  function HandleEnd(w: World, id: StreamId): World
    requires w.conn.HasOutgoing(id) && id in w.logs
  {
    var o := w.conn.Out(id);
    match o.body
    case DoneReceiving(_) => w.Panic(BodyEndTwice)
    case DoneSending => w.Panic(BodyEndAfterSending)
    case StillReceiving(pieces) =>
      SetLog(w.(conn := w.conn.SetOut(id, o.(body := DoneReceiving(pieces))).(notify := w.conn.notify || pieces == [])), id,
             w.logs[id].(ended := true))
  }

  /** `handle_event`. Events for a stream that no longer sends are ignored. */
  function HandleEvent(w: World, id: StreamId, payload: EventPayload): World
    requires id in w.logs
  {
    var seen := SetLog(w, id, w.logs[id].(phase := NextPhase(payload)));
    if !w.conn.HasOutgoing(id) then seen
    else match payload
      case HeadersEvent(block) => HandleHeaders(seen, id, block)
      case BodyChunk(piece) => HandleChunk(seen, id, piece)
      case BodyEnd => HandleEnd(seen, id)
  }

  // ---- Frames from the peer ----

  const RST_REPEATS := 15

  /** `rst`: the stream is removed and fifteen RST_STREAM frames are written. */
  function Rst(w: World, id: StreamId, code: nat): World {
    w.(conn := w.conn.(streams := w.conn.streams - {id})).Wrote(
      seq(RST_REPEATS, i => Packet(Frame(RstStream, false, id, 4), BigEndian(code, 4))))
  }

  function NewOutgoing(conn: Conn): Outgoing {
    Outgoing(WaitingForHeaders, StillReceiving([]), conn.initialWindow)
  }

  function OpenStream(w: World, id: StreamId, ss: StreamState): World {
    w.(conn := w.conn.(streams := w.conn.streams[id := ss], lastStreamId := id),
       logs := w.logs[id := Log(ExpectResponseHeaders, None, [], false, 0)])
  }

  /** `write_chunk` accepts a chunk unless the total is not what was announced or
      the handler is gone. */
  predicate LengthAsAnnounced(incoming: Incoming, len: nat, last: bool) {
    var total := incoming.totalReceived + len;
    && total < U64_RANGE
    && (incoming.contentLength.Some? ==>
          total <= incoming.contentLength.value && (last ==> total == incoming.contentLength.value))
  }

  function ReceiveChunk(w: World, id: StreamId, incoming: Incoming, len: nat, last: bool, receiverGone: bool): World
    requires id in w.conn.streams && (w.conn.streams[id].Open? || w.conn.streams[id].HalfClosedLocal?)
  {
    var received := Incoming(incoming.capacity - len, incoming.totalReceived + len, incoming.contentLength);
    if received.capacity < 0 then w.Fail(WindowUnderflow)
    else if !LengthAsAnnounced(incoming, len, last) then Rst(w, id, 1)
    else if receiverGone then Rst(w, id, 8)
    else
      w.(conn := w.conn.(streams :=
        match w.conn.streams[id]
        case Open(_, outgoing) =>
          w.conn.streams[id := if last then HalfClosedRemote(outgoing) else Open(received, outgoing)]
        case _ => if last then w.conn.streams - {id} else w.conn.streams[id := HalfClosedLocal(received)]))
  }

  function ReceiveData(w: World, id: StreamId, len: nat, last: bool, receiverGone: bool): World {
    if id == 0 then w.Fail(StreamSpecificFrameToConnection)
    else if id !in w.conn.streams then w.Fail(StreamClosed)
    else match w.conn.streams[id]
      case Open(incoming, _) => ReceiveChunk(w, id, incoming, len, last, receiverGone)
      case HalfClosedLocal(incoming) => ReceiveChunk(w, id, incoming, len, last, receiverGone)
      case HalfClosedRemote(_) => Rst(w, id, 5)
      case Transition => w.Panic(TransitionSeen)
  }

  /** What collecting, decompressing and checking a header block came to. */
  datatype Verdict =
    | BlockAccepted(contentLength: Option<nat>)
    | BadStream
    | BadRequest
    | BadConnection

  function ReceiveRequest(w: World, id: StreamId, last: bool, verdict: Verdict): World {
    match verdict
    case BlockAccepted(contentLength) =>
      var outgoing := NewOutgoing(w.conn);
      OpenStream(w, id, if last then HalfClosedRemote(outgoing)
                        else Open(Incoming(DEFAULT_WINDOW, 0, contentLength), outgoing))
    case BadRequest => OpenStream(w, id, HalfClosedRemote(NewOutgoing(w.conn)))
    case BadStream => Rst(w.(conn := w.conn.(lastStreamId := id)), id, 1)
    case BadConnection => w.(conn := w.conn.(lastStreamId := id)).Fail(HeaderBlockError)
  }

  function ReceiveTrailers(w: World, id: StreamId, verdict: Verdict): World
    requires id in w.conn.streams
  {
    if verdict.BadConnection? then w.Fail(HeaderBlockError)
    else if !verdict.BlockAccepted? then Rst(w, id, 1)
    else match w.conn.streams[id]
      case Open(incoming, outgoing) =>
        if incoming.contentLength.Some? && incoming.totalReceived != incoming.contentLength.value then Rst(w, id, 1)
        else w.(conn := w.conn.(streams := w.conn.streams[id := HalfClosedRemote(outgoing)]))
      case _ => w.Panic(TrailersInWrongState)
  }

  /** A block that is not looked at: only its continuation frames can go wrong. */
  function SkipBlock(w: World, verdict: Verdict): World {
    if verdict.BadConnection? then w.Fail(HeaderBlockError) else w
  }

  /** The stream is refused and its block skipped. */
  function RefuseBlock(w: World, id: StreamId, code: nat, verdict: Verdict): World {
    SkipBlock(Rst(w, id, code), verdict)
  }

  /** HEADERS for an id that is not live: a new stream, if its id is odd and new
      and one more stream is allowed. */
  function ReceiveNewHeaders(w: World, id: StreamId, last: bool, verdict: Verdict): World {
    if id % 2 == 0 then w.Fail(ClientSidShouldBeOdd)
    else if id < w.conn.lastStreamId then w.Fail(ClientSidShouldBeNumericallyIncreasing)
    else if id == w.conn.lastStreamId then w.Fail(StreamClosed)
    else if |w.conn.streams| + 1 > w.conn.maxStreams then RefuseBlock(w, id, 7, verdict)
    else ReceiveRequest(w, id, last, verdict)
  }

  /** HEADERS for a live stream: trailers, which end it. */
  function ReceiveMoreHeaders(w: World, id: StreamId, last: bool, verdict: Verdict): World
    requires id in w.conn.streams
  {
    match w.conn.streams[id]
    case HalfClosedRemote(_) => w.Fail(StreamClosed)
    case Transition => w.Panic(TransitionSeen)
    case _ => if last then ReceiveTrailers(w, id, verdict) else RefuseBlock(w, id, 1, verdict)
  }

  function ReceiveHeaders(w: World, id: StreamId, last: bool, badPriority: bool, verdict: Verdict): World {
    if badPriority then w.Fail(HeadersInvalidPriority)
    else if id in w.conn.streams then ReceiveMoreHeaders(w, id, last, verdict)
    else ReceiveNewHeaders(w, id, last, verdict)
  }

  function ReceiveRst(w: World, id: StreamId, len: nat): World {
    if len != 4 then Rst(w, id, 6)
    else if id !in w.conn.streams then w.Fail(RstStreamForUnknownStream)
    else if w.conn.streams[id].Transition? then w.Panic(TransitionSeen)
    else w.(conn := w.conn.(streams := w.conn.streams - {id}))
  }

  // ---- SETTINGS ----

  /** A known setting (`Setting::from_repr`) and its value. */
  datatype SettingValue = SettingValue(code: nat, value: nat)

  /** `Settings::apply`, for the settings that govern sending; `None` for a value
      that is refused. */
  function ApplySetting(conn: Conn, s: SettingValue): Option<Conn> {
    if s.code == 2 then if s.value <= 1 then Some(conn) else None
    else if s.code == 4 then if s.value <= MAX_INITIAL_WINDOW then Some(conn.(initialWindow := s.value)) else None
    else if s.code == 5 then
      if MIN_FRAME_SIZE <= s.value <= MAX_FRAME_SIZE then Some(conn.(maxFrameSize := s.value)) else None
    else Some(conn)
  }

  /** `Settings::parse` with `apply` as its callback. */
  function ApplySettings(conn: Conn, settings: seq<SettingValue>): Option<Conn>
    decreases |settings|
  {
    if settings == [] then Some(conn)
    else match ApplySetting(conn, settings[0])
      case None => None
      case Some(next) => ApplySettings(next, settings[1..])
  }

  function ShiftOutgoing(ss: StreamState, delta: int): StreamState {
    if ss.HasOutgoing() then ss.WithOutgoing(ss.outgoing.(capacity := ss.outgoing.capacity + delta)) else ss
  }

  /** Every stream window moves by the change of the initial window (section 6.9.2
      of RFC 9113). */
  function ShiftAll(streams: map<StreamId, StreamState>, delta: int): (shifted: map<StreamId, StreamState>)
    ensures shifted.Keys == streams.Keys
  {
    map id | id in streams :: ShiftOutgoing(streams[id], delta)
  }

  predicate SomeOverflows(streams: map<StreamId, StreamState>, delta: int) {
    exists id :: id in streams && streams[id].HasOutgoing() && streams[id].outgoing.capacity + delta > MAX_WINDOW_SIZE
  }

  /** A window that was closed is open now. */
  predicate SomeOpens(streams: map<StreamId, StreamState>, delta: int) {
    exists id :: id in streams && streams[id].HasOutgoing()
      && streams[id].outgoing.capacity <= 0 && streams[id].outgoing.capacity + delta > 0
  }

  function SettingsAck(): Packet {
    Packet(Frame(Settings(true), false, 0, 0), [])
  }

  /** The new settings hold, stream windows have moved, and the peer is told. */
  function ShiftWindows(w: World, next: Conn): World {
    var delta := next.initialWindow - w.conn.initialWindow;
    w.(conn := next.(streams := ShiftAll(next.streams, delta),
                     notify := next.notify || SomeOpens(next.streams, delta))).Wrote([SettingsAck()])
  }

  function ReceiveSettings(w: World, id: StreamId, len: nat, ack: bool, settings: seq<SettingValue>): World {
    if id != 0 then w.Fail(SettingsWithNonZeroStreamId)
    else if len % 6 != 0 then w.Fail(SettingsInvalidLength)
    else if ack then if len != 0 then w.Fail(SettingsInvalidLength) else w
    else match ApplySettings(w.conn, settings)
      case None => w.Fail(BadSettingValue)
      case Some(next) =>
        var delta := next.initialWindow - w.conn.initialWindow;
        if delta != 0 && SomeOverflows(next.streams, delta) then w.Fail(StreamWindowSizeOverflowDueToSettings)
        else ShiftWindows(w, next)
  }

  // ---- WINDOW_UPDATE ----

  function WidenConnection(w: World, increment: nat): World {
    if w.conn.outgoingCapacity + increment > MAX_WINDOW_SIZE then w.Fail(WindowUpdateOverflow)
    else w.(conn := w.conn.(outgoingCapacity := w.conn.outgoingCapacity + increment, notify := true),
            connIncrements := w.connIncrements + increment)
  }

  function WidenStream(w: World, id: StreamId, increment: nat): World
    requires w.conn.HasOutgoing(id)
  {
    var o := w.conn.Out(id);
    var widened := o.capacity + increment;
    if widened > MAX_WINDOW_SIZE then Rst(w, id, 3)
    else
      var opens := o.capacity <= 0 < widened;
      var next := w.(conn := w.conn.SetOut(id, o.(capacity := widened)).(
        pending := if opens then w.conn.pending + {id} else w.conn.pending,
        notify := w.conn.notify || (opens && w.conn.outgoingCapacity > 0)));
      if id in w.logs then SetLog(next, id, w.logs[id].(increments := w.logs[id].increments + increment)) else next
  }

  function ReceiveWindowUpdate(w: World, id: StreamId, len: nat, increment: nat): World {
    if len != 4 then w.Fail(WindowUpdateInvalidLength)
    else if increment == 0 then w.Fail(WindowUpdateZeroIncrement)
    else if id == 0 then WidenConnection(w, increment)
    else if !w.conn.HasOutgoing(id) then w.Fail(WindowUpdateForUnknownOrClosedStream)
    else WidenStream(w, id, increment)
  }

  // ---- One step of `process_loop` ----

  /** A frame that the deframer delivered, with what the rest of the program makes
      of it where that is outside this model. */
  datatype InFrame =
    | InData(id: StreamId, len: nat, last: bool, receiverGone: bool)
    | InHeaders(id: StreamId, last: bool, badPriority: bool, verdict: Verdict)
    | InPriority(id: StreamId, wellFormed: bool, dependsOnItself: bool)
    | InRstStream(id: StreamId, len: nat)
    | InSettings(id: StreamId, len: nat, ack: bool, settings: seq<SettingValue>)
    | InPushPromise
    | InPing(id: StreamId, ack: bool, payload: Bytes)
    | InGoAway(id: StreamId)
    | InWindowUpdate(id: StreamId, len: nat, increment: nat)
    | InContinuation
    | InUnknown

  /** `process_frame`. */
  function ProcessFrame(w: World, f: InFrame): World {
    match f
    case InData(id, len, last, receiverGone) => ReceiveData(w, id, len, last, receiverGone)
    case InHeaders(id, last, badPriority, verdict) => ReceiveHeaders(w, id, last, badPriority, verdict)
    case InPriority(id, wellFormed, dependsOnItself) =>
      if !wellFormed then Rst(w, id, 6) else if dependsOnItself then w.Fail(HeadersInvalidPriority) else w
    case InRstStream(id, len) => ReceiveRst(w, id, len)
    case InSettings(id, len, ack, settings) => ReceiveSettings(w, id, len, ack, settings)
    case InPushPromise => w.Fail(ClientSentPushPromise)
    case InPing(id, ack, payload) =>
      if id != 0 then w.Fail(PingFrameWithNonZeroStreamId)
      else if |payload| != 8 then w.Fail(PingFrameInvalidLength)
      else if ack then w
      else w.Wrote([Packet(Frame(Ping(true), false, 0, 8), payload)])
    case InGoAway(id) => if id != 0 then w.Fail(GoAwayWithNonZeroStreamId) else w
    case InWindowUpdate(id, len, increment) => ReceiveWindowUpdate(w, id, len, increment)
    case InContinuation => w.Fail(UnexpectedContinuationFrame)
    case InUnknown => w
  }

  datatype Input =
    | Received(frame: InFrame)
    | Event(id: StreamId, payload: EventPayload)
    | Scheduled(order: seq<StreamId>)

  /** The order enumerates a set, each member once. */
  ghost predicate Enumerates(order: seq<StreamId>, ids: set<StreamId>) {
    && (forall i :: 0 <= i < |order| ==> order[i] in ids)
    && (forall id :: id in ids ==> id in order)
    && (forall i, j :: 0 <= i < j < |order| ==> order[i] != order[j])
  }

  /** What can come next: any frame; an event that the encoder of an opened stream
      may emit; the scheduler if its permit is set, in any order. */
  ghost predicate Enabled(w: World, input: Input) {
    match input
    case Received(InWindowUpdate(_, _, increment)) => increment < 0x8000_0000
    case Received(_) => true
    case Event(id, payload) =>
      id in w.logs &&
      (match payload
       case HeadersEvent(block) => w.logs[id].phase == ExpectResponseHeaders
       case BodyChunk(_) => w.logs[id].phase == ExpectResponseBody
       case BodyEnd => w.logs[id].phase == ExpectResponseBody)
    case Scheduled(order) => w.conn.notify && Enumerates(order, w.conn.pending)
  }

  function Step(w: World, input: Input): World
    requires input.Event? ==> input.id in w.logs
  {
    if !w.status.Running? then w
    else match input
      case Received(frame) => ProcessFrame(w, frame)
      case Event(id, payload) => HandleEvent(w, id, payload)
      case Scheduled(order) => SendDataMaybe(w, order)
  }

  /** A run: every input was possible when it came. */
  ghost predicate RunsTo(w: World, inputs: seq<Input>, last: World)
    decreases |inputs|
  {
    if inputs == [] then w == last
    else Enabled(w, inputs[0]) && RunsTo(Step(w, inputs[0]), inputs[1..], last)
  }
}
