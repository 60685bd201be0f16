/** What frames from the peer and events from handlers do to one stream. */
module H2Effects {
  import opened Common
  import opened Frames
  import opened H2State
  import opened H2Machine
  import opened H2Lifecycle
  import opened H2Scheduler

  function NoLog(): Log {
    Log(ExpectResponseHeaders, None, [], false, 0)
  }

  function LogOf(w: World, id: StreamId): Log {
    if id in w.logs then w.logs[id] else NoLog()
  }

  // ---- Frames that carry no response ----

  predicate Quiet(p: Packet) {
    !p.frame.ty.Headers? && !p.frame.ty.Continuation? && !p.frame.ty.Data?
  }

  ghost predicate AllQuiet(packets: seq<Packet>) {
    forall i :: 0 <= i < |packets| ==> Quiet(packets[i])
  }

  lemma {:induction false} QuietOwnsNothing(packets: seq<Packet>, id: StreamId)
    requires AllQuiet(packets)
    ensures Own(packets, id) == [] && DataBytes(packets) == 0
    decreases |packets|
  {
    if packets != [] {
      QuietOwnsNothing(packets[1..], id);
    }
  }

  /** As far as responses go, nothing was written. */
  predicate SameResponses(w: World, next: World, id: StreamId) {
    Own(next.wire, id) == Own(w.wire, id) && DataBytes(next.wire) == DataBytes(w.wire)
  }

  lemma QuietAppend(w: World, extra: seq<Packet>, id: StreamId)
    requires AllQuiet(extra)
    ensures SameResponses(w, w.Wrote(extra), id)
  {
    OwnAppend(w.wire, extra, id);
    DataBytesAppend(w.wire, extra);
    QuietOwnsNothing(extra, id);
  }

  lemma RstIsQuiet(w: World, at: StreamId, code: nat, id: StreamId)
    ensures SameResponses(w, Rst(w, at, code), id)
  {
    QuietAppend(w, seq(RST_REPEATS, i => Packet(Frame(RstStream, false, at, 4), BigEndian(code, 4))), id);
  }

  // ---- What a frame from the peer may do ----

  /** A stream is opened, has its window moved, or is closed; its window moves by
      the change of the initial window and the increment that was accepted. */
  predicate PeerMoved(w: World, next: World, id: StreamId) {
    var before, after := SideOf(w, id), SideOf(next, id);
    var log, log' := LogOf(w, id), LogOf(next, id);
    && log' == log.(increments := log'.increments) && log.increments <= log'.increments
    && (|| (after.Gone? && !before.Fresh?)
        || (before.Live? && after == Live(before.o.(capacity :=
              before.o.capacity + (next.conn.initialWindow - w.conn.initialWindow) + (log'.increments - log.increments)))
            && (before.o.capacity <= MAX_WINDOW_SIZE ==> after.o.capacity <= MAX_WINDOW_SIZE))
        || (!before.Live? && after == before && log' == log)
        || (before.Fresh? && log' == log && after == Live(NewOutgoing(w.conn))
            && next.conn.initialWindow == w.conn.initialWindow))
  }

  /** The connection window moves by accepted increments alone. */
  predicate PeerPaid(w: World, next: World) {
    && next.conn.outgoingCapacity - w.conn.outgoingCapacity == next.connIncrements - w.connIncrements
    && w.connIncrements <= next.connIncrements && next.encoded == w.encoded
    && (w.conn.outgoingCapacity <= MAX_WINDOW_SIZE ==> next.conn.outgoingCapacity <= MAX_WINDOW_SIZE)
    && (w.conn.initialWindow <= MAX_INITIAL_WINDOW ==> next.conn.initialWindow <= MAX_INITIAL_WINDOW)
  }

  /** Both windows allow this pending stream to send. */
  predicate MaySend(w: World, id: StreamId) {
    && w.conn.outgoingCapacity > 0 && id in w.conn.pending
    && SideOf(w, id).Live? && SideOf(w, id).o.capacity > 0
  }

  /** A stream that may send now could send before, or the scheduler was woken; none is
      taken off the pending set. */
  predicate PeerWoke(w: World, next: World, id: StreamId) {
    && (w.conn.notify ==> next.conn.notify) && (MaySend(next, id) && !next.conn.notify ==> MaySend(w, id))
    && (id in w.conn.pending ==> id in next.conn.pending)
  }

  predicate PeerEffect(w: World, next: World, id: StreamId) {
    PeerMoved(w, next, id) && PeerPaid(w, next) && PeerWoke(w, next, id) && SameResponses(w, next, id)
  }

  lemma RstEffect(w: World, at: StreamId, code: nat, id: StreamId)
    requires IdOk(w, id)
    ensures PeerEffect(w, Rst(w, at, code), id)
  {
    RstIsQuiet(w, at, code, id);
  }

  lemma FailEffect(w: World, error: ConnectionError, id: StreamId)
    ensures PeerEffect(w, w.Fail(error), id)
  {
  }

  /** The request side of a stream moved on. */
  lemma ChunkEffect(w: World, at: StreamId, incoming: Incoming, len: nat, last: bool, receiverGone: bool, id: StreamId)
    requires IdOk(w, id) && at in w.conn.streams
    requires w.conn.streams[at].Open? || w.conn.streams[at].HalfClosedLocal?
    ensures PeerEffect(w, ReceiveChunk(w, at, incoming, len, last, receiverGone), id)
  {
    if incoming.capacity - len < 0 {
      FailEffect(w, WindowUnderflow, id);
    } else if !LengthAsAnnounced(incoming, len, last) {
      RstEffect(w, at, 1, id);
    } else if receiverGone {
      RstEffect(w, at, 8, id);
    }
  }

  lemma DataEffect(w: World, at: StreamId, len: nat, last: bool, receiverGone: bool, id: StreamId)
    requires IdOk(w, id)
    ensures PeerEffect(w, ReceiveData(w, at, len, last, receiverGone), id)
  {
    if at != 0 && at in w.conn.streams {
      match w.conn.streams[at]
      case Open(incoming, _) => ChunkEffect(w, at, incoming, len, last, receiverGone, id);
      case HalfClosedLocal(incoming) => ChunkEffect(w, at, incoming, len, last, receiverGone, id);
      case HalfClosedRemote(_) => RstEffect(w, at, 5, id);
      case Transition =>
    } else {
      FailEffect(w, if at == 0 then StreamSpecificFrameToConnection else StreamClosed, id);
    }
  }

  lemma RequestEffect(w: World, at: StreamId, last: bool, verdict: Verdict, id: StreamId)
    requires IdOk(w, id) && at > w.conn.lastStreamId
    ensures PeerEffect(w, ReceiveRequest(w, at, last, verdict), id)
  {
    RstIsQuiet(w.(conn := w.conn.(lastStreamId := at)), at, 1, id);
  }

  lemma RefusalEffect(w: World, at: StreamId, code: nat, verdict: Verdict, id: StreamId)
    requires IdOk(w, id)
    ensures PeerEffect(w, RefuseBlock(w, at, code, verdict), id)
  {
    RstEffect(w, at, code, id);
  }

  lemma NewHeadersEffect(w: World, at: StreamId, last: bool, verdict: Verdict, id: StreamId)
    requires IdOk(w, id)
    ensures PeerEffect(w, ReceiveNewHeaders(w, at, last, verdict), id)
  {
    if at % 2 == 0 {
      FailEffect(w, ClientSidShouldBeOdd, id);
    } else if at < w.conn.lastStreamId {
      FailEffect(w, ClientSidShouldBeNumericallyIncreasing, id);
    } else if at == w.conn.lastStreamId {
      FailEffect(w, StreamClosed, id);
    } else if |w.conn.streams| + 1 > w.conn.maxStreams {
      RefusalEffect(w, at, 7, verdict, id);
    } else {
      RequestEffect(w, at, last, verdict, id);
    }
  }

  lemma TrailersEffect(w: World, at: StreamId, verdict: Verdict, id: StreamId)
    requires IdOk(w, id) && at in w.conn.streams
    ensures PeerEffect(w, ReceiveTrailers(w, at, verdict), id)
  {
    RstEffect(w, at, 1, id);
  }

  lemma MoreHeadersEffect(w: World, at: StreamId, last: bool, verdict: Verdict, id: StreamId)
    requires IdOk(w, id) && at in w.conn.streams
    ensures PeerEffect(w, ReceiveMoreHeaders(w, at, last, verdict), id)
  {
    RefusalEffect(w, at, 1, verdict, id);
    TrailersEffect(w, at, verdict, id);
  }

  lemma HeadersEffect(w: World, at: StreamId, last: bool, badPriority: bool, verdict: Verdict, id: StreamId)
    requires IdOk(w, id)
    ensures PeerEffect(w, ReceiveHeaders(w, at, last, badPriority, verdict), id)
  {
    if at in w.conn.streams {
      MoreHeadersEffect(w, at, last, verdict, id);
    } else {
      NewHeadersEffect(w, at, last, verdict, id);
    }
  }

  lemma {:induction false} InitialWindowBounded(conn: Conn, settings: seq<SettingValue>)
    requires conn.initialWindow <= MAX_INITIAL_WINDOW
    ensures var r := ApplySettings(conn, settings); r.Some? ==> r.value.initialWindow <= MAX_INITIAL_WINDOW
    decreases |settings|
  {
    if settings != [] && ApplySetting(conn, settings[0]).Some? {
      InitialWindowBounded(ApplySetting(conn, settings[0]).value, settings[1..]);
    }
  }

  lemma ShiftEffect(w: World, next: Conn, id: StreamId)
    requires IdOk(w, id) && next == w.conn.(initialWindow := next.initialWindow, maxFrameSize := next.maxFrameSize)
    requires w.conn.initialWindow <= MAX_INITIAL_WINDOW ==> next.initialWindow <= MAX_INITIAL_WINDOW
    requires var delta := next.initialWindow - w.conn.initialWindow; delta == 0 || !SomeOverflows(next.streams, delta)
    ensures PeerEffect(w, ShiftWindows(w, next), id)
  {
    QuietAppend(w, [SettingsAck()], id);
  }

  lemma SettingsEffect(w: World, at: StreamId, len: nat, ack: bool, settings: seq<SettingValue>, id: StreamId)
    requires IdOk(w, id)
    ensures PeerEffect(w, ReceiveSettings(w, at, len, ack, settings), id)
  {
    if at != 0 || len % 6 != 0 || ack {
      FailEffect(w, if at != 0 then SettingsWithNonZeroStreamId else SettingsInvalidLength, id);
    } else {
      var next := ApplySettings(w.conn, settings);
      SettingsKeepStreams(w.conn, settings);
      if w.conn.initialWindow <= MAX_INITIAL_WINDOW {
        InitialWindowBounded(w.conn, settings);
      }
      if next.None? {
        FailEffect(w, BadSettingValue, id);
      } else {
        var delta := next.value.initialWindow - w.conn.initialWindow;
        if delta != 0 && SomeOverflows(next.value.streams, delta) {
          FailEffect(w, StreamWindowSizeOverflowDueToSettings, id);
        } else {
          ShiftEffect(w, next.value, id);
        }
      }
    }
  }

  lemma WidenConnectionEffect(w: World, increment: nat, id: StreamId)
    ensures PeerEffect(w, WidenConnection(w, increment), id)
  {
  }

  lemma WidenStreamEffect(w: World, at: StreamId, increment: nat, id: StreamId)
    requires IdOk(w, id) && IdOk(w, at) && w.conn.HasOutgoing(at)
    ensures PeerEffect(w, WidenStream(w, at, increment), id)
  {
    if w.conn.Out(at).capacity + increment > MAX_WINDOW_SIZE {
      RstEffect(w, at, 3, id);
    }
  }

  lemma WindowUpdateEffect(w: World, at: StreamId, len: nat, increment: nat, id: StreamId)
    requires IdOk(w, id) && IdOk(w, at)
    ensures PeerEffect(w, ReceiveWindowUpdate(w, at, len, increment), id)
  {
    if len != 4 {
      FailEffect(w, WindowUpdateInvalidLength, id);
    } else if increment == 0 {
      FailEffect(w, WindowUpdateZeroIncrement, id);
    } else if at == 0 {
      WidenConnectionEffect(w, increment, id);
    } else if !w.conn.HasOutgoing(at) {
      FailEffect(w, WindowUpdateForUnknownOrClosedStream, id);
    } else {
      WidenStreamEffect(w, at, increment, id);
    }
  }

  lemma OtherFrameEffect(w: World, f: InFrame, id: StreamId)
    requires IdOk(w, id)
    requires f.InPushPromise? || f.InPing? || f.InGoAway? || f.InContinuation? || f.InUnknown?
    ensures PeerEffect(w, ProcessFrame(w, f), id)
  {
    if f.InPing? {
      QuietAppend(w, [Packet(Frame(Ping(true), false, 0, 8), f.payload)], id);
    }
  }

  lemma ResetEffect(w: World, f: InFrame, id: StreamId)
    requires IdOk(w, id) && (f.InPriority? || f.InRstStream?)
    ensures PeerEffect(w, ProcessFrame(w, f), id)
  {
    RstEffect(w, f.id, 6, id);
  }

  /** Every frame from the peer. */
  lemma FrameEffect(w: World, f: InFrame, id: StreamId)
    requires IdOk(w, id) && (f.InWindowUpdate? ==> IdOk(w, f.id))
    ensures PeerEffect(w, ProcessFrame(w, f), id)
  {
    match f
    case InData(at, len, last, receiverGone) => DataEffect(w, at, len, last, receiverGone, id);
    case InHeaders(at, last, badPriority, verdict) => HeadersEffect(w, at, last, badPriority, verdict, id);
    case InSettings(at, len, ack, settings) => SettingsEffect(w, at, len, ack, settings, id);
    case InWindowUpdate(at, len, increment) => WindowUpdateEffect(w, at, len, increment, id);
    case InPriority(_, _, _) => ResetEffect(w, f, id);
    case InRstStream(_, _) => ResetEffect(w, f, id);
    case _ => OtherFrameEffect(w, f, id);
  }
}
