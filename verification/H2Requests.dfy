/** The receiving side of streams: what the server counts of request bodies, and what
    makes a stream move from one state to the next. */
module H2Requests {
  import opened Common
  import opened Frames
  import opened H2State
  import opened H2Machine
  import opened H2Lifecycle
  import opened H2Scheduler
  import opened H2Aborts
  import opened H2Wire
  import opened H2Safety

  /** What a stream still receives, if it does. */
  function IncomingOf(w: World, id: StreamId): Option<Incoming> {
    if id !in w.conn.streams then None
    else match w.conn.streams[id]
      case Open(incoming, _) => Some(incoming)
      case HalfClosedLocal(incoming) => Some(incoming)
      case _ => None
  }

  /** The receive window is its first size less what was received, no more than
      announced was received, and the window is not negative. */
  predicate IncomingOk(w: World, id: StreamId) {
    var incoming := IncomingOf(w, id);
    incoming.Some? ==>
      && incoming.value.capacity == DEFAULT_WINDOW - incoming.value.totalReceived >= 0
      && (incoming.value.contentLength.Some? ==> incoming.value.totalReceived <= incoming.value.contentLength.value)
  }

  // ---- One step ----

  lemma WriteKeepsIncoming(w: World, p: Packet, id: StreamId)
    ensures IncomingOf(WriteFrame(w, p), id) == IncomingOf(w, id)
  {
  }

  lemma {:induction false} WriteAllKeepsIncoming(w: World, packets: seq<Packet>, id: StreamId)
    ensures IncomingOf(WriteAll(w, packets), id) == IncomingOf(w, id)
    decreases |packets|
  {
    if packets != [] {
      WriteKeepsIncoming(w, packets[0], id);
      WriteAllKeepsIncoming(WriteFrame(w, packets[0]), packets[1..], id);
    }
  }

  lemma {:induction false} QueueKeepsIncoming(q: Queueing, order: seq<StreamId>, id: StreamId)
    ensures IncomingOf(QueueAll(q, order).world, id) == IncomingOf(q.world, id)
    decreases |order|
  {
    if order != [] {
      QueueKeepsIncoming(QueueTurn(q, order[0]), order[1..], id);
    }
  }

  /** Sending does not touch the receiving side, also when it ends a response. */
  lemma ScheduleKeepsIncoming(w: World, order: seq<StreamId>, id: StreamId)
    ensures IncomingOf(SendDataMaybe(w, order), id) == IncomingOf(w, id)
  {
    var q := QueuePending(w, order);
    if w.conn.outgoingCapacity > 0 {
      QueueKeepsIncoming(Queueing(w.(conn := w.conn.(notify := false)), [], {}), order, id);
    }
    WriteAllKeepsIncoming(q.world, q.frames, id);
  }

  lemma EventKeepsIncoming(w: World, at: StreamId, payload: EventPayload, id: StreamId)
    requires at in w.logs
    ensures IncomingOf(HandleEvent(w, at, payload), id) == IncomingOf(w, id)
  {
  }

  /** A stream goes on receiving what it received, has stopped, or has just begun. */
  predicate ReceivesOn(w: World, next: World, id: StreamId) {
    IncomingOf(next, id) == IncomingOf(w, id) || IncomingOf(next, id).None?
  }

  lemma ChunkKeepsIncoming(w: World, at: StreamId, len: nat, last: bool, receiverGone: bool, id: StreamId)
    requires IncomingOk(w, id)
    ensures IncomingOk(ReceiveData(w, at, len, last, receiverGone), id)
  {
  }

  lemma NewHeadersKeepIncoming(w: World, at: StreamId, last: bool, verdict: Verdict, id: StreamId)
    requires IncomingOk(w, id)
    ensures IncomingOk(ReceiveNewHeaders(w, at, last, verdict), id)
  {
    if at % 2 == 0 {
      FailKeepsIncoming(w, ClientSidShouldBeOdd, id);
    } else if at < w.conn.lastStreamId {
      FailKeepsIncoming(w, ClientSidShouldBeNumericallyIncreasing, id);
    } else if at == w.conn.lastStreamId {
      FailKeepsIncoming(w, StreamClosed, id);
    } else if |w.conn.streams| + 1 > w.conn.maxStreams {
      RefusalKeepsIncoming(w, at, verdict, id);
    } else {
      RequestKeepsIncoming(w, at, last, verdict, id);
    }
  }

  lemma FailKeepsIncoming(w: World, error: ConnectionError, id: StreamId)
    requires IncomingOk(w, id)
    ensures IncomingOk(w.Fail(error), id)
  {
  }

  lemma RefusalKeepsIncoming(w: World, at: StreamId, verdict: Verdict, id: StreamId)
    requires IncomingOk(w, id)
    ensures IncomingOk(RefuseBlock(w, at, 7, verdict), id)
  {
  }

  lemma RequestKeepsIncoming(w: World, at: StreamId, last: bool, verdict: Verdict, id: StreamId)
    requires IncomingOk(w, id)
    ensures IncomingOk(ReceiveRequest(w, at, last, verdict), id)
  {
  }

  lemma MoreHeadersKeepIncoming(w: World, at: StreamId, last: bool, verdict: Verdict, id: StreamId)
    requires at in w.conn.streams
    ensures ReceivesOn(w, ReceiveMoreHeaders(w, at, last, verdict), id)
  {
  }

  lemma SettingsKeepIncoming(w: World, at: StreamId, len: nat, ack: bool, settings: seq<SettingValue>, id: StreamId)
    ensures ReceivesOn(w, ReceiveSettings(w, at, len, ack, settings), id)
  {
    SettingsKeepStreams(w.conn, settings);
  }

  lemma OtherFrameKeepsIncoming(w: World, f: InFrame, id: StreamId)
    requires !f.InData? && !f.InHeaders? && !f.InSettings?
    ensures ReceivesOn(w, ProcessFrame(w, f), id)
  {
  }

  lemma FrameKeepsIncoming(w: World, f: InFrame, id: StreamId)
    requires IncomingOk(w, id)
    ensures IncomingOk(ProcessFrame(w, f), id)
  {
    match f
    case InData(at, len, last, receiverGone) => ChunkKeepsIncoming(w, at, len, last, receiverGone, id);
    case InHeaders(at, last, badPriority, verdict) =>
      if at in w.conn.streams {
        MoreHeadersKeepIncoming(w, at, last, verdict, id);
      } else {
        NewHeadersKeepIncoming(w, at, last, verdict, id);
      }
    case InSettings(at, len, ack, settings) => SettingsKeepIncoming(w, at, len, ack, settings, id);
    case _ => OtherFrameKeepsIncoming(w, f, id);
  }

  lemma StepKeepsIncoming(w: World, input: Input, id: StreamId)
    requires IncomingOk(w, id) && Enabled(w, input)
    ensures IncomingOk(Step(w, input), id)
  {
    match input
    case Received(frame) => FrameKeepsIncoming(w, frame, id);
    case Event(at, payload) => EventKeepsIncoming(w, at, payload, id);
    case Scheduled(order) => ScheduleKeepsIncoming(w, order, id);
  }

  // ---- Every run ----

  /** In every run the receive window of a stream is 65535 less what it received, which
      is no more than was announced. Nothing is ever given back, so no stream receives
      more than 65535 bytes of a body. */
  lemma {:induction false} RequestBodiesBounded(w: World, inputs: seq<Input>, last: World, id: StreamId)
    requires IncomingOk(w, id) && RunsTo(w, inputs, last)
    ensures IncomingOk(last, id)
    ensures IncomingOf(last, id).Some? ==> IncomingOf(last, id).value.totalReceived <= 65535
    decreases |inputs|
  {
    if inputs != [] {
      StepKeepsIncoming(w, inputs[0], id);
      RequestBodiesBounded(Step(w, inputs[0]), inputs[1..], last, id);
    }
  }

  // ---- No window is given back ----

  predicate GivesNone(packets: seq<Packet>) {
    forall i :: 0 <= i < |packets| ==> !packets[i].frame.ty.WindowUpdate?
  }

  lemma {:induction false} BlockGivesNone(id: StreamId, pieces: seq<Bytes>, isContinuation: bool)
    ensures GivesNone(HeaderPackets(id, pieces, isContinuation))
    decreases |pieces|
  {
    if pieces != [] {
      BlockGivesNone(id, pieces[1..], true);
    }
  }

  lemma {:induction false} DataGivesNone(id: StreamId, pieces: seq<Bytes>, ends: bool)
    ensures GivesNone(DataPackets(id, pieces, ends))
    decreases |pieces|
  {
    if pieces != [] {
      DataGivesNone(id, pieces[1..], ends);
    }
  }

  lemma TurnGivesNone(id: StreamId, o: Outgoing, connCapacity: int, maxFrame: FrameSize)
    ensures GivesNone(TurnPackets(id, o, connCapacity, maxFrame))
  {
    var capacity := Usable(connCapacity, o.capacity);
    if o.headers.WroteNone? || o.headers.WroteSome? {
      BlockGivesNone(id, Chunks(o.headers.piece, maxFrame), o.headers.WroteSome?);
    }
    DataGivesNone(id, Chunks(o.body.Queued()[..TurnBytes(o.body, capacity)], maxFrame), TurnEnds(o.body, capacity));
  }

  lemma {:induction false} TurnsGiveNone(conn: Conn, order: seq<StreamId>)
    requires AllSend(conn, order)
    ensures GivesNone(Turns(conn, order))
    decreases |order|
  {
    if order != [] {
      TurnGivesNone(order[0], conn.Out(order[0]), conn.outgoingCapacity, conn.maxFrameSize);
      TurnsGiveNone(conn, order[1..]);
    }
  }

  lemma AnswersGiveNone(wire: seq<Packet>, next: seq<Packet>, at: StreamId)
    requires GivesNone(wire) && Answered(wire, next, at)
    ensures GivesNone(next)
  {
    forall i | 0 <= i < |next|
      ensures !next[i].frame.ty.WindowUpdate?
    {
      if i < |wire| {
        assert next[i] == wire[i];
      }
    }
  }

  lemma StepGivesNone(w: World, input: Input)
    requires Good(w) && w.status.Running? && Enabled(w, input) && !Step(w, input).status.Panicked? && GivesNone(w.wire)
    ensures GivesNone(Step(w, input).wire)
  {
    match input
    case Received(frame) =>
      FrameGrows(w, frame);
      AnswersGiveNone(w.wire, ProcessFrame(w, frame).wire, FrameId(frame));
    case Event(at, payload) => EventKeepsConn(w, at, payload);
    case Scheduled(order) =>
      GoodInRange(w, order);
      SchedulerRunsIff(w, order);
      ScheduleAppends(w, order);
      if w.conn.outgoingCapacity > 0 {
        TurnsGiveNone(w.conn, order);
      }
  }

  lemma {:induction false} RunGivesNone(w: World, inputs: seq<Input>, last: World)
    requires Good(w) && GivesNone(w.wire) && RunsTo(w, inputs, last) && !last.status.Panicked?
    ensures GivesNone(last.wire)
    decreases |inputs|
  {
    if !w.status.Running? {
      StoppedStays(w, inputs, last);
    } else if inputs != [] {
      var next := Step(w, inputs[0]);
      StepKeepsGood(w, inputs[0]);
      if next.status.Panicked? {
        StoppedStays(next, inputs[1..], last);
      } else {
        StepGivesNone(w, inputs[0]);
        RunGivesNone(next, inputs[1..], last);
      }
    }
  }

  // ---- What moves a stream ----

  /** The frame that closes the remote side of a stream. */
  predicate EndsRequest(input: Input, id: StreamId) {
    && input.Received? && (input.frame.InData? || input.frame.InHeaders?)
    && input.frame.id == id && input.frame.last
  }

  /** DATA with END_STREAM that is accepted closes the remote side, and only when all
      that was announced has come. */
  lemma EndOfDataIsSeen(w: World, id: StreamId, len: nat, receiverGone: bool)
    requires IdOk(w, id) && id in w.conn.streams && w.status.Running?
    ensures var next := ReceiveData(w, id, len, true, receiverGone);
            next.status.Running? ==> KindOf(next, id).RemoteClosedKind? || KindOf(next, id).ClosedKind?
    ensures var next, incoming := ReceiveData(w, id, len, true, receiverGone), IncomingOf(w, id);
            KindOf(next, id).RemoteClosedKind? && incoming.Some? && incoming.value.contentLength.Some? ==>
              incoming.value.totalReceived + len == incoming.value.contentLength.value
  {
  }

  /** DATA without it never does: the stream stays as it is or is reset. */
  lemma DataGoesOn(w: World, id: StreamId, len: nat, receiverGone: bool)
    requires IdOk(w, id) && id in w.conn.streams
    ensures var next := ReceiveData(w, id, len, false, receiverGone);
            KindOf(next, id) == KindOf(w, id) || KindOf(next, id).ClosedKind?
  {
  }

  lemma FrameCauses(w: World, f: InFrame, id: StreamId)
    requires IdOk(w, id) && w.status.Running? && KindOf(w, id).OpenKind?
    ensures var after := KindOf(ProcessFrame(w, f), id);
            && !after.LocalClosedKind?
            && (after.RemoteClosedKind? ==> EndsRequest(Received(f), id))
  {
    match f
    case InData(at, len, last, receiverGone) => DataCauses(w, at, len, last, receiverGone, id);
    case InHeaders(at, last, badPriority, verdict) => HeadersCause(w, at, last, badPriority, verdict, id);
    case InSettings(_, _, _, settings) => SettingsKeepStreams(w.conn, settings);
    case _ =>
  }

  lemma DataCauses(w: World, at: StreamId, len: nat, last: bool, receiverGone: bool, id: StreamId)
    requires KindOf(w, id).OpenKind?
    ensures var after := KindOf(ReceiveData(w, at, len, last, receiverGone), id);
            !after.LocalClosedKind? && (after.RemoteClosedKind? ==> at == id && last)
  {
  }

  lemma HeadersCause(w: World, at: StreamId, last: bool, badPriority: bool, verdict: Verdict, id: StreamId)
    requires IdOk(w, id) && KindOf(w, id).OpenKind?
    ensures var after := KindOf(ReceiveHeaders(w, at, last, badPriority, verdict), id);
            !after.LocalClosedKind? && (after.RemoteClosedKind? ==> at == id && last)
  {
    if at in w.conn.streams {
      var after := KindOf(ReceiveMoreHeaders(w, at, last, verdict), id);
      assert !after.LocalClosedKind? && (after.RemoteClosedKind? ==> at == id && last);
    } else {
      NewHeadersSpare(w, at, last, verdict, id);
    }
  }

  lemma NewHeadersSpare(w: World, at: StreamId, last: bool, verdict: Verdict, id: StreamId)
    requires at !in w.conn.streams && id in w.conn.streams
    ensures KindOf(ReceiveNewHeaders(w, at, last, verdict), id) == KindOf(w, id)
  {
    if at % 2 == 1 && at > w.conn.lastStreamId {
      if |w.conn.streams| + 1 > w.conn.maxStreams {
        assert KindOf(RefuseBlock(w, at, 7, verdict), id) == KindOf(w, id);
      } else {
        assert KindOf(ReceiveRequest(w, at, last, verdict), id) == KindOf(w, id);
      }
    }
  }

  /** An open stream becomes half closed (remote) only by a frame of its own with
      END_STREAM, and half closed (local) only by a scheduler run that put its END_STREAM
      on the wire. */
  lemma HalfClosingHasACause(w: World, input: Input, id: StreamId)
    requires IdOk(w, id) && w.status.Running? && Enabled(w, input) && KindOf(w, id).OpenKind?
    requires Step(w, input).status.Running?
    ensures var next := Step(w, input);
            && (KindOf(next, id).RemoteClosedKind? ==> EndsRequest(input, id))
            && (KindOf(next, id).LocalClosedKind? ==>
                  input.Scheduled? && w.wire <= next.wire && HasEnd(Own(next.wire[|w.wire|..], id)))
  {
    match input
    case Received(frame) => FrameCauses(w, frame, id);
    case Event(at, payload) => EventMoves(w, at, payload, id);
    case Scheduled(order) => ScheduleCauses(w, order, id);
  }

  lemma ScheduleCauses(w: World, order: seq<StreamId>, id: StreamId)
    requires IdOk(w, id) && w.status.Running? && Enumerates(order, w.conn.pending) && KindOf(w, id).OpenKind?
    requires SendDataMaybe(w, order).status.Running?
    ensures var next := SendDataMaybe(w, order);
            && !KindOf(next, id).RemoteClosedKind?
            && (KindOf(next, id).LocalClosedKind? ==> w.wire <= next.wire && HasEnd(Own(next.wire[|w.wire|..], id)))
  {
    SchedulerEffect(w, order, id);
    ScheduleKeepsIncoming(w, order, id);
    var next, frames := SendDataMaybe(w, order), QueuePending(w, order).frames;
    assert next.wire[|w.wire|..] == frames;
    if Ready(w, id) {
      TurnShape(id, SideOf(w, id).o, w.conn.outgoingCapacity, w.conn.maxFrameSize);
    }
  }
}
