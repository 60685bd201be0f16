/** The server context, updated in place, against the transition system. */
module H2Server {
  import opened Common
  import opened Frames
  import opened H2State
  import opened H2Machine
  import opened H2Turn
  import opened H2Scheduler
  import Safety = H2Safety

  class Server {
    var streams: map<StreamId, StreamState>
    var lastStreamId: StreamId
    const maxStreams: nat
    var initialWindow: nat
    var maxFrameSize: FrameSize
    var notify: bool
    var pending: set<StreamId>
    var outgoingCapacity: int

    /** Everything that was written to the transport. */
    var wire: seq<Packet>

    /** How the process loop ended, if it did. */
    var status: Status

    ghost var logs: map<StreamId, Log>
    ghost var connIncrements: nat
    ghost var encoded: seq<StreamId>

    ghost function State(): Conn
      reads this
    {
      Conn(streams, lastStreamId, maxStreams, initialWindow, maxFrameSize, notify, pending, outgoingCapacity)
    }

    ghost function View(): World
      reads this
    {
      World(status, State(), wire, logs, connIncrements, encoded)
    }

    constructor (maxStreams: nat)
      ensures View() == NewWorld(maxStreams)
    {
      this.maxStreams := maxStreams;
      streams, lastStreamId, pending := map[], 0, {};
      initialWindow, maxFrameSize := DEFAULT_WINDOW, MIN_FRAME_SIZE;
      outgoingCapacity := initialWindow;
      notify, wire, status := false, [], Running;
      logs, connIncrements, encoded := map[], 0, [];
    }

    // ---- `write_frame` ----

    method WriteFrame(packet: Packet)
      requires status.Running?
      modifies this
      ensures View() == H2Machine.WriteFrame(old(View()), packet)
    {
      if packet.frame.ty.Data? {
        var id, n := packet.frame.streamId, |packet.payload|;
        if id !in streams {
          status := Panicked(DataForMissingStream);
          return;
        }
        if !streams[id].HasOutgoing() {
          status := Panicked(DataInWrongState);
          return;
        }
        var outgoing := streams[id].outgoing;
        if outgoing.capacity - n < 0 {
          status := Panicked(StreamCapacityNegative);
          return;
        }
        if outgoingCapacity - n < 0 {
          status := Panicked(ConnectionCapacityNegative);
          return;
        }
        streams := streams[id := streams[id].WithOutgoing(outgoing.(capacity := outgoing.capacity - n))];
        outgoingCapacity := outgoingCapacity - n;
        if packet.frame.ty.endStream {
          pending := pending - {id};
          if streams[id].Open? {
            streams := streams[id := HalfClosedLocal(streams[id].incoming)];
          } else {
            streams := streams - {id};
          }
        }
      }
      wire := wire + [packet];
    }

    // ---- `send_data_maybe` ----

    /** One pass of `'each_stream` for a stream that can be served. */
    method ServeStream(id: StreamId, frames: seq<Packet>, notPending: set<StreamId>)
      returns (frames': seq<Packet>, notPending': set<StreamId>)
      requires status.Running? && State().HasOutgoing(id)
      modifies this`streams
      ensures Queueing(View(), frames', notPending') == QueueTurn(Queueing(old(View()), frames, notPending), id)
    {
      frames', notPending' := frames, notPending;
      if streams[id].outgoing.headers.WaitingForHeaders? {
        notPending' := notPending + {id};
      } else {
        var turn, outgoing := TakeTurn(id, streams[id].outgoing, outgoingCapacity, maxFrameSize);
        frames' := frames + turn;
        streams := streams[id := streams[id].WithOutgoing(outgoing)];
      }
    }

    method QueueStreams(order: seq<StreamId>) returns (frames: seq<Packet>, notPending: set<StreamId>)
      requires status.Running?
      modifies this`streams, this`status
      ensures Queueing(View(), frames, notPending) ==
              if outgoingCapacity <= 0 then Queueing(old(View()), [], {})
              else QueueAll(Queueing(old(View()), [], {}), order)
    {
      frames, notPending := [], {};
      ghost var start := Queueing(View(), [], {});
      var i := 0;
      while i < |order| && outgoingCapacity > 0
        invariant i <= |order| && status.Running?
        invariant outgoingCapacity <= 0 ==> Queueing(View(), frames, notPending) == start
        invariant outgoingCapacity > 0 ==> QueueAll(Queueing(View(), frames, notPending), order[i..]) == QueueAll(start, order)
      {
        var id := order[i];
        assert order[i..][0] == id && order[i..][1..] == order[i + 1..];
        if id !in streams || !streams[id].HasOutgoing() {
          ghost var q := QueueTurn(Queueing(View(), frames, notPending), id);
          status := Panicked(PendingStreamGone);
          QueueAllKeepsPanic(q, order[i + 1..]);
          return;
        }
        frames, notPending := ServeStream(id, frames, notPending);
        i := i + 1;
      }
    }

    /** `send_data_maybe`, for the pending streams in the order of the snapshot. */
    method SendDataMaybe(order: seq<StreamId>)
      requires status.Running?
      modifies this
      ensures View() == H2Machine.SendDataMaybe(old(View()), order)
    {
      notify := false;
      var frames, notPending := QueueStreams(order);
      ghost var q := Queueing(View(), frames, notPending);
      if !status.Running? {
        WriteAllKeepsPanic(q.world, frames);
        return;
      }
      var i := 0;
      while i < |frames|
        invariant i <= |frames| && status.Running?
        invariant WriteAll(View(), frames[i..]) == WriteAll(q.world, frames)
      {
        assert frames[i..][0] == frames[i] && frames[i..][1..] == frames[i + 1..];
        WriteFrame(frames[i]);
        if !status.Running? {
          WriteAllKeepsPanic(View(), frames[i + 1..]);
          return;
        }
        i := i + 1;
      }
      pending := pending - notPending;
    }

    // ---- `handle_event` ----

    /** `streams_with_pending_data.insert`, and a wake-up if it is worth one. */
    method MarkPending(id: StreamId, outgoing: Outgoing)
      requires State().HasOutgoing(id)
      modifies this`streams, this`pending, this`notify
      ensures State() == H2Machine.MarkPending(old(State()), id, outgoing)
    {
      streams := streams[id := streams[id].WithOutgoing(outgoing)];
      pending := pending + {id};
      if outgoingCapacity > 0 && outgoing.capacity > 0 {
        notify := true;
      }
    }

    method HandleEvent(id: StreamId, payload: EventPayload)
      requires status.Running? && id in logs
      modifies this
      ensures View() == H2Machine.HandleEvent(old(View()), id, payload)
    {
      logs := logs[id := logs[id].(phase := NextPhase(payload))];
      if id !in streams || !streams[id].HasOutgoing() {
        return;
      }
      match payload
      case HeadersEvent(block) => HandleHeaders(id, block);
      case BodyChunk(piece) => HandleChunk(id, piece);
      case BodyEnd => HandleEnd(id);
    }

    method HandleHeaders(id: StreamId, block: Bytes)
      requires status.Running? && id in logs && State().HasOutgoing(id)
      modifies this
      ensures View() == H2Machine.HandleHeaders(old(View()), id, block)
    {
      var outgoing := streams[id].outgoing;
      if !outgoing.body.StillReceiving? {
        status := Panicked(HeadersTooLate);
      } else {
        MarkPending(id, outgoing.(headers := WroteNone(block)));
        logs := logs[id := logs[id].(block := Some(block))];
        encoded := encoded + [id];
      }
    }

    method HandleChunk(id: StreamId, piece: Bytes)
      requires status.Running? && id in logs && State().HasOutgoing(id)
      modifies this
      ensures View() == H2Machine.HandleChunk(old(View()), id, piece)
    {
      var outgoing := streams[id].outgoing;
      if outgoing.body.DoneSending? {
        status := Panicked(PieceAfterDoneSending);
      } else {
        MarkPending(id, outgoing.(body := outgoing.body.PushBack(piece)));
        logs := logs[id := logs[id].(body := logs[id].body + piece)];
      }
    }

    method HandleEnd(id: StreamId)
      requires status.Running? && id in logs && State().HasOutgoing(id)
      modifies this
      ensures View() == H2Machine.HandleEnd(old(View()), id)
    {
      var outgoing := streams[id].outgoing;
      match outgoing.body
      case DoneReceiving(_) => status := Panicked(BodyEndTwice);
      case DoneSending => status := Panicked(BodyEndAfterSending);
      case StillReceiving(pieces) =>
        if pieces == [] {
          notify := true;
        }
        streams := streams[id := streams[id].WithOutgoing(outgoing.(body := DoneReceiving(pieces)))];
        logs := logs[id := logs[id].(ended := true)];
    }

    // ---- `rst`, WINDOW_UPDATE and SETTINGS ----

    method Rst(id: StreamId, code: nat)
      requires status.Running?
      modifies this
      ensures View() == H2Machine.Rst(old(View()), id, code)
    {
      streams := streams - {id};
      var packet := Packet(Frame(RstStream, false, id, 4), BigEndian(code, 4));
      ghost var all := seq(RST_REPEATS, i => packet);
      ghost var start := View();
      var i := 0;
      while i < RST_REPEATS
        invariant i <= RST_REPEATS && View() == start.Wrote(all[..i])
      {
        assert all[..i + 1] == all[..i] + [packet];
        WriteFrame(packet);
        i := i + 1;
      }
      assert all[..RST_REPEATS] == all;
    }

    method ReceiveWindowUpdate(id: StreamId, len: nat, increment: nat)
      requires status.Running?
      modifies this
      ensures View() == H2Machine.ReceiveWindowUpdate(old(View()), id, len, increment)
    {
      if len != 4 {
        status := Closed(WindowUpdateInvalidLength, lastStreamId);
      } else if increment == 0 {
        status := Closed(WindowUpdateZeroIncrement, lastStreamId);
      } else if id == 0 {
        var capacity := outgoingCapacity + increment;
        if capacity > MAX_WINDOW_SIZE {
          status := Closed(WindowUpdateOverflow, lastStreamId);
        } else {
          outgoingCapacity, notify := capacity, true;
          connIncrements := connIncrements + increment;
        }
      } else if id !in streams || !streams[id].HasOutgoing() {
        status := Closed(WindowUpdateForUnknownOrClosedStream, lastStreamId);
      } else {
        WidenStream(id, increment);
      }
    }

    method WidenStream(id: StreamId, increment: nat)
      requires status.Running? && State().HasOutgoing(id)
      modifies this
      ensures View() == H2Machine.WidenStream(old(View()), id, increment)
    {
      var outgoing := streams[id].outgoing;
      var capacity := outgoing.capacity + increment;
      if capacity > MAX_WINDOW_SIZE {
        Rst(id, 3);
      } else {
        streams := streams[id := streams[id].WithOutgoing(outgoing.(capacity := capacity))];
        if outgoing.capacity <= 0 && capacity > 0 {
          pending := pending + {id};
          if outgoingCapacity > 0 {
            notify := true;
          }
        }
        if id in logs {
          logs := logs[id := logs[id].(increments := logs[id].increments + increment)];
        }
      }
    }

    /** `Settings::parse` with `Settings::apply`: settings take effect one by one, until
        one is refused. */
    method ApplySettings(settings: seq<SettingValue>) returns (ok: bool)
      modifies this`initialWindow, this`maxFrameSize
      ensures ok == H2Machine.ApplySettings(old(State()), settings).Some? && State() == Attempted(old(State()), settings)
    {
      ghost var start := State();
      var i := 0;
      while i < |settings|
        invariant i <= |settings|
        invariant H2Machine.ApplySettings(State(), settings[i..]) == H2Machine.ApplySettings(start, settings)
        invariant Attempted(State(), settings[i..]) == Attempted(start, settings)
      {
        var s := settings[i];
        assert settings[i..][0] == s && settings[i..][1..] == settings[i + 1..];
        if s.code == 2 && s.value > 1 {
          return false;
        } else if s.code == 4 {
          if s.value > MAX_INITIAL_WINDOW {
            return false;
          }
          initialWindow := s.value;
        } else if s.code == 5 {
          if s.value < MIN_FRAME_SIZE || s.value > MAX_FRAME_SIZE {
            return false;
          }
          maxFrameSize := s.value;
        }
        i := i + 1;
      }
      return true;
    }

    /** Moves every stream window, in whatever order the map yields them; stops at the
        first that grows too large. */
    method ShiftStreams(delta: int) returns (overflow: bool, widened: bool)
      modifies this`streams
      ensures overflow == SomeOverflows(old(streams), delta) && PartlyShifted(old(streams), streams, delta)
      ensures !overflow ==> streams == ShiftAll(old(streams), delta) && widened == SomeOpens(old(streams), delta)
    {
      ghost var before := streams;
      var todo := streams.Keys;
      overflow, widened := false, false;
      while todo != {}
        invariant todo <= before.Keys && !overflow && Partway(before, streams, todo, delta)
        invariant widened == SomeOpens(before - todo, delta)
        decreases |todo|
      {
        var id :| id in todo;
        var opens;
        OneMore(before, streams, todo, id, delta);
        overflow, opens := ShiftOne(id, delta);
        if overflow {
          return;
        }
        widened := widened || opens;
        todo := todo - {id};
      }
      AllMoved(before, streams, delta);
    }

    method ShiftOne(id: StreamId, delta: int) returns (overflow: bool, opens: bool)
      requires id in streams
      modifies this`streams
      ensures overflow <==> old(streams)[id].HasOutgoing() && old(streams)[id].outgoing.capacity + delta > MAX_WINDOW_SIZE
      ensures opens <==> !overflow && old(streams)[id].HasOutgoing()
                         && old(streams)[id].outgoing.capacity <= 0 < old(streams)[id].outgoing.capacity + delta
      ensures streams == if overflow then old(streams) else old(streams)[id := ShiftOutgoing(old(streams)[id], delta)]
    {
      overflow, opens := false, false;
      if streams[id].HasOutgoing() {
        var outgoing := streams[id].outgoing;
        var capacity := outgoing.capacity + delta;
        if capacity > MAX_WINDOW_SIZE {
          return true, false;
        }
        opens := capacity > 0 && outgoing.capacity <= 0;
        streams := streams[id := streams[id].WithOutgoing(outgoing.(capacity := capacity))];
      }
    }

    /** The SETTINGS arm, with what has changed already when it fails. */
    method ReceiveSettings(id: StreamId, len: nat, ack: bool, settings: seq<SettingValue>)
      requires status.Running?
      modifies this
      ensures SettingsEffect(old(View()), View(), id, len, ack, settings)
    {
      if id != 0 {
        status := Closed(SettingsWithNonZeroStreamId, lastStreamId);
      } else if len % 6 != 0 {
        status := Closed(SettingsInvalidLength, lastStreamId);
      } else if ack {
        if len != 0 {
          status := Closed(SettingsInvalidLength, lastStreamId);
        }
      } else {
        TakeSettings(len, settings);
      }
    }

    method TakeSettings(ghost len: nat, settings: seq<SettingValue>)
      requires status.Running? && len % 6 == 0
      modifies this
      ensures SettingsEffect(old(View()), View(), 0, len, false, settings)
    {
      AttemptSucceeds(State(), settings);
      var original := initialWindow;
      var ok := ApplySettings(settings);
      if !ok {
        status := Closed(BadSettingValue, lastStreamId);
      } else {
        ShiftAndAcknowledge(original);
        TakenSettings(old(View()), View(), len, settings);
      }
    }

    /** The rest of the SETTINGS arm, once the settings hold. */
    method ShiftAndAcknowledge(original: nat)
      requires status.Running?
      modifies this
      ensures var before := old(View()).(conn := old(State()).(initialWindow := original));
              var delta := old(initialWindow) - original;
              if delta != 0 && SomeOverflows(old(streams), delta) then
                && View() == old(View()).Fail(StreamWindowSizeOverflowDueToSettings).(conn := old(State()).(streams := streams))
                && PartlyShifted(old(streams), streams, delta)
              else View() == ShiftWindows(before, old(State()))
    {
      var delta, widened := initialWindow - original, false;
      if delta != 0 {
        var overflow;
        overflow, widened := ShiftStreams(delta);
        if overflow {
          status := Closed(StreamWindowSizeOverflowDueToSettings, lastStreamId);
          return;
        }
      } else {
        NoShift(streams);
      }
      WriteFrame(SettingsAck());
      if widened {
        notify := true;
      }
      assert State() == ShiftWindows(old(View()).(conn := old(State()).(initialWindow := original)), old(State())).conn;
    }

    // ---- The other frames from the peer ----

    method Fail(error: ConnectionError)
      modifies this`status
      ensures View() == old(View()).Fail(error)
    {
      status := Closed(error, lastStreamId);
    }

    method ReceiveChunk(id: StreamId, incoming: Incoming, len: nat, last: bool, receiverGone: bool)
      requires status.Running? && id in streams && (streams[id].Open? || streams[id].HalfClosedLocal?)
      modifies this
      ensures View() == H2Machine.ReceiveChunk(old(View()), id, incoming, len, last, receiverGone)
    {
      var capacity, total := incoming.capacity - len, incoming.totalReceived + len;
      if capacity < 0 {
        Fail(WindowUnderflow);
      } else if !LengthAsAnnounced(incoming, len, last) {
        Rst(id, 1);
      } else if receiverGone {
        Rst(id, 8);
      } else if streams[id].Open? {
        var outgoing := streams[id].outgoing;
        streams := streams[id := if last then HalfClosedRemote(outgoing)
                                 else Open(Incoming(capacity, total, incoming.contentLength), outgoing)];
      } else if last {
        streams := streams - {id};
      } else {
        streams := streams[id := HalfClosedLocal(Incoming(capacity, total, incoming.contentLength))];
      }
    }

    method ReceiveData(id: StreamId, len: nat, last: bool, receiverGone: bool)
      requires status.Running?
      modifies this
      ensures View() == H2Machine.ReceiveData(old(View()), id, len, last, receiverGone)
    {
      if id == 0 {
        Fail(StreamSpecificFrameToConnection);
      } else if id !in streams {
        Fail(StreamClosed);
      } else {
        match streams[id]
        case Open(incoming, _) => ReceiveChunk(id, incoming, len, last, receiverGone);
        case HalfClosedLocal(incoming) => ReceiveChunk(id, incoming, len, last, receiverGone);
        case HalfClosedRemote(_) => Rst(id, 5);
        case Transition => status := Panicked(TransitionSeen);
      }
    }

    method OpenStream(id: StreamId, ss: StreamState)
      modifies this
      ensures View() == H2Machine.OpenStream(old(View()), id, ss)
    {
      streams, lastStreamId := streams[id := ss], id;
      logs := logs[id := Log(ExpectResponseHeaders, None, [], false, 0)];
    }

    method ReceiveRequest(id: StreamId, last: bool, verdict: Verdict)
      requires status.Running?
      modifies this
      ensures View() == H2Machine.ReceiveRequest(old(View()), id, last, verdict)
    {
      var outgoing := Outgoing(WaitingForHeaders, StillReceiving([]), initialWindow);
      match verdict
      case BlockAccepted(contentLength) =>
        OpenStream(id, if last then HalfClosedRemote(outgoing) else Open(Incoming(DEFAULT_WINDOW, 0, contentLength), outgoing));
      case BadRequest => OpenStream(id, HalfClosedRemote(outgoing));
      case BadStream =>
        lastStreamId := id;
        Rst(id, 1);
      case BadConnection =>
        lastStreamId := id;
        Fail(HeaderBlockError);
    }

    method RefuseBlock(id: StreamId, code: nat, verdict: Verdict)
      requires status.Running?
      modifies this
      ensures View() == H2Machine.RefuseBlock(old(View()), id, code, verdict)
    {
      Rst(id, code);
      if verdict.BadConnection? {
        Fail(HeaderBlockError);
      }
    }

    method ReceiveTrailers(id: StreamId, verdict: Verdict)
      requires status.Running? && id in streams
      modifies this
      ensures View() == H2Machine.ReceiveTrailers(old(View()), id, verdict)
    {
      if verdict.BadConnection? {
        Fail(HeaderBlockError);
      } else if !verdict.BlockAccepted? {
        Rst(id, 1);
      } else if !streams[id].Open? {
        status := Panicked(TrailersInWrongState);
      } else {
        var incoming := streams[id].incoming;
        if incoming.contentLength.Some? && incoming.totalReceived != incoming.contentLength.value {
          Rst(id, 1);
        } else {
          streams := streams[id := HalfClosedRemote(streams[id].outgoing)];
        }
      }
    }

    method ReceiveHeaders(id: StreamId, last: bool, badPriority: bool, verdict: Verdict)
      requires status.Running?
      modifies this
      ensures View() == H2Machine.ReceiveHeaders(old(View()), id, last, badPriority, verdict)
    {
      if badPriority {
        Fail(HeadersInvalidPriority);
      } else if id !in streams {
        ReceiveNewHeaders(id, last, verdict);
      } else if streams[id].HalfClosedRemote? {
        Fail(StreamClosed);
      } else if streams[id].Transition? {
        status := Panicked(TransitionSeen);
      } else if last {
        ReceiveTrailers(id, verdict);
      } else {
        RefuseBlock(id, 1, verdict);
      }
    }

    method ReceiveNewHeaders(id: StreamId, last: bool, verdict: Verdict)
      requires status.Running?
      modifies this
      ensures View() == H2Machine.ReceiveNewHeaders(old(View()), id, last, verdict)
    {
      if id % 2 == 0 {
        Fail(ClientSidShouldBeOdd);
      } else if id < lastStreamId {
        Fail(ClientSidShouldBeNumericallyIncreasing);
      } else if id == lastStreamId {
        Fail(StreamClosed);
      } else if |streams| + 1 > maxStreams {
        RefuseBlock(id, 7, verdict);
      } else {
        ReceiveRequest(id, last, verdict);
      }
    }

    method ReceiveRst(id: StreamId, len: nat)
      requires status.Running?
      modifies this
      ensures View() == H2Machine.ReceiveRst(old(View()), id, len)
    {
      if len != 4 {
        Rst(id, 6);
      } else if id !in streams {
        Fail(RstStreamForUnknownStream);
      } else if streams[id].Transition? {
        status := Panicked(TransitionSeen);
      } else {
        streams := streams - {id};
      }
    }

    method ReceivePing(id: StreamId, ack: bool, payload: Bytes)
      requires status.Running?
      modifies this
      ensures View() == H2Machine.ProcessFrame(old(View()), InPing(id, ack, payload))
    {
      if id != 0 {
        Fail(PingFrameWithNonZeroStreamId);
      } else if |payload| != 8 {
        Fail(PingFrameInvalidLength);
      } else if !ack {
        WriteFrame(Packet(Frame(Ping(true), false, 0, 8), payload));
      }
    }

    /** `process_frame`. */
    method ProcessFrame(f: InFrame)
      requires status.Running?
      modifies this
      ensures if f.InSettings? then SettingsEffect(old(View()), View(), f.id, f.len, f.ack, f.settings)
              else View() == H2Machine.ProcessFrame(old(View()), f)
    {
      match f
      case InData(id, len, last, receiverGone) => ReceiveData(id, len, last, receiverGone);
      case InHeaders(id, last, badPriority, verdict) => ReceiveHeaders(id, last, badPriority, verdict);
      case InPriority(id, wellFormed, dependsOnItself) =>
        if !wellFormed {
          Rst(id, 6);
        } else if dependsOnItself {
          Fail(HeadersInvalidPriority);
        }
      case InRstStream(id, len) => ReceiveRst(id, len);
      case InSettings(id, len, ack, settings) => ReceiveSettings(id, len, ack, settings);
      case InPushPromise => Fail(ClientSentPushPromise);
      case InPing(id, ack, payload) => ReceivePing(id, ack, payload);
      case InGoAway(id) =>
        if id != 0 {
          Fail(GoAwayWithNonZeroStreamId);
        }
      case InWindowUpdate(id, len, increment) => ReceiveWindowUpdate(id, len, increment);
      case InContinuation => Fail(UnexpectedContinuationFrame);
      case InUnknown =>
    }

    /** One iteration of `process_loop`: everything the proofs about runs say holds of
        the server itself. */
    method ProcessStep(input: Input)
      requires status.Running? && Safety.Good(View()) && Enabled(View(), input)
      modifies this
      ensures status == Step(old(View()), input).status
      ensures status.Running? || !(input.Received? && input.frame.InSettings?) ==> View() == Step(old(View()), input)
      ensures status.Running? ==> Safety.Good(View())
      ensures status.Panicked? ==> Safety.KnownPanic(status)
    {
      Safety.StepKeepsGood(View(), input);
      match input
      case Received(frame) => ProcessFrame(frame);
      case Event(id, payload) => HandleEvent(id, payload);
      case Scheduled(order) => SendDataMaybe(order);
    }
  }

  // ---- SETTINGS that fail half way ----

  /** The settings up to the first that is refused. */
  ghost function Attempted(conn: Conn, settings: seq<SettingValue>): Conn
    decreases |settings|
  {
    if settings == [] then conn
    else match ApplySetting(conn, settings[0])
      case None => conn
      case Some(next) => Attempted(next, settings[1..])
  }

  lemma {:induction false} AttemptSucceeds(conn: Conn, settings: seq<SettingValue>)
    ensures Attempted(conn, settings) == conn.(initialWindow := Attempted(conn, settings).initialWindow,
                                               maxFrameSize := Attempted(conn, settings).maxFrameSize)
    ensures var r := H2Machine.ApplySettings(conn, settings); r.Some? ==> r.value == Attempted(conn, settings)
    decreases |settings|
  {
    if settings != [] && ApplySetting(conn, settings[0]).Some? {
      AttemptSucceeds(ApplySetting(conn, settings[0]).value, settings[1..]);
    }
  }

  /** Some windows have moved, none of them too far. */
  ghost predicate PartlyShifted(before: map<StreamId, StreamState>, after: map<StreamId, StreamState>, delta: int) {
    && after.Keys == before.Keys
    && forall id :: id in before ==>
         || after[id] == before[id]
         || (after[id] == ShiftOutgoing(before[id], delta) && after[id].outgoing.capacity <= MAX_WINDOW_SIZE)
  }

  /** All but these have moved. */
  ghost predicate Partway(before: map<StreamId, StreamState>, after: map<StreamId, StreamState>,
                          todo: set<StreamId>, delta: int)
  {
    && after.Keys == before.Keys
    && forall id :: id in before ==>
         if id in todo then after[id] == before[id]
         else
           && after[id] == ShiftOutgoing(before[id], delta)
           && (after[id].HasOutgoing() ==> after[id].outgoing.capacity <= MAX_WINDOW_SIZE)
  }

  lemma OneMore(before: map<StreamId, StreamState>, after: map<StreamId, StreamState>, todo: set<StreamId>,
                id: StreamId, delta: int)
    requires Partway(before, after, todo, delta) && id in todo && id in before
    ensures after[id] == before[id] && PartlyShifted(before, after, delta)
    ensures var o, moved := before[id], after[id := ShiftOutgoing(before[id], delta)];
            && (o.HasOutgoing() && o.outgoing.capacity + delta > MAX_WINDOW_SIZE ==> SomeOverflows(before, delta))
            && (!(o.HasOutgoing() && o.outgoing.capacity + delta > MAX_WINDOW_SIZE) ==>
                  Partway(before, moved, todo - {id}, delta))
            && (SomeOpens(before - (todo - {id}), delta) <==>
                  (|| SomeOpens(before - todo, delta)
                   || (o.HasOutgoing() && o.outgoing.capacity <= 0 < o.outgoing.capacity + delta)))
  {
    var fewer, now := before - todo, before - (todo - {id});
    assert forall k :: k in now <==> k in fewer || k == id;
    assert forall k :: k in fewer ==> now[k] == fewer[k];
    assert now[id] == before[id];
  }

  lemma AllMoved(before: map<StreamId, StreamState>, after: map<StreamId, StreamState>, delta: int)
    requires Partway(before, after, {}, delta)
    ensures after == ShiftAll(before, delta) && !SomeOverflows(before, delta) && PartlyShifted(before, after, delta)
    ensures before - {} == before
  {
    forall id | id in before && before[id].HasOutgoing()
      ensures before[id].outgoing.capacity + delta <= MAX_WINDOW_SIZE
    {
      assert after[id].HasOutgoing();
    }
  }

  /** The transition system's answer, and its state, except that a SETTINGS frame that is
      refused has changed settings before the refused one, or all of them and some windows. */
  ghost predicate SettingsEffect(w: World, next: World, id: StreamId, len: nat, ack: bool, settings: seq<SettingValue>) {
    var spec, tried := H2Machine.ReceiveSettings(w, id, len, ack, settings), Attempted(w.conn, settings);
    match spec.status
    case Closed(BadSettingValue, _) => next == spec.(conn := tried)
    case Closed(StreamWindowSizeOverflowDueToSettings, _) =>
      && next == spec.(conn := tried.(streams := next.conn.streams))
      && PartlyShifted(w.conn.streams, next.conn.streams, tried.initialWindow - w.conn.initialWindow)
    case _ => next == spec
  }

  lemma TakenSettings(w: World, next: World, len: nat, settings: seq<SettingValue>)
    requires w.status.Running? && len % 6 == 0 && H2Machine.ApplySettings(w.conn, settings).Some?
    requires var tried := Attempted(w.conn, settings);
             var delta := tried.initialWindow - w.conn.initialWindow;
             if delta != 0 && SomeOverflows(w.conn.streams, delta) then
               && next == w.(conn := tried).Fail(StreamWindowSizeOverflowDueToSettings).(
                    conn := tried.(streams := next.conn.streams))
               && PartlyShifted(w.conn.streams, next.conn.streams, delta)
             else next == ShiftWindows(w.(conn := tried.(initialWindow := w.conn.initialWindow)), tried)
    ensures SettingsEffect(w, next, 0, len, false, settings)
  {
    AttemptSucceeds(w.conn, settings);
    var tried := Attempted(w.conn, settings);
    assert ShiftWindows(w, tried) == ShiftWindows(w.(conn := tried.(initialWindow := w.conn.initialWindow)), tried);
  }

  lemma NoShift(streams: map<StreamId, StreamState>)
    ensures ShiftAll(streams, 0) == streams && !SomeOpens(streams, 0)
  {
    forall id | id in streams
      ensures ShiftOutgoing(streams[id], 0) == streams[id]
    {
    }
  }
}
