/** Stream states over runs (section 5.1 of RFC 9113). */
module H2Lifecycle {
  import opened Frames
  import opened H2State
  import opened H2Machine

  /** The state of a stream id: idle before it is opened, closed once it has left
      the map. */
  datatype Kind = IdleKind | OpenKind | RemoteClosedKind | LocalClosedKind | ClosedKind | TransitionKind

  function KindOf(w: World, id: StreamId): Kind {
    if id !in w.conn.streams then if id in w.logs then ClosedKind else IdleKind
    else match w.conn.streams[id]
      case Open(_, _) => OpenKind
      case HalfClosedRemote(_) => RemoteClosedKind
      case HalfClosedLocal(_) => LocalClosedKind
      case Transition => TransitionKind
  }

  /** What one step may do to a stream (section 5.1 of RFC 9113): HEADERS opens it,
      with END_STREAM at once half closed; END_STREAM half closes it or, the second
      time, closes it; a reset closes it. A closed stream stays closed. */
  predicate StepLeads(a: Kind, b: Kind) {
    match a
    case IdleKind => b == IdleKind || b == OpenKind || b == RemoteClosedKind
    case OpenKind => b != IdleKind && b != TransitionKind
    case RemoteClosedKind => b == RemoteClosedKind || b == ClosedKind
    case LocalClosedKind => b == LocalClosedKind || b == ClosedKind
    case ClosedKind => b == ClosedKind
    case TransitionKind => false
  }

  /** What sending alone may do: END_STREAM half closes an open stream and closes one
      whose remote side is closed. */
  predicate SendLeads(a: Kind, b: Kind) {
    b == a || (a == OpenKind && b == LocalClosedKind) || (a == RemoteClosedKind && b == ClosedKind)
  }

  /** What any number of steps may do: every stream that was idle may be anything but
      in transition, a half-closed one does not reopen, and a closed one stays so. */
  predicate Leads(a: Kind, b: Kind) {
    match a
    case IdleKind => !b.TransitionKind?
    case OpenKind => b != IdleKind && b != TransitionKind
    case RemoteClosedKind => b == RemoteClosedKind || b == ClosedKind
    case LocalClosedKind => b == LocalClosedKind || b == ClosedKind
    case ClosedKind => b == ClosedKind
    case TransitionKind => false
  }

  /** `Leads` is the closure of `StepLeads`: it holds exactly of two kinds that one or
      two steps connect, and a further step adds nothing. */
  lemma LeadsIsClosure(a: Kind, b: Kind, c: Kind)
    ensures Leads(a, b) <==> exists middle :: StepLeads(a, middle) && StepLeads(middle, b)
    ensures StepLeads(a, b) && Leads(b, c) ==> Leads(a, c)
  {
    if Leads(a, b) {
      if StepLeads(a, b) {
        assert StepLeads(a, a) || StepLeads(b, b);
      } else {
        assert StepLeads(a, OpenKind) && StepLeads(OpenKind, b);
      }
    }
  }

  /** What holds of every id: streams ever opened have odd ids up to the last one,
      which a GOAWAY covers; only those are live or pending; none is in transition. */
  predicate IdOk(w: World, id: StreamId) {
    && (id in w.logs ==> id % 2 == 1 && id <= w.conn.lastStreamId)
    && (id in w.conn.streams ==> id in w.logs && !w.conn.streams[id].Transition?)
    && (id in w.conn.pending ==> id in w.logs)
    && (w.status.Closed? && id in w.logs ==> id <= w.status.goAway)
  }

  predicate Moves(w: World, next: World, id: StreamId) {
    StepLeads(KindOf(w, id), KindOf(next, id)) && (id in w.logs ==> id in next.logs)
  }

  predicate SendMoves(w: World, next: World, id: StreamId) {
    SendLeads(KindOf(w, id), KindOf(next, id)) && next.logs == w.logs
  }

  /** What any number of steps may do to a stream. */
  predicate Went(w: World, next: World, id: StreamId) {
    Leads(KindOf(w, id), KindOf(next, id)) && (id in w.logs ==> id in next.logs)
  }

  /** Live streams are counted, and the last id never falls. */
  predicate SizeOk(w: World) {
    |w.conn.streams| <= w.conn.maxStreams
  }

  predicate Advances(w: World, next: World) {
    w.conn.lastStreamId <= next.conn.lastStreamId && w.conn.maxStreams == next.conn.maxStreams
  }

  // ---- Every id, one step ----

  /** Settings change no stream by themselves. */
  lemma {:induction false} SettingsKeepStreams(conn: Conn, settings: seq<SettingValue>)
    ensures var r := ApplySettings(conn, settings);
            r.Some? ==> r.value == conn.(initialWindow := r.value.initialWindow, maxFrameSize := r.value.maxFrameSize)
    decreases |settings|
  {
    if settings != [] && ApplySetting(conn, settings[0]).Some? {
      SettingsKeepStreams(ApplySetting(conn, settings[0]).value, settings[1..]);
    }
  }

  lemma RstMoves(w: World, at: StreamId, code: nat, id: StreamId)
    requires IdOk(w, id)
    ensures IdOk(Rst(w, at, code), id) && Moves(w, Rst(w, at, code), id)
  {
  }

  lemma FailMoves(w: World, error: ConnectionError, id: StreamId)
    requires IdOk(w, id)
    ensures IdOk(w.Fail(error), id) && Moves(w, w.Fail(error), id)
  {
  }

  lemma DataMoves(w: World, at: StreamId, len: nat, last: bool, receiverGone: bool, id: StreamId)
    requires IdOk(w, id)
    ensures var next := ReceiveData(w, at, len, last, receiverGone); IdOk(next, id) && Moves(w, next, id)
  {
  }

  lemma RequestMoves(w: World, at: StreamId, last: bool, verdict: Verdict, id: StreamId)
    requires IdOk(w, id) && w.status.Running? && at % 2 == 1 && at > w.conn.lastStreamId
    ensures var next := ReceiveRequest(w, at, last, verdict); IdOk(next, id) && Moves(w, next, id)
  {
  }

  lemma RefusalMoves(w: World, at: StreamId, code: nat, verdict: Verdict, id: StreamId)
    requires IdOk(w, id)
    ensures var next := RefuseBlock(w, at, code, verdict); IdOk(next, id) && Moves(w, next, id)
  {
    RstMoves(w, at, code, id);
  }

  lemma NewHeadersMove(w: World, at: StreamId, last: bool, verdict: Verdict, id: StreamId)
    requires IdOk(w, id) && w.status.Running?
    ensures var next := ReceiveNewHeaders(w, at, last, verdict); IdOk(next, id) && Moves(w, next, id)
  {
    if at % 2 == 0 {
      FailMoves(w, ClientSidShouldBeOdd, id);
    } else if at < w.conn.lastStreamId {
      FailMoves(w, ClientSidShouldBeNumericallyIncreasing, id);
    } else if at == w.conn.lastStreamId {
      FailMoves(w, StreamClosed, id);
    } else if |w.conn.streams| + 1 > w.conn.maxStreams {
      RefusalMoves(w, at, 7, verdict, id);
    } else {
      RequestMoves(w, at, last, verdict, id);
    }
  }

  lemma TrailersMove(w: World, at: StreamId, verdict: Verdict, id: StreamId)
    requires IdOk(w, id) && at in w.conn.streams
    ensures var next := ReceiveTrailers(w, at, verdict); IdOk(next, id) && Moves(w, next, id)
  {
  }

  lemma MoreHeadersMove(w: World, at: StreamId, last: bool, verdict: Verdict, id: StreamId)
    requires IdOk(w, id) && at in w.conn.streams
    ensures var next := ReceiveMoreHeaders(w, at, last, verdict); IdOk(next, id) && Moves(w, next, id)
  {
    RefusalMoves(w, at, 1, verdict, id);
    TrailersMove(w, at, verdict, id);
  }

  lemma HeadersMove(w: World, at: StreamId, last: bool, badPriority: bool, verdict: Verdict, id: StreamId)
    requires IdOk(w, id) && w.status.Running?
    ensures var next := ReceiveHeaders(w, at, last, badPriority, verdict); IdOk(next, id) && Moves(w, next, id)
  {
    if at in w.conn.streams {
      MoreHeadersMove(w, at, last, verdict, id);
    } else {
      NewHeadersMove(w, at, last, verdict, id);
    }
  }

  lemma SettingsMove(w: World, at: StreamId, len: nat, ack: bool, settings: seq<SettingValue>, id: StreamId)
    requires IdOk(w, id)
    ensures var next := ReceiveSettings(w, at, len, ack, settings); IdOk(next, id) && Moves(w, next, id)
  {
    SettingsKeepStreams(w.conn, settings);
  }

  lemma WindowUpdateMoves(w: World, at: StreamId, len: nat, increment: nat, id: StreamId)
    requires IdOk(w, id)
    ensures var next := ReceiveWindowUpdate(w, at, len, increment); IdOk(next, id) && Moves(w, next, id)
  {
  }

  lemma FrameMoves(w: World, f: InFrame, id: StreamId)
    requires IdOk(w, id) && w.status.Running?
    ensures IdOk(ProcessFrame(w, f), id) && Moves(w, ProcessFrame(w, f), id)
  {
    match f
    case InData(at, len, last, receiverGone) => DataMoves(w, at, len, last, receiverGone, id);
    case InHeaders(at, last, badPriority, verdict) => HeadersMove(w, at, last, badPriority, verdict, id);
    case InSettings(at, len, ack, settings) => SettingsMove(w, at, len, ack, settings, id);
    case InWindowUpdate(at, len, increment) => WindowUpdateMoves(w, at, len, increment, id);
    case InPriority(at, _, _) => RstMoves(w, at, 6, id);
    case InRstStream(at, _) => RstMoves(w, at, 6, id);
    case _ =>
  }

  lemma EventMoves(w: World, at: StreamId, payload: EventPayload, id: StreamId)
    requires IdOk(w, id) && w.status.Running? && at in w.logs
    ensures IdOk(HandleEvent(w, at, payload), id) && Moves(w, HandleEvent(w, at, payload), id)
  {
  }

  lemma WriteMoves(w: World, packet: Packet, id: StreamId)
    requires IdOk(w, id)
    ensures IdOk(WriteFrame(w, packet), id) && SendMoves(w, WriteFrame(w, packet), id)
  {
  }

  lemma {:induction false} WriteAllMoves(w: World, packets: seq<Packet>, id: StreamId)
    requires IdOk(w, id)
    ensures IdOk(WriteAll(w, packets), id) && SendMoves(w, WriteAll(w, packets), id)
    decreases |packets|
  {
    if packets != [] {
      WriteMoves(w, packets[0], id);
      WriteAllMoves(WriteFrame(w, packets[0]), packets[1..], id);
    }
  }

  lemma {:induction false} QueueMoves(q: Queueing, order: seq<StreamId>, id: StreamId)
    requires IdOk(q.world, id)
    ensures IdOk(QueueAll(q, order).world, id) && SendMoves(q.world, QueueAll(q, order).world, id)
    decreases |order|
  {
    if order != [] {
      QueueMoves(QueueTurn(q, order[0]), order[1..], id);
    }
  }

  lemma ScheduleMoves(w: World, order: seq<StreamId>, id: StreamId)
    requires IdOk(w, id)
    ensures IdOk(SendDataMaybe(w, order), id) && SendMoves(w, SendDataMaybe(w, order), id)
  {
    var q := QueuePending(w, order);
    if w.conn.outgoingCapacity > 0 {
      QueueMoves(Queueing(w.(conn := w.conn.(notify := false)), [], {}), order, id);
    }
    WriteAllMoves(q.world, q.frames, id);
  }

  lemma StepMoves(w: World, input: Input, id: StreamId)
    requires IdOk(w, id) && Enabled(w, input)
    ensures IdOk(Step(w, input), id) && Moves(w, Step(w, input), id)
  {
    if w.status.Running? {
      match input
      case Received(frame) => FrameMoves(w, frame, id);
      case Event(at, payload) => EventMoves(w, at, payload, id);
      case Scheduled(order) => ScheduleMoves(w, order, id);
    }
  }

  // ---- How many streams ----

  /** Some keys were dropped. */
  lemma FewerKeys(before: map<StreamId, StreamState>, after: map<StreamId, StreamState>)
    requires after.Keys <= before.Keys
    ensures |after| <= |before|
  {
    assert |after| == |after.Keys| && |before| == |before.Keys|;
    FewerMembers(after.Keys, before.Keys);
  }

  lemma {:induction false} FewerMembers(a: set<StreamId>, b: set<StreamId>)
    requires a <= b
    ensures |a| <= |b|
  {
    if a != {} {
      var x :| x in a;
      FewerMembers(a - {x}, b - {x});
    }
  }

  lemma OneMoreKey(before: map<StreamId, StreamState>, id: StreamId, ss: StreamState)
    ensures |before[id := ss]| <= |before| + 1
  {
    var after := before[id := ss];
    assert |after| == |after.Keys| && |before| == |before.Keys|;
    assert after.Keys == before.Keys + {id};
  }

  lemma RefusalAddsNone(w: World, at: StreamId, code: nat, verdict: Verdict)
    ensures NoNewStream(w, RefuseBlock(w, at, code, verdict))
  {
  }

  lemma RequestCounts(w: World, at: StreamId, last: bool, verdict: Verdict)
    requires |w.conn.streams| + 1 <= w.conn.maxStreams && at > w.conn.lastStreamId
    ensures var next := ReceiveRequest(w, at, last, verdict); SizeOk(next) && Advances(w, next)
  {
    var next := ReceiveRequest(w, at, last, verdict);
    if at in next.conn.streams {
      OneMoreKey(w.conn.streams, at, next.conn.streams[at]);
    } else {
      FewerKeys(w.conn.streams, next.conn.streams);
    }
  }

  lemma NewHeadersCount(w: World, at: StreamId, last: bool, verdict: Verdict)
    requires SizeOk(w) && at !in w.conn.streams
    ensures var next := ReceiveNewHeaders(w, at, last, verdict); SizeOk(next) && Advances(w, next)
  {
    if at % 2 == 1 && at > w.conn.lastStreamId {
      if |w.conn.streams| + 1 > w.conn.maxStreams {
        RefusalAddsNone(w, at, 7, verdict);
        FewerKeys(w.conn.streams, RefuseBlock(w, at, 7, verdict).conn.streams);
      } else {
        RequestCounts(w, at, last, verdict);
      }
    }
  }

  lemma MoreHeadersAddNone(w: World, at: StreamId, last: bool, verdict: Verdict)
    requires at in w.conn.streams
    ensures NoNewStream(w, ReceiveMoreHeaders(w, at, last, verdict))
  {
  }

  lemma HeadersCount(w: World, at: StreamId, last: bool, badPriority: bool, verdict: Verdict)
    requires SizeOk(w)
    ensures var next := ReceiveHeaders(w, at, last, badPriority, verdict); SizeOk(next) && Advances(w, next)
  {
    if at in w.conn.streams {
      MoreHeadersAddNone(w, at, last, verdict);
      FewerKeys(w.conn.streams, ReceiveMoreHeaders(w, at, last, verdict).conn.streams);
    } else {
      NewHeadersCount(w, at, last, verdict);
    }
  }

  lemma FrameAddsNone(w: World, f: InFrame)
    requires !f.InHeaders?
    ensures NoNewStream(w, ProcessFrame(w, f))
  {
    match f
    case InSettings(_, _, _, settings) => SettingsKeepStreams(w.conn, settings);
    case InData(at, len, last, receiverGone) => DataAddsNone(w, at, len, last, receiverGone);
    case InWindowUpdate(at, len, increment) => WindowUpdateAddsNone(w, at, len, increment);
    case _ =>
  }

  lemma DataAddsNone(w: World, at: StreamId, len: nat, last: bool, receiverGone: bool)
    ensures NoNewStream(w, ReceiveData(w, at, len, last, receiverGone))
  {
  }

  lemma WindowUpdateAddsNone(w: World, at: StreamId, len: nat, increment: nat)
    ensures NoNewStream(w, ReceiveWindowUpdate(w, at, len, increment))
  {
  }

  /** Other steps add no stream. */
  predicate NoNewStream(w: World, next: World) {
    && next.conn.streams.Keys <= w.conn.streams.Keys
    && next.conn.lastStreamId == w.conn.lastStreamId && next.conn.maxStreams == w.conn.maxStreams
  }

  lemma WriteAddsNone(w: World, packet: Packet)
    ensures NoNewStream(w, WriteFrame(w, packet))
  {
  }

  lemma {:induction false} WriteAllAddsNone(w: World, packets: seq<Packet>)
    ensures NoNewStream(w, WriteAll(w, packets))
    decreases |packets|
  {
    if packets != [] {
      WriteAddsNone(w, packets[0]);
      WriteAllAddsNone(WriteFrame(w, packets[0]), packets[1..]);
    }
  }

  lemma {:induction false} QueueAddsNone(q: Queueing, order: seq<StreamId>)
    ensures NoNewStream(q.world, QueueAll(q, order).world)
    decreases |order|
  {
    if order != [] {
      QueueAddsNone(QueueTurn(q, order[0]), order[1..]);
    }
  }

  lemma ScheduleAddsNone(w: World, order: seq<StreamId>)
    ensures NoNewStream(w, SendDataMaybe(w, order))
  {
    var q := QueuePending(w, order);
    if w.conn.outgoingCapacity > 0 {
      QueueAddsNone(Queueing(w.(conn := w.conn.(notify := false)), [], {}), order);
    }
    WriteAllAddsNone(q.world, q.frames);
  }

  lemma StepCounts(w: World, input: Input)
    requires SizeOk(w) && Enabled(w, input)
    ensures SizeOk(Step(w, input)) && Advances(w, Step(w, input))
  {
    var next := Step(w, input);
    if w.status.Running? {
      match input
      case Received(frame) =>
        if frame.InHeaders? {
          HeadersCount(w, frame.id, frame.last, frame.badPriority, frame.verdict);
        } else {
          FrameAddsNone(w, frame);
          FewerKeys(w.conn.streams, next.conn.streams);
        }
      case Event(at, payload) => FewerKeys(w.conn.streams, next.conn.streams);
      case Scheduled(order) =>
        ScheduleAddsNone(w, order);
        FewerKeys(w.conn.streams, next.conn.streams);
    }
  }

  // ---- Every run ----

  ghost predicate AllIdsOk(w: World) {
    forall id {:trigger IdOk(w, id)} :: IdOk(w, id)
  }

  /** Over every run: ids are odd and at most the last one, which never falls; live
      streams never exceed the maximum; every stream only moves as section 5.1 of
      RFC 9113 lets it, so an id that left the map never returns; no stream is in
      transition between steps; and a GOAWAY covers every stream ever opened. */
  lemma {:induction false} LifecycleOverRuns(w: World, inputs: seq<Input>, last: World)
    requires AllIdsOk(w) && SizeOk(w) && RunsTo(w, inputs, last)
    ensures AllIdsOk(last) && SizeOk(last) && Advances(w, last)
    ensures forall id :: Went(w, last, id)
    decreases |inputs|
  {
    if inputs != [] {
      var next := Step(w, inputs[0]);
      StepCounts(w, inputs[0]);
      forall id
        ensures IdOk(next, id) && Moves(w, next, id)
      {
        assert IdOk(w, id);
        StepMoves(w, inputs[0], id);
      }
      LifecycleOverRuns(next, inputs[1..], last);
      forall id
        ensures Went(w, last, id)
      {
        assert Moves(w, next, id) && Went(next, last, id);
        LeadsIsClosure(KindOf(w, id), KindOf(next, id), KindOf(last, id));
      }
    } else {
      forall id
        ensures Went(w, last, id)
      {
        assert IdOk(w, id);
      }
    }
  }

  lemma NewWorldIsOk(maxStreams: nat)
    ensures AllIdsOk(NewWorld(maxStreams)) && SizeOk(NewWorld(maxStreams))
  {
  }
}
