/** What a run owes to its inputs alone: the response that the handler of a stream gave, the
    request that the peer sent, the windows it granted and the settings it chose. Nothing
    here looks at what the connection keeps. */
module H2History {
  import opened Common
  import opened Frames
  import opened H2State
  import opened H2Machine
  import opened H2Lifecycle
  import opened H2Scheduler
  import opened H2Effects
  import opened H2Delivery
  import opened H2Windows
  import opened H2Aborts
  import opened H2Safety
  import opened H2Requests

  // ---- What the inputs say of a stream ----

  /** The header block, the body so far and whether it ended, as the handler gave them; the
      window increments, the bytes of DATA and the announced length, as the peer sent them. */
  datatype Story = Story(
    block: Option<Bytes>, body: Bytes, ended: bool, increments: nat, received: nat, announced: Option<nat>)

  function NoStory(): Story {
    Story(None, [], false, 0, 0, None)
  }

  function Tell(s: Story, input: Input, id: StreamId): Story {
    match input
    case Event(at, HeadersEvent(block)) => if at == id then s.(block := Some(block)) else s
    case Event(at, BodyChunk(piece)) => if at == id then s.(body := s.body + piece) else s
    case Event(at, BodyEnd) => if at == id then s.(ended := true) else s
    case Received(InWindowUpdate(at, _, increment)) => if at == id then s.(increments := s.increments + increment) else s
    case Received(InData(at, len, _, _)) => if at == id then s.(received := s.received + len) else s
    case Received(InHeaders(at, _, _, BlockAccepted(length))) => if at == id then s.(announced := length) else s
    case _ => s
  }

  function StoryOf(inputs: seq<Input>, id: StreamId): Story
    decreases |inputs|
  {
    if inputs == [] then NoStory() else Tell(StoryOf(inputs[..|inputs| - 1], id), inputs[|inputs| - 1], id)
  }

  // ---- How a connection stands to a story ----

  /** All of the response is in the log while the stream sends, and part of it for ever. */
  predicate ResponseTold(w: World, s: Story, id: StreamId) {
    var log := LogOf(w, id);
    && (id !in w.logs ==> s.block == None && s.body == [] && !s.ended)
    && (w.status.Running? && w.conn.HasOutgoing(id) ==> log.block == s.block && log.body == s.body && log.ended == s.ended)
    && (log.block.Some? ==> log.block == s.block && log.phase != ExpectResponseHeaders)
    && log.body <= s.body
    && (log.ended ==> s.ended && log.body == s.body && log.phase == ResponseDone)
  }

  predicate RequestTold(w: World, s: Story, id: StreamId) {
    w.status.Running? ==>
      && (id !in w.logs ==> s.received == 0)
      && (IncomingOf(w, id).Some? ==> IncomingOf(w, id) == Some(Incoming(65535 - s.received, s.received, s.announced)))
  }

  predicate WindowTold(w: World, s: Story, id: StreamId) {
    w.status.Running? ==>
      && (id !in w.logs && id != 0 ==> s.increments == 0)
      && (w.conn.HasOutgoing(id) ==> LogOf(w, id).increments == s.increments)
  }

  predicate Told(w: World, s: Story, id: StreamId) {
    ResponseTold(w, s, id) && RequestTold(w, s, id) && WindowTold(w, s, id)
  }

  // ---- Events ----

  lemma EventTells(w: World, at: StreamId, payload: EventPayload, s: Story, id: StreamId)
    requires Good(w) && w.status.Running? && Enabled(w, Event(at, payload)) && ResponseTold(w, s, id)
    ensures ResponseTold(HandleEvent(w, at, payload), Tell(s, Event(at, payload), id), id)
  {
    assert StreamGood(w, id);
    if id == at {
      EventKeepsDelivery(w, at, payload);
    } else {
      EventSparesOthers(w, at, payload, id);
    }
  }

  lemma EventTellsRequest(w: World, at: StreamId, payload: EventPayload, s: Story, id: StreamId)
    requires Good(w) && w.status.Running? && Enabled(w, Event(at, payload)) && RequestTold(w, s, id) && WindowTold(w, s, id)
    ensures var next, told := HandleEvent(w, at, payload), Tell(s, Event(at, payload), id);
            RequestTold(next, told, id) && WindowTold(next, told, id)
  {
    EventKeepsIncoming(w, at, payload, id);
  }

  // ---- Frames ----

  lemma FrameTellsResponse(w: World, f: InFrame, s: Story, id: StreamId)
    requires Good(w) && w.status.Running? && ResponseTold(w, s, id)
    ensures ResponseTold(ProcessFrame(w, f), Tell(s, Received(f), id), id)
  {
    var next, told := ProcessFrame(w, f), Tell(s, Received(f), id);
    assert StreamGood(w, id);
    if f.InWindowUpdate? {
      assert StreamGood(w, f.id);
    }
    FrameEffect(w, f, id);
    FrameMoves(w, f, id);
    assert told.block == s.block && told.body == s.body && told.ended == s.ended;
  }
  lemma ChunkTells(w: World, at: StreamId, len: nat, last: bool, receiverGone: bool, s: Story)
    requires w.status.Running? && RequestTold(w, s, at) && IncomingOf(w, at).Some? && at in w.logs
    ensures var next := ReceiveChunk(w, at, IncomingOf(w, at).value, len, last, receiverGone);
            RequestTold(next, s.(received := s.received + len), at)
  {
  }

  lemma DataTells(w: World, at: StreamId, len: nat, last: bool, receiverGone: bool, s: Story, id: StreamId)
    requires StreamGood(w, id) && w.status.Running? && RequestTold(w, s, id)
    ensures var told := Tell(s, Received(InData(at, len, last, receiverGone)), id);
            RequestTold(ReceiveData(w, at, len, last, receiverGone), told, id)
  {
    if at == id {
      if IncomingOf(w, id).Some? && at != 0 {
        ChunkTells(w, at, len, last, receiverGone, s);
      }
    } else {
      DataSparesOthers(w, at, len, last, receiverGone, id);
    }
  }

  predicate Spares(w: World, next: World, id: StreamId) {
    IncomingOf(next, id) == IncomingOf(w, id) && next.logs == w.logs
  }

  lemma ChunkSparesOthers(w: World, at: StreamId, incoming: Incoming, len: nat, last: bool, receiverGone: bool, id: StreamId)
    requires at != id && at in w.conn.streams && (w.conn.streams[at].Open? || w.conn.streams[at].HalfClosedLocal?)
    ensures Spares(w, ReceiveChunk(w, at, incoming, len, last, receiverGone), id)
  {
  }

  lemma DataSparesOthers(w: World, at: StreamId, len: nat, last: bool, receiverGone: bool, id: StreamId)
    requires at != id
    ensures Spares(w, ReceiveData(w, at, len, last, receiverGone), id)
  {
    if at != 0 && at in w.conn.streams {
      match w.conn.streams[at]
      case Open(incoming, _) => ChunkSparesOthers(w, at, incoming, len, last, receiverGone, id);
      case HalfClosedLocal(incoming) => ChunkSparesOthers(w, at, incoming, len, last, receiverGone, id);
      case _ =>
    }
  }

  lemma RequestTells(w: World, at: StreamId, last: bool, verdict: Verdict, s: Story, id: StreamId)
    requires w.status.Running? && RequestTold(w, s, id) && (at == id ==> id !in w.logs)
    ensures var told := Tell(s, Received(InHeaders(at, last, false, verdict)), id);
            RequestTold(ReceiveRequest(w, at, last, verdict), told, id)
  {
  }

  lemma RefusalTells(w: World, at: StreamId, last: bool, code: nat, verdict: Verdict, s: Story, id: StreamId)
    requires w.status.Running? && RequestTold(w, s, id)
    ensures var told := Tell(s, Received(InHeaders(at, last, false, verdict)), id);
            RequestTold(RefuseBlock(w, at, code, verdict), told, id)
  {
  }

  lemma NewHeadersTell(w: World, at: StreamId, last: bool, verdict: Verdict, s: Story, id: StreamId)
    requires StreamGood(w, id) && w.status.Running? && RequestTold(w, s, id) && at !in w.conn.streams
    ensures var told := Tell(s, Received(InHeaders(at, last, false, verdict)), id);
            RequestTold(ReceiveNewHeaders(w, at, last, verdict), told, id)
  {
    if at % 2 == 1 && at > w.conn.lastStreamId {
      if |w.conn.streams| + 1 > w.conn.maxStreams {
        RefusalTells(w, at, last, 7, verdict, s, id);
      } else {
        RequestTells(w, at, last, verdict, s, id);
      }
    }
  }

  lemma MoreHeadersTell(w: World, at: StreamId, last: bool, verdict: Verdict, s: Story, id: StreamId)
    requires w.status.Running? && RequestTold(w, s, id) && at in w.conn.streams
    ensures var told := Tell(s, Received(InHeaders(at, last, false, verdict)), id);
            RequestTold(ReceiveMoreHeaders(w, at, last, verdict), told, id)
  {
    RefusalTells(w, at, last, 1, verdict, s, id);
  }

  lemma HeadersTell(w: World, at: StreamId, last: bool, badPriority: bool, verdict: Verdict, s: Story, id: StreamId)
    requires StreamGood(w, id) && w.status.Running? && RequestTold(w, s, id)
    ensures var told := Tell(s, Received(InHeaders(at, last, badPriority, verdict)), id);
            RequestTold(ReceiveHeaders(w, at, last, badPriority, verdict), told, id)
  {
    if !badPriority {
      if at in w.conn.streams {
        MoreHeadersTell(w, at, last, verdict, s, id);
      } else {
        NewHeadersTell(w, at, last, verdict, s, id);
      }
    }
  }

  lemma FrameTellsRequest(w: World, f: InFrame, s: Story, id: StreamId)
    requires StreamGood(w, id) && w.status.Running? && RequestTold(w, s, id)
    ensures RequestTold(ProcessFrame(w, f), Tell(s, Received(f), id), id)
  {
    match f
    case InData(at, len, last, receiverGone) => DataTells(w, at, len, last, receiverGone, s, id);
    case InHeaders(at, last, badPriority, verdict) => HeadersTell(w, at, last, badPriority, verdict, s, id);
    case InSettings(at, len, ack, settings) => SettingsKeepIncoming(w, at, len, ack, settings, id);
    case _ => OtherFrameKeepsIncoming(w, f, id);
  }

  /** Nothing was granted to the stream. */
  predicate SameGrants(w: World, next: World, id: StreamId) {
    LogOf(next, id).increments == LogOf(w, id).increments
  }

  lemma DataGrantsNone(w: World, at: StreamId, len: nat, last: bool, receiverGone: bool, id: StreamId)
    ensures SameGrants(w, ReceiveData(w, at, len, last, receiverGone), id)
  {
  }

  lemma NewHeadersGrantNone(w: World, at: StreamId, last: bool, verdict: Verdict, id: StreamId)
    requires IdOk(w, id)
    ensures SameGrants(w, ReceiveNewHeaders(w, at, last, verdict), id)
  {
    assert SameGrants(w, RefuseBlock(w, at, 7, verdict), id);
    if at > w.conn.lastStreamId {
      assert SameGrants(w, ReceiveRequest(w, at, last, verdict), id);
    }
  }

  lemma MoreHeadersGrantNone(w: World, at: StreamId, last: bool, verdict: Verdict, id: StreamId)
    requires at in w.conn.streams
    ensures SameGrants(w, ReceiveMoreHeaders(w, at, last, verdict), id)
  {
  }

  /** Only WINDOW_UPDATE grants a stream anything. */
  lemma FrameGrantsNone(w: World, f: InFrame, id: StreamId)
    requires IdOk(w, id) && !f.InWindowUpdate?
    ensures SameGrants(w, ProcessFrame(w, f), id)
  {
    match f
    case InData(at, len, last, receiverGone) => DataGrantsNone(w, at, len, last, receiverGone, id);
    case InHeaders(at, last, badPriority, verdict) =>
      if at in w.conn.streams {
        MoreHeadersGrantNone(w, at, last, verdict, id);
      } else {
        NewHeadersGrantNone(w, at, last, verdict, id);
      }
    case InSettings(_, _, _, settings) => SettingsKeepStreams(w.conn, settings);
    case _ =>
  }

  lemma WindowUpdateGrants(w: World, at: StreamId, len: nat, increment: nat, s: Story, id: StreamId)
    requires IdOk(w, id) && w.status.Running? && WindowTold(w, s, id)
    ensures var told := Tell(s, Received(InWindowUpdate(at, len, increment)), id);
            WindowTold(ReceiveWindowUpdate(w, at, len, increment), told, id)
  {
  }

  lemma SendsOn(w: World, next: World, id: StreamId)
    requires IdOk(w, id) && Moves(w, next, id)
    ensures next.conn.HasOutgoing(id) ==> w.conn.HasOutgoing(id) || id !in w.logs
    ensures id !in next.logs ==> id !in w.logs
  {
  }

  lemma NothingGranted(w: World, next: World, s: Story, told: Story, id: StreamId)
    requires IdOk(w, id) && w.status.Running? && WindowTold(w, s, id) && told.increments == s.increments
    requires SameGrants(w, next, id) && Moves(w, next, id) && IdOk(next, id)
    ensures WindowTold(next, told, id)
  {
    SendsOn(w, next, id);
  }

  lemma FrameTellsWindow(w: World, f: InFrame, s: Story, id: StreamId)
    requires StreamGood(w, id) && w.status.Running? && WindowTold(w, s, id)
    ensures WindowTold(ProcessFrame(w, f), Tell(s, Received(f), id), id)
  {
    if f.InWindowUpdate? {
      WindowUpdateGrants(w, f.id, f.len, f.increment, s, id);
    } else {
      FrameGrantsNone(w, f, id);
      FrameMoves(w, f, id);
      NothingGranted(w, ProcessFrame(w, f), s, Tell(s, Received(f), id), id);
    }
  }

  // ---- Every run ----

  lemma ScheduleTells(w: World, order: seq<StreamId>, s: Story, id: StreamId)
    requires StreamGood(w, id) && w.status.Running? && Told(w, s, id)
    ensures Told(SendDataMaybe(w, order), s, id)
  {
    ScheduleMoves(w, order, id);
    ScheduleKeepsIncoming(w, order, id);
  }

  lemma StepTells(w: World, input: Input, s: Story, id: StreamId)
    requires Good(w) && Enabled(w, input) && Told(w, s, id)
    ensures Told(Step(w, input), Tell(s, input, id), id)
  {
    assert StreamGood(w, id);
    if w.status.Running? {
      match input
      case Received(frame) =>
        FrameTellsResponse(w, frame, s, id);
        FrameTellsRequest(w, frame, s, id);
        FrameTellsWindow(w, frame, s, id);
      case Event(at, payload) =>
        EventTells(w, at, payload, s, id);
        EventTellsRequest(w, at, payload, s, id);
      case Scheduled(order) => ScheduleTells(w, order, s, id);
    }
  }

  /** The state before the last input. */
  lemma {:induction false} LastStep(w: World, inputs: seq<Input>, last: World) returns (before: World)
    requires RunsTo(w, inputs, last) && inputs != []
    ensures RunsTo(w, inputs[..|inputs| - 1], before)
    ensures Enabled(before, inputs[|inputs| - 1]) && last == Step(before, inputs[|inputs| - 1])
    decreases |inputs|
  {
    if |inputs| == 1 {
      before := w;
    } else {
      before := LastStep(Step(w, inputs[0]), inputs[1..], last);
      assert inputs[1..][..|inputs| - 2] == inputs[..|inputs| - 1][1..];
    }
  }

  lemma {:induction false} RunTells(maxStreams: nat, inputs: seq<Input>, last: World, id: StreamId)
    requires Reaches(maxStreams, inputs, last)
    ensures Told(last, StoryOf(inputs, id), id)
    decreases |inputs|
  {
    if inputs != [] {
      var before := LastStep(NewWorld(maxStreams), inputs, last);
      var earlier := inputs[..|inputs| - 1];
      RunTells(maxStreams, earlier, before, id);
      ReachedIsGood(maxStreams, earlier, before);
      StepTells(before, inputs[|inputs| - 1], StoryOf(earlier, id), id);
    }
  }
  // ---- Settings and the connection window ----

  /** The settings that the peer sent, all of them in order. */
  function SettingsOf(inputs: seq<Input>): seq<SettingValue>
    decreases |inputs|
  {
    if inputs == [] then [] else SettingsOf(inputs[..|inputs| - 1]) + SettingsIn(inputs[|inputs| - 1])
  }

  function SettingsIn(input: Input): seq<SettingValue> {
    if input.Received? && input.frame.InSettings? && !input.frame.ack then input.frame.settings else []
  }

  /** The value that came last for a setting. */
  function Latest(settings: seq<SettingValue>, code: nat, initial: nat): nat
    decreases |settings|
  {
    if settings == [] then initial
    else Latest(settings[1..], code, if settings[0].code == code then settings[0].value else initial)
  }

  lemma {:induction false} LatestAppend(a: seq<SettingValue>, b: seq<SettingValue>, code: nat, initial: nat)
    ensures Latest(a + b, code, initial) == Latest(b, code, Latest(a, code, initial))
    decreases |a|
  {
    if a == [] {
      assert a + b == b;
    } else {
      assert (a + b)[1..] == a[1..] + b;
      LatestAppend(a[1..], b, code, if a[0].code == code then a[0].value else initial);
    }
  }

  /** Values that section 6.5.2 of RFC 9113 does not allow. */
  predicate Forbidden(s: SettingValue) {
    || (s.code == 2 && s.value > 1)
    || (s.code == 4 && s.value > 0x7FFF_FFFF)
    || (s.code == 5 && !(0x4000 <= s.value <= 0xFF_FFFF))
  }

  /** Settings are refused exactly if one of them is not allowed; otherwise the last value of
      each holds. */
  lemma {:induction false} SettingsHold(conn: Conn, settings: seq<SettingValue>)
    ensures var r := ApplySettings(conn, settings);
            && (r.None? <==> exists i :: 0 <= i < |settings| && Forbidden(settings[i]))
            && (r.Some? ==> r.value == conn.(initialWindow := Latest(settings, 4, conn.initialWindow),
                                             maxFrameSize := r.value.maxFrameSize)
                            && r.value.maxFrameSize == Latest(settings, 5, conn.maxFrameSize))
    decreases |settings|
  {
    if settings != [] {
      var first := ApplySetting(conn, settings[0]);
      assert first.None? <==> Forbidden(settings[0]);
      if first.Some? {
        SettingsHold(first.value, settings[1..]);
        assert forall i :: 1 <= i < |settings| ==> settings[i] == settings[1..][i - 1];
      }
    }
  }

  predicate ConnTold(w: World, increments: nat, settings: seq<SettingValue>) {
    w.status.Running? ==>
      && w.connIncrements == increments
      && w.conn.initialWindow == Latest(settings, 4, 65535) && w.conn.maxFrameSize == Latest(settings, 5, 16384)
  }

  /** What a frame does to the connection's own numbers. */
  lemma FrameTellsConn(w: World, f: InFrame)
    requires w.status.Running? && ProcessFrame(w, f).status.Running?
    ensures var next := ProcessFrame(w, f);
            && next.connIncrements == w.connIncrements + (if f.InWindowUpdate? && f.id == 0 then f.increment else 0)
            && next.conn.initialWindow == Latest(SettingsIn(Received(f)), 4, w.conn.initialWindow)
            && next.conn.maxFrameSize == Latest(SettingsIn(Received(f)), 5, w.conn.maxFrameSize)
  {
    match f
    case InData(at, len, last, receiverGone) => DataKeepsNumbers(w, at, len, last, receiverGone);
    case InHeaders(at, last, badPriority, verdict) =>
      if at in w.conn.streams {
        MoreHeadersKeepNumbers(w, at, last, verdict);
      } else {
        NewHeadersKeepNumbers(w, at, last, verdict);
      }
    case InSettings(_, _, _, settings) => SettingsHold(w.conn, settings);
    case _ =>
  }

  lemma DataKeepsNumbers(w: World, at: StreamId, len: nat, last: bool, receiverGone: bool)
    ensures SameNumbers(w, ReceiveData(w, at, len, last, receiverGone))
  {
  }

  predicate SameNumbers(w: World, next: World) {
    && next.connIncrements == w.connIncrements
    && next.conn.initialWindow == w.conn.initialWindow && next.conn.maxFrameSize == w.conn.maxFrameSize
  }

  lemma NewHeadersKeepNumbers(w: World, at: StreamId, last: bool, verdict: Verdict)
    ensures SameNumbers(w, ReceiveNewHeaders(w, at, last, verdict))
  {
    assert SameNumbers(w, ReceiveRequest(w, at, last, verdict));
  }

  lemma MoreHeadersKeepNumbers(w: World, at: StreamId, last: bool, verdict: Verdict)
    requires at in w.conn.streams
    ensures SameNumbers(w, ReceiveMoreHeaders(w, at, last, verdict))
  {
  }

  /** What an input grants the connection. */
  function GrantIn(input: Input): nat {
    if input.Received? && input.frame.InWindowUpdate? && input.frame.id == 0 then input.frame.increment else 0
  }

  lemma StepTellsConn(w: World, input: Input, increments: nat, settings: seq<SettingValue>)
    requires Good(w) && Enabled(w, input) && ConnTold(w, increments, settings)
    ensures ConnTold(Step(w, input), increments + GrantIn(input), settings + SettingsIn(input))
  {
    LatestAppend(settings, SettingsIn(input), 4, 65535);
    LatestAppend(settings, SettingsIn(input), 5, 16384);
    if w.status.Running? && Step(w, input).status.Running? {
      match input
      case Received(frame) => FrameTellsConn(w, frame);
      case Event(at, payload) => EventKeepsConn(w, at, payload);
      case Scheduled(order) =>
        assert StreamGood(w, 0);
        SchedulerEffect(w, order, 0);
    }
  }

  lemma {:induction false} RunTellsConn(maxStreams: nat, inputs: seq<Input>, last: World)
    requires Reaches(maxStreams, inputs, last)
    ensures ConnTold(last, StoryOf(inputs, 0).increments, SettingsOf(inputs))
    decreases |inputs|
  {
    if inputs != [] {
      var before := LastStep(NewWorld(maxStreams), inputs, last);
      var earlier := inputs[..|inputs| - 1];
      RunTellsConn(maxStreams, earlier, before);
      ReachedIsGood(maxStreams, earlier, before);
      StepTellsConn(before, inputs[|inputs| - 1], StoryOf(earlier, 0).increments, SettingsOf(earlier));
    }
  }
  // ---- What a connection owes to its inputs ----

  /** For every run: what the peer has read of a stream is the header block that its handler
      gave and a prefix of the chunks that it gave, put together; all of them once the end
      is seen, which the handler must have given too. While the stream sends, what is on the
      wire and what is queued are exactly those chunks. */
  lemma ResponseDelivery(maxStreams: nat, inputs: seq<Input>, last: World, id: StreamId)
    requires Reaches(maxStreams, inputs, last)
    ensures var t, given := TraceOf(last.wire, id), StoryOf(inputs, id);
            && (t.NoFrames? || t.BodyPart? || t.Ended?)
            && (!t.NoFrames? ==> given.block == Some(t.block) && t.body <= given.body)
            && (t.Ended? ==> given.ended && t.body == given.body)
            && (last.status.Running? && last.conn.HasOutgoing(id) ==>
                  !t.Ended? && BodyOf(t) + last.conn.Out(id).body.Queued() == given.body)
  {
    RunTells(maxStreams, inputs, last, id);
    LoggedDelivery(maxStreams, inputs, last, id);
  }

  /** For every run that goes on: a stream's window is the initial window that the peer set
      last, plus all it granted, less the body bytes on the wire; the connection's is 65535
      plus all it was granted less all DATA. */
  lemma WindowAccounts(maxStreams: nat, inputs: seq<Input>, last: World, id: StreamId)
    requires Reaches(maxStreams, inputs, last) && last.status.Running?
    ensures last.conn.outgoingCapacity == 65535 + StoryOf(inputs, 0).increments - DataBytes(last.wire)
    ensures 0 <= last.conn.outgoingCapacity <= MAX_WINDOW_SIZE
    ensures last.conn.HasOutgoing(id) ==>
              var capacity := last.conn.Out(id).capacity;
              && capacity == Latest(SettingsOf(inputs), 4, 65535) + StoryOf(inputs, id).increments
                             - |BodyOf(TraceOf(last.wire, id))|
              && -0x7FFF_FFFF <= capacity <= MAX_WINDOW_SIZE
    ensures last.conn.maxFrameSize == Latest(SettingsOf(inputs), 5, 16384)
  {
    RunTells(maxStreams, inputs, last, id);
    RunTellsConn(maxStreams, inputs, last);
    LoggedWindows(maxStreams, inputs, last, id);
  }

  /** A stream's request, as far as it came: the bytes of all its DATA, the window that is
      left of 65535, and the length that its HEADERS announced, which was not passed. */
  lemma RequestAccounts(maxStreams: nat, inputs: seq<Input>, last: World, id: StreamId)
    requires Reaches(maxStreams, inputs, last) && last.status.Running? && IncomingOf(last, id).Some?
    ensures var told := StoryOf(inputs, id);
            && IncomingOf(last, id) == Some(Incoming(65535 - told.received, told.received, told.announced))
            && told.received <= 65535 && (told.announced.Some? ==> told.received <= told.announced.value)
  {
    RunTells(maxStreams, inputs, last, id);
    RequestBodiesBounded(NewWorld(maxStreams), inputs, last, id);
  }

  /** The frames of a reset. */
  function ResetFrames(id: StreamId, code: nat): seq<Packet> {
    seq(15, i => Packet(Frame(RstStream, false, id, 4), [0, 0, 0, code % 256]))
  }

  predicate ResetWith(w: World, next: World, id: StreamId, code: nat) {
    next.status.Running? && id !in next.conn.streams && next.wire == w.wire + ResetFrames(id, code)
  }

  /** DATA past the window ends the connection; a body that is longer than announced, or ends
      shorter, is reset as a protocol error, and one that nobody reads is cancelled; all else
      is accepted and counted. */
  predicate DataComesTo(w: World, next: World, id: StreamId, received: nat, announced: Option<nat>,
                        len: nat, ends: bool, receiverGone: bool)
  {
    var total := received + len;
    if total > 65535 then next.status == Closed(WindowUnderflow, w.conn.lastStreamId)
    else if announced.Some? && (total > announced.value || (ends && total != announced.value)) then ResetWith(w, next, id, 1)
    else if receiverGone then ResetWith(w, next, id, 8)
    else
      && next.status.Running? && next.wire == w.wire
      && IncomingOf(next, id) == (if ends then None else Some(Incoming(65535 - total, total, announced)))
      && (KindOf(w, id) == OpenKind ==> KindOf(next, id) == (if ends then RemoteClosedKind else OpenKind))
      && (KindOf(w, id) == LocalClosedKind ==> KindOf(next, id) == (if ends then ClosedKind else LocalClosedKind))
  }

  lemma ChunkOutcome(w: World, id: StreamId, received: nat, announced: Option<nat>, len: nat, ends: bool, receiverGone: bool)
    requires IdOk(w, id) && w.status.Running? && IncomingOf(w, id) == Some(Incoming(65535 - received, received, announced))
    ensures DataComesTo(w, ReceiveData(w, id, len, ends, receiverGone), id, received, announced, len, ends, receiverGone)
  {
    ResetBytes(w, id, 1);
    ResetBytes(w, id, 8);
  }

  /** What DATA for a stream that receives comes to, from the DATA before it and the length
      announced alone. */
  lemma DataOutcome(maxStreams: nat, inputs: seq<Input>, last: World, id: StreamId, len: nat, ends: bool, receiverGone: bool)
    requires Reaches(maxStreams, inputs, last) && last.status.Running? && IncomingOf(last, id).Some?
    ensures var next, told := ReceiveData(last, id, len, ends, receiverGone), StoryOf(inputs, id);
            DataComesTo(last, next, id, told.received, told.announced, len, ends, receiverGone)
  {
    RequestAccounts(maxStreams, inputs, last, id);
    ReachedIsGood(maxStreams, inputs, last);
    assert StreamGood(last, id);
    ChunkOutcome(last, id, StoryOf(inputs, id).received, StoryOf(inputs, id).announced, len, ends, receiverGone);
  }

  /** In no run is a WINDOW_UPDATE written, so a peer that keeps to its windows stalls once
      it has sent 65535 bytes of a request body; and DATA ends the connection for its window
      exactly when it goes past that. */
  lemma UploadsStall(maxStreams: nat, inputs: seq<Input>, last: World, id: StreamId, len: nat, ends: bool, receiverGone: bool)
    requires Reaches(maxStreams, inputs, last) && last.status.Running? && IncomingOf(last, id).Some?
    ensures GivesNone(last.wire)
    ensures ReceiveData(last, id, len, ends, receiverGone).status == Closed(WindowUnderflow, last.conn.lastStreamId) <==>
            StoryOf(inputs, id).received + len > 65535
  {
    NewWorldIsGood(maxStreams);
    RunGivesNone(NewWorld(maxStreams), inputs, last);
    DataOutcome(maxStreams, inputs, last, id, len, ends, receiverGone);
  }

  /** Trailers end a request whose DATA came to the announced length, and reset any other. */
  lemma TrailersOutcome(maxStreams: nat, inputs: seq<Input>, last: World, id: StreamId, length: Option<nat>)
    requires Reaches(maxStreams, inputs, last) && last.status.Running? && KindOf(last, id) == OpenKind
    ensures var next, told := ReceiveHeaders(last, id, true, false, BlockAccepted(length)), StoryOf(inputs, id);
            if told.announced.Some? && told.received != told.announced.value then ResetWith(last, next, id, 1)
            else next.status.Running? && next.wire == last.wire && KindOf(next, id) == RemoteClosedKind
  {
    RequestAccounts(maxStreams, inputs, last, id);
    ResetBytes(last, id, 1);
  }

  lemma CodeOctets(code: nat)
    requires code < 256
    ensures BigEndian(code, 4) == [0, 0, 0, code]
  {
    OctetsOfWord(code);
  }

  lemma ResetBytes(w: World, id: StreamId, code: nat)
    requires code < 256
    ensures Rst(w, id, code).wire == w.wire + ResetFrames(id, code) && id !in Rst(w, id, code).conn.streams
  {
    CodeOctets(code);
    SameFrames(Packet(Frame(RstStream, false, id, 4), BigEndian(code, 4)), Rst(w, id, code).wire[|w.wire|..], id, code);
    assert Rst(w, id, code).wire == w.wire + Rst(w, id, code).wire[|w.wire|..];
  }

  lemma SameFrames(p: Packet, frames: seq<Packet>, id: StreamId, code: nat)
    requires code < 256 && p == Packet(Frame(RstStream, false, id, 4), [0, 0, 0, code])
    requires |frames| == 15 && forall i :: 0 <= i < |frames| ==> frames[i] == p
    ensures frames == ResetFrames(id, code)
  {
  }

  // ---- The order of compression ----

  /** The streams whose handlers gave headers while they could be sent, in that order. */
  ghost function CompressedIn(w: World, inputs: seq<Input>): seq<StreamId>
    decreases |inputs|
  {
    if inputs == [] || !Enabled(w, inputs[0]) then []
    else
      (if w.status.Running? && inputs[0].Event? && inputs[0].payload.HeadersEvent? && w.conn.HasOutgoing(inputs[0].id)
       then [inputs[0].id] else [])
      + CompressedIn(Step(w, inputs[0]), inputs[1..])
  }

  lemma StepCompresses(w: World, input: Input)
    requires Good(w) && w.status.Running? && Enabled(w, input) && !Step(w, input).status.Panicked?
    ensures Step(w, input).encoded == w.encoded
              + if input.Event? && input.payload.HeadersEvent? && w.conn.HasOutgoing(input.id) then [input.id] else []
  {
    assert StreamGood(w, 0);
    match input
    case Received(frame) =>
      if frame.InWindowUpdate? {
        assert StreamGood(w, frame.id);
      }
      FrameEffect(w, frame, 0);
    case Event(at, payload) =>
      assert StreamGood(w, at);
      EventKeepsDelivery(w, at, payload);
    case Scheduled(order) =>
      GoodInRange(w, order);
      SchedulerRunsIff(w, order);
      SchedulerEffect(w, order, 0);
  }

  lemma {:induction false} StoppedCompresses(w: World, inputs: seq<Input>, last: World)
    requires !w.status.Running? && RunsTo(w, inputs, last)
    ensures CompressedIn(w, inputs) == []
    decreases |inputs|
  {
    if inputs != [] {
      StoppedCompresses(w, inputs[1..], last);
    }
  }

  lemma {:induction false} RunCompresses(w: World, inputs: seq<Input>, last: World)
    requires Good(w) && RunsTo(w, inputs, last) && !last.status.Panicked?
    ensures last.encoded == w.encoded + CompressedIn(w, inputs)
    decreases |inputs|
  {
    if !w.status.Running? {
      StoppedStays(w, inputs, last);
      StoppedCompresses(w, inputs, last);
    } else if inputs != [] {
      var next := Step(w, inputs[0]);
      StepKeepsGood(w, inputs[0]);
      if next.status.Panicked? {
        StoppedStays(next, inputs[1..], last);
      } else {
        StepCompresses(w, inputs[0]);
        RunCompresses(next, inputs[1..], last);
        Reassociate(w.encoded, next.encoded[|w.encoded|..], CompressedIn(next, inputs[1..]));
      }
    }
  }
}
