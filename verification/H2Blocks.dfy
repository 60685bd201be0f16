/** Header blocks share one compression table, so a peer must read them in the order in
    which they were compressed. Exactly when the wire has them in that order. */
module H2Blocks {
  import opened Common
  import opened Frames
  import opened H2State
  import opened H2Machine
  import opened H2Scheduler
  import opened H2Effects
  import opened H2Delivery
  import opened H2Aborts
  import opened H2Wire
  import opened H2Safety

  // ---- The blocks on a wire ----

  /** The streams whose header blocks are on the wire, in wire order. */
  function HeadersOn(packets: seq<Packet>): seq<StreamId>
    decreases |packets|
  {
    if packets == [] then []
    else if packets[0].frame.ty.Headers? then [packets[0].frame.streamId] + HeadersOn(packets[1..])
    else HeadersOn(packets[1..])
  }

  lemma {:induction false} HeadersOnAppend(a: seq<Packet>, b: seq<Packet>)
    ensures HeadersOn(a + b) == HeadersOn(a) + HeadersOn(b)
    decreases |a|
  {
    if a == [] {
      assert a + b == b;
    } else {
      assert (a + b)[0] == a[0] && (a + b)[1..] == a[1..] + b;
      HeadersOnAppend(a[1..], b);
    }
  }

  lemma {:induction false} NoHeadersOn(packets: seq<Packet>)
    requires forall i :: 0 <= i < |packets| ==> !packets[i].frame.ty.Headers?
    ensures HeadersOn(packets) == []
    decreases |packets|
  {
    if packets != [] {
      NoHeadersOn(packets[1..]);
    }
  }

  lemma {:induction false} ContinuationsOnly(id: StreamId, pieces: seq<Bytes>)
    ensures HeadersOn(HeaderPackets(id, pieces, true)) == []
    decreases |pieces|
  {
    if pieces != [] {
      assert HeaderPackets(id, pieces, true)[1..] == HeaderPackets(id, pieces[1..], true);
      ContinuationsOnly(id, pieces[1..]);
    }
  }

  lemma {:induction false} DataOnly(id: StreamId, pieces: seq<Bytes>, ends: bool)
    ensures HeadersOn(DataPackets(id, pieces, ends)) == []
    decreases |pieces|
  {
    if pieces != [] {
      assert DataPackets(id, pieces, ends)[1..] == DataPackets(id, pieces[1..], ends);
      DataOnly(id, pieces[1..], ends);
    }
  }

  /** A turn puts one block on the wire if the stream has not sent its own. */
  lemma HeadersOfTurn(id: StreamId, o: Outgoing, connCapacity: int, maxFrame: FrameSize)
    requires !o.headers.WroteSome?
    ensures HeadersOn(TurnPackets(id, o, connCapacity, maxFrame)) == if o.headers.WroteNone? then [id] else []
  {
    var capacity := Usable(connCapacity, o.capacity);
    var block, data := BlockPackets(id, o.headers, maxFrame), BodyPackets(id, o.body, capacity, maxFrame);
    HeadersOnAppend(block, data);
    if data != [] {
      DataOnly(id, Chunks(o.body.Queued()[..TurnBytes(o.body, capacity)], maxFrame), TurnEnds(o.body, capacity));
    }
    if o.headers.WroteNone? {
      var pieces := Chunks(o.headers.piece, maxFrame);
      assert block[1..] == HeaderPackets(id, pieces[1..], true);
      ContinuationsOnly(id, pieces[1..]);
    }
  }

  /** The streams among these that have a block to send. */
  function Unsent(conn: Conn, order: seq<StreamId>): seq<StreamId>
    decreases |order|
  {
    if order == [] then []
    else if conn.HasOutgoing(order[0]) && conn.Out(order[0]).headers.WroteNone? then [order[0]] + Unsent(conn, order[1..])
    else Unsent(conn, order[1..])
  }

  lemma {:induction false} HeadersOfTurns(conn: Conn, order: seq<StreamId>)
    requires AllSend(conn, order) && NoneHalfway(conn, order)
    ensures HeadersOn(Turns(conn, order)) == Unsent(conn, order)
    decreases |order|
  {
    if order != [] {
      HeadersOnAppend(Turn(conn, order[0]), Turns(conn, order[1..]));
      HeadersOfTurn(order[0], conn.Out(order[0]), conn.outgoingCapacity, conn.maxFrameSize);
      HeadersOfTurns(conn, order[1..]);
    }
  }

  /** The blocks that a run of the scheduler sends. */
  function SendsBlocks(conn: Conn, order: seq<StreamId>): seq<StreamId> {
    if conn.outgoingCapacity > 0 then Unsent(conn, order) else []
  }

  lemma ScheduleSendsBlocks(w: World, order: seq<StreamId>)
    requires Good(w) && w.status.Running? && Enumerates(order, w.conn.pending) && SendDataMaybe(w, order).status.Running?
    ensures HeadersOn(SendDataMaybe(w, order).wire) == HeadersOn(w.wire) + SendsBlocks(w.conn, order)
  {
    GoodInRange(w, order);
    SchedulerRunsIff(w, order);
    ScheduleAppends(w, order);
    HeadersOnAppend(w.wire, Scheduling(w.conn, order));
    if w.conn.outgoingCapacity > 0 {
      NoneIsHalfway(w, order);
      HeadersOfTurns(w.conn, order);
    }
  }

  // ---- In the order of compression ----

  /** What the peer reads is what was compressed first. */
  predicate InOrder(w: World) {
    HeadersOn(w.wire) <= w.encoded
  }

  /** A block was compressed exactly for the streams that were given headers. */
  predicate EncodedOk(w: World, id: StreamId) {
    id in w.encoded <==> LogOf(w, id).block.Some?
  }

  ghost predicate Tracked(w: World) {
    Good(w) && Distinct(w.encoded) && forall id {:trigger EncodedOk(w, id)} :: EncodedOk(w, id)
  }

  lemma {:induction false} HeadersSeen(t: Trace, packets: seq<Packet>, id: StreamId)
    requires id in HeadersOn(packets) || !t.NoFrames?
    ensures !Follow(t, Own(packets, id)).NoFrames?
    decreases |packets|
  {
    if packets != [] {
      var p := packets[0];
      var next := if Carries(p, id) then Accept(t, p.frame.ty, p.payload) else t;
      HeadersSeen(next, packets[1..], id);
    }
  }

  /** Only blocks that were compressed are on the wire. */
  lemma SentWasEncoded(w: World, id: StreamId)
    requires Tracked(w) && id in HeadersOn(w.wire)
    ensures id in w.encoded
  {
    assert StreamGood(w, id) && EncodedOk(w, id);
    HeadersSeen(NoFrames, w.wire, id);
  }

  // ---- One step ----

  lemma FrameSendsNone(w: World, f: InFrame)
    ensures HeadersOn(ProcessFrame(w, f).wire) == HeadersOn(w.wire)
  {
    FrameGrows(w, f);
    AnswersSendNone(w.wire, ProcessFrame(w, f).wire, FrameId(f));
  }

  lemma AnswersSendNone(wire: seq<Packet>, next: seq<Packet>, at: StreamId)
    requires Answered(wire, next, at)
    ensures HeadersOn(next) == HeadersOn(wire)
  {
    var more := next[|wire|..];
    assert next == wire + more;
    HeadersOnAppend(wire, more);
    NoHeadersOn(more);
  }

  lemma FrameKeepsEncoded(w: World, f: InFrame, id: StreamId)
    requires Good(w) && EncodedOk(w, id)
    ensures ProcessFrame(w, f).encoded == w.encoded && EncodedOk(ProcessFrame(w, f), id)
  {
    assert StreamGood(w, id);
    if f.InWindowUpdate? {
      assert StreamGood(w, f.id);
    }
    FrameEffect(w, f, id);
  }

  /** Headers are compressed once for each stream. */
  lemma EventKeepsEncoded(w: World, at: StreamId, payload: EventPayload, id: StreamId)
    requires Good(w) && w.status.Running? && Enabled(w, Event(at, payload)) && EncodedOk(w, id) && EncodedOk(w, at)
    ensures var next := HandleEvent(w, at, payload);
            && EncodedOk(next, id)
            && (next.encoded == w.encoded || (next.encoded == w.encoded + [at] && at !in w.encoded))
  {
    assert StreamGood(w, at) && StreamGood(w, id);
    if id != at {
      EventSparesOthers(w, at, payload, id);
    }
  }

  lemma ScheduleKeepsEncoded(w: World, order: seq<StreamId>, id: StreamId)
    requires Good(w) && w.status.Running? && Enumerates(order, w.conn.pending) && SendDataMaybe(w, order).status.Running?
    requires EncodedOk(w, id)
    ensures SendDataMaybe(w, order).encoded == w.encoded && EncodedOk(SendDataMaybe(w, order), id)
  {
    assert StreamGood(w, id);
    SchedulerEffect(w, order, id);
  }

  /** What a step adds to the wire and to the list of compressed blocks. */
  function Blocks(w: World, input: Input): seq<StreamId> {
    if input.Scheduled? then SendsBlocks(w.conn, input.order) else []
  }

  lemma StepKeepsEncoded(w: World, input: Input, id: StreamId)
    requires Tracked(w) && w.status.Running? && Enabled(w, input) && !Step(w, input).status.Panicked?
    ensures var next := Step(w, input);
            EncodedOk(next, id) && w.encoded <= next.encoded && (Distinct(w.encoded) ==> Distinct(next.encoded))
  {
    assert EncodedOk(w, id);
    match input
    case Received(frame) => FrameKeepsEncoded(w, frame, id);
    case Event(at, payload) =>
      assert EncodedOk(w, at);
      EventKeepsEncoded(w, at, payload, id);
    case Scheduled(order) =>
      GoodInRange(w, order);
      SchedulerRunsIff(w, order);
      ScheduleKeepsEncoded(w, order, id);
  }

  lemma StepKeepsTracked(w: World, input: Input)
    requires Tracked(w) && w.status.Running? && Enabled(w, input) && !Step(w, input).status.Panicked?
    ensures Tracked(Step(w, input)) && w.encoded <= Step(w, input).encoded
  {
    StepKeepsGood(w, input);
    StepKeepsEncoded(w, input, 0);
    forall id
      ensures EncodedOk(Step(w, input), id)
    {
      StepKeepsEncoded(w, input, id);
    }
  }

  lemma StepSendsBlocks(w: World, input: Input)
    requires Tracked(w) && w.status.Running? && Enabled(w, input) && !Step(w, input).status.Panicked?
    ensures HeadersOn(Step(w, input).wire) == HeadersOn(w.wire) + Blocks(w, input)
  {
    match input
    case Received(frame) => FrameSendsNone(w, frame);
    case Event(at, payload) => EventKeepsConn(w, at, payload);
    case Scheduled(order) =>
      GoodInRange(w, order);
      SchedulerRunsIff(w, order);
      ScheduleSendsBlocks(w, order);
  }

  /** The condition on one step: a run of the scheduler comes to the streams with a block
      to send in the order in which their blocks were compressed, and skips none. */
  predicate Fits(w: World, input: Input) {
    HeadersOn(w.wire) + Blocks(w, input) <= w.encoded
  }

  /** Two prefixes of a list without repetition: one is a prefix of the other exactly when
      it holds no other members. */
  lemma PrefixIffMembers(sent: seq<StreamId>, encoded: seq<StreamId>, later: seq<StreamId>)
    requires Distinct(later) && encoded <= later && sent <= later
    ensures sent <= encoded <==> forall id :: id in sent ==> id in encoded
  {
    if |sent| > |encoded| {
      var id := sent[|encoded|];
      forall i | 0 <= i < |encoded|
        ensures encoded[i] != id
      {
        assert later[i] == encoded[i] && later[|encoded|] == id;
      }
      assert id in sent && id !in encoded;
    }
  }

  /** One step keeps the order exactly when it fits. */
  lemma OrderKeptIff(w: World, input: Input)
    requires Tracked(w) && w.status.Running? && Enabled(w, input) && !Step(w, input).status.Panicked?
    ensures InOrder(Step(w, input)) <==> Fits(w, input)
  {
    var next := Step(w, input);
    StepKeepsTracked(w, input);
    StepSendsBlocks(w, input);
    if InOrder(next) {
      forall id | id in HeadersOn(next.wire)
        ensures id in w.encoded
      {
        SentWasEncodedBefore(w, input, id);
      }
      PrefixIffMembers(HeadersOn(next.wire), w.encoded, next.encoded);
    }
  }

  lemma SentWasEncodedBefore(w: World, input: Input, id: StreamId)
    requires Tracked(w) && w.status.Running? && Enabled(w, input) && !Step(w, input).status.Panicked?
    requires id in HeadersOn(Step(w, input).wire)
    ensures id in w.encoded
  {
    StepSendsBlocks(w, input);
    if input.Scheduled? {
      StepKeepsTracked(w, input);
      GoodInRange(w, input.order);
      SchedulerRunsIff(w, input.order);
      ScheduleEncodesNone(w, input.order);
      SentWasEncoded(Step(w, input), id);
    } else {
      SentWasEncoded(w, id);
    }
  }

  lemma ScheduleEncodesNone(w: World, order: seq<StreamId>)
    requires Tracked(w) && w.status.Running? && Enumerates(order, w.conn.pending) && SendDataMaybe(w, order).status.Running?
    ensures SendDataMaybe(w, order).encoded == w.encoded
  {
    assert EncodedOk(w, 0);
    ScheduleKeepsEncoded(w, order, 0);
  }

  // ---- Every run ----

  /** Every step of a run fits. */
  ghost predicate AllFit(w: World, inputs: seq<Input>)
    decreases |inputs|
  {
    inputs == [] || !w.status.Running? ||
    (Enabled(w, inputs[0]) && Fits(w, inputs[0]) && AllFit(Step(w, inputs[0]), inputs[1..]))
  }

  lemma FitsKeepsPrefix(w: World, input: Input)
    requires Fits(w, input)
    ensures InOrder(w)
  {
    assert HeadersOn(w.wire) <= HeadersOn(w.wire) + Blocks(w, input);
  }

  /** Over every run: header blocks are on the wire in the order of compression, none
      missing, exactly when every run of the scheduler fitted. */
  lemma {:induction false} BlocksInOrderIff(w: World, inputs: seq<Input>, last: World)
    requires Tracked(w) && InOrder(w) && RunsTo(w, inputs, last) && !last.status.Panicked?
    ensures InOrder(last) <==> AllFit(w, inputs)
    decreases |inputs|
  {
    if inputs != [] && w.status.Running? {
      var next := Step(w, inputs[0]);
      if next.status.Panicked? {
        StoppedStays(next, inputs[1..], last);
      } else {
        StepKeepsTracked(w, inputs[0]);
        OrderKeptIff(w, inputs[0]);
        if InOrder(next) {
          BlocksInOrderIff(next, inputs[1..], last);
        } else {
          DisorderStays(next, inputs[1..], last);
        }
      }
    } else if inputs != [] {
      StoppedStays(w, inputs, last);
    }
  }

  lemma {:induction false} DisorderStays(w: World, inputs: seq<Input>, last: World)
    requires Tracked(w) && !InOrder(w) && RunsTo(w, inputs, last) && !last.status.Panicked?
    ensures !InOrder(last)
    decreases |inputs|
  {
    if inputs != [] && w.status.Running? {
      var next := Step(w, inputs[0]);
      if next.status.Panicked? {
        StoppedStays(next, inputs[1..], last);
      } else {
        StepKeepsTracked(w, inputs[0]);
        OrderKeptIff(w, inputs[0]);
        if Fits(w, inputs[0]) {
          FitsKeepsPrefix(w, inputs[0]);
        }
        DisorderStays(next, inputs[1..], last);
      }
    } else if inputs != [] {
      StoppedStays(w, inputs, last);
    }
  }

  lemma NewWorldIsTracked(maxStreams: nat)
    ensures Tracked(NewWorld(maxStreams)) && InOrder(NewWorld(maxStreams))
  {
    NewWorldIsGood(maxStreams);
  }
}
