/** Responses are delivered: for every stream, what is on the wire is HEADERS,
    CONTINUATIONs and DATA of exactly what its handler gave, in order. */
module H2Delivery {
  import opened Common
  import opened Frames
  import opened H2State
  import opened H2Machine
  import opened H2Lifecycle
  import opened H2Scheduler
  import opened H2Effects

  // ---- Reading a response as the peer does ----

  /** How far a response on the wire has come, as a receiver sees it. */
  datatype Trace =
    | NoFrames
    | HeadersPart(part: Bytes)
    | BodyPart(block: Bytes, body: Bytes)
    | Ended(block: Bytes, body: Bytes)
    | Malformed

  /** HEADERS, then CONTINUATIONs until END_HEADERS, then DATA, empty only with
      END_STREAM, and nothing after END_STREAM; nothing is padded or has a priority. */
  function Accept(t: Trace, ty: FrameType, payload: Bytes): Trace {
    match (t, ty)
    case (NoFrames, Headers(false, false, endHeaders, false)) =>
      if endHeaders then BodyPart(payload, []) else HeadersPart(payload)
    case (HeadersPart(part), Continuation(endHeaders)) =>
      if endHeaders then BodyPart(part + payload, []) else HeadersPart(part + payload)
    case (BodyPart(block, body), Data(false, endStream)) =>
      if endStream then Ended(block, body + payload)
      else if payload != [] then BodyPart(block, body + payload)
      else Malformed
    case _ => Malformed
  }

  function Follow(t: Trace, packets: seq<Packet>): Trace
    decreases |packets|
  {
    if packets == [] then t else Follow(Accept(t, packets[0].frame.ty, packets[0].payload), packets[1..])
  }

  /** The response of stream `id` on a wire. */
  function TraceOf(wire: seq<Packet>, id: StreamId): Trace {
    Follow(NoFrames, Own(wire, id))
  }

  lemma {:induction false} FollowAppend(t: Trace, a: seq<Packet>, b: seq<Packet>)
    ensures Follow(t, a + b) == Follow(Follow(t, a), b)
    decreases |a|
  {
    if a == [] {
      assert a + b == b;
    } else {
      assert (a + b)[0] == a[0] && (a + b)[1..] == a[1..] + b;
      FollowAppend(Accept(t, a[0].frame.ty, a[0].payload), a[1..], b);
    }
  }

  lemma TraceAppend(wire: seq<Packet>, more: seq<Packet>, id: StreamId)
    ensures TraceOf(wire + more, id) == Follow(TraceOf(wire, id), Own(more, id))
  {
    OwnAppend(wire, more, id);
    FollowAppend(NoFrames, Own(wire, id), Own(more, id));
  }

  // ---- What one turn of a stream puts on the wire ----

  lemma {:induction false} FollowContinuations(part: Bytes, pieces: seq<Bytes>, id: StreamId)
    requires pieces != []
    ensures Follow(HeadersPart(part), HeaderPackets(id, pieces, true)) == BodyPart(part + Flatten(pieces), [])
    decreases |pieces|
  {
    var packets := HeaderPackets(id, pieces, true);
    assert packets[1..] == HeaderPackets(id, pieces[1..], true);
    if |pieces| == 1 {
      FlattenSingle(pieces[0]);
      assert pieces == [pieces[0]] && packets[1..] == [];
    } else {
      FollowContinuations(part + pieces[0], pieces[1..], id);
      Reassociate(part, pieces[0], Flatten(pieces[1..]));
    }
  }

  /** The frames of a header block are read as that block. */
  lemma FollowBlock(id: StreamId, block: Bytes, maxFrame: FrameSize)
    ensures Follow(NoFrames, BlockPackets(id, WroteNone(block), maxFrame)) == BodyPart(block, [])
  {
    var pieces := Chunks(block, maxFrame);
    var packets := HeaderPackets(id, pieces, false);
    ChunksPartition(block, maxFrame);
    assert packets[1..] == HeaderPackets(id, pieces[1..], true);
    if |pieces| == 1 {
      FlattenSingle(pieces[0]);
      assert pieces == [pieces[0]] && packets[1..] == [];
    } else {
      FollowContinuations(pieces[0], pieces[1..], id);
    }
  }

  lemma {:induction false} FollowData(block: Bytes, body: Bytes, id: StreamId, pieces: seq<Bytes>, ends: bool)
    requires pieces != []
    requires forall i :: 0 <= i < |pieces| ==> pieces[i] != [] || (ends && |pieces| == 1)
    ensures Follow(BodyPart(block, body), DataPackets(id, pieces, ends)) ==
            if ends then Ended(block, body + Flatten(pieces)) else BodyPart(block, body + Flatten(pieces))
    decreases |pieces|
  {
    var packets := DataPackets(id, pieces, ends);
    assert packets[1..] == DataPackets(id, pieces[1..], ends);
    if |pieces| == 1 {
      FlattenSingle(pieces[0]);
      assert pieces == [pieces[0]] && packets[1..] == [];
    } else {
      FollowData(block, body + pieces[0], id, pieces[1..], ends);
      Reassociate(body, pieces[0], Flatten(pieces[1..]));
    }
  }

  lemma FollowTaken(block: Bytes, body: Bytes, id: StreamId, taken: Bytes, ends: bool, maxFrame: FrameSize)
    requires taken != [] || ends
    ensures Follow(BodyPart(block, body), DataPackets(id, Chunks(taken, maxFrame), ends)) ==
            if ends then Ended(block, body + taken) else BodyPart(block, body + taken)
  {
    ChunksPartition(taken, maxFrame);
    FollowData(block, body, id, Chunks(taken, maxFrame), ends);
  }

  /** The DATA frames of a turn are read as the bytes it takes, and as the end of
      the stream exactly when the turn ends it. */
  lemma FollowTurnData(block: Bytes, body: Bytes, id: StreamId, b: BodyOutgoing, capacity: nat, maxFrame: FrameSize)
    ensures Follow(BodyPart(block, body), BodyPackets(id, b, capacity, maxFrame)) ==
            var sent := body + b.Queued()[..TurnBytes(b, capacity)];
            if TurnEnds(b, capacity) then Ended(block, sent) else BodyPart(block, sent)
  {
    var n := TurnBytes(b, capacity);
    if b.DoneSending? || capacity == 0 || (n == 0 && !TurnEnds(b, capacity)) {
      assert body + b.Queued()[..n] == body;
    } else {
      FollowTaken(block, body, id, b.Queued()[..n], TurnEnds(b, capacity), maxFrame);
    }
  }

  /** Bytes taken and bytes left are the bytes there were. */
  lemma TurnKeepsBytes(b: BodyOutgoing, capacity: nat)
    ensures var after := BodyAfterTurn(b, capacity);
            && b.Queued()[..TurnBytes(b, capacity)] + after.Queued() == b.Queued()
            && (TurnEnds(b, capacity) ==> after.DoneSending?)
            && (!TurnEnds(b, capacity) && !b.DoneSending? ==> after == b.WithPieces(after.Pieces()))
  {
    var n := TurnBytes(b, capacity);
    if b.DoneSending? || capacity == 0 {
      assert b.Queued()[..n] == [];
    } else {
      AdvanceDrops(b.pieces, n);
      assert b.Queued()[..n] + b.Queued()[n..] == b.Queued();
      if TurnEnds(b, capacity) {
        assert b.Queued()[..n] + [] == b.Queued();
      }
    }
  }

  // ---- The delivery invariant ----

  /** A stream that still sends: what its encoder gave is what is on the wire and
      what is queued. */
  predicate Sending(o: Outgoing, log: Log, t: Trace) {
    && !o.body.DoneSending?
    && (log.ended <==> o.body.DoneReceiving?)
    && log.phase == (if log.ended then ResponseDone else if log.block.Some? then ExpectResponseBody else ExpectResponseHeaders)
    && match o.headers
       case WaitingForHeaders => t == NoFrames && log.block == None && !log.ended && o.body.Pieces() == [] && log.body == []
       case WroteNone(block) => t == NoFrames && log.block == Some(block) && o.body.Queued() == log.body
       case WroteSome(_) => false
       case WroteAll => t.BodyPart? && log.block == Some(t.block) && t.body + o.body.Queued() == log.body
  }

  /** The whole response was sent. */
  predicate Complete(log: Log, t: Trace) {
    t.Ended? && log.ended && log.block == Some(t.block) && log.body == t.body
  }

  /** Part of the response was sent, and nothing else. */
  predicate CutShort(log: Log, t: Trace) {
    || t.NoFrames?
    || (t.BodyPart? && log.block == Some(t.block) && t.body <= log.body)
  }

  predicate Delivered(side: Side, log: Log, t: Trace) {
    match side
    case Fresh => log == NoLog() && t.NoFrames?
    case Live(o) => Sending(o, log, t)
    case LocalDone => Complete(log, t)
    case Gone => Complete(log, t) || CutShort(log, t)
  }

  predicate DeliveryOk(w: World, id: StreamId) {
    Delivered(SideOf(w, id), LogOf(w, id), TraceOf(w.wire, id))
  }

  lemma PeerKeepsDelivery(w: World, next: World, id: StreamId)
    requires PeerMoved(w, next, id) && SameResponses(w, next, id) && DeliveryOk(w, id)
    ensures DeliveryOk(next, id)
  {
    var t := TraceOf(w.wire, id);
    if t.BodyPart? && SideOf(w, id).Live? {
      assert t.body <= t.body + SideOf(w, id).o.body.Queued();
    }
  }

  // ---- Events ----

  /** An event never finds a stream in a state it does not expect. */
  lemma EventKeepsDelivery(w: World, at: StreamId, payload: EventPayload)
    requires w.status.Running? && DeliveryOk(w, at) && Enabled(w, Event(at, payload))
    ensures HandleEvent(w, at, payload).status.Running? && DeliveryOk(HandleEvent(w, at, payload), at)
  {
    if w.conn.HasOutgoing(at) && payload.BodyChunk? {
      var body := w.conn.Out(at).body;
      FlattenSnoc(body.Pieces(), payload.piece);
      if TraceOf(w.wire, at).BodyPart? {
        Reassociate(TraceOf(w.wire, at).body, body.Queued(), payload.piece);
      }
    }
  }

  lemma EventSparesOthers(w: World, at: StreamId, payload: EventPayload, id: StreamId)
    requires at in w.logs && id != at
    ensures var next := HandleEvent(w, at, payload);
            next.wire == w.wire && SideOf(next, id) == SideOf(w, id) && LogOf(next, id) == LogOf(w, id)
  {
  }

  // ---- The scheduler ----

  /** A turn moves bytes from the queue to the wire. */
  lemma TurnDelivers(id: StreamId, o: Outgoing, log: Log, t: Trace, connCapacity: int, maxFrame: FrameSize)
    requires Sending(o, log, t) && !o.headers.WaitingForHeaders?
    ensures var t' := Follow(t, TurnPackets(id, o, connCapacity, maxFrame));
            if TurnEnds(o.body, Usable(connCapacity, o.capacity)) then Complete(log, t')
            else Sending(AfterTurn(o, connCapacity), log, t')
  {
    var capacity := Usable(connCapacity, o.capacity);
    var blocks, data := BlockPackets(id, o.headers, maxFrame), BodyPackets(id, o.body, capacity, maxFrame);
    FollowAppend(t, blocks, data);
    var block, body := log.block.value, if t.BodyPart? then t.body else [];
    if o.headers.WroteNone? {
      FollowBlock(id, block, maxFrame);
    }
    assert Follow(t, blocks) == BodyPart(block, body) && body + o.body.Queued() == log.body;
    FollowTurnData(block, body, id, o.body, capacity, maxFrame);
    TurnKeepsBytes(o.body, capacity);
    var taken, left := o.body.Queued()[..TurnBytes(o.body, capacity)], BodyAfterTurn(o.body, capacity).Queued();
    Reassociate(body, taken, left);
    if TurnEnds(o.body, capacity) {
      assert left == [] && taken + left == taken;
    }
  }

  lemma ScheduleKeepsDelivery(w: World, order: seq<StreamId>, id: StreamId)
    requires IdOk(w, id) && w.status.Running? && Enumerates(order, w.conn.pending) && DeliveryOk(w, id)
    requires SendDataMaybe(w, order).status.Running?
    ensures DeliveryOk(SendDataMaybe(w, order), id)
  {
    SchedulerEffect(w, order, id);
    var frames, before, t := QueuePending(w, order).frames, SideOf(w, id), TraceOf(w.wire, id);
    TraceAppend(w.wire, frames, id);
    if Ready(w, id) {
      TurnDelivers(id, before.o, LogOf(w, id), t, w.conn.outgoingCapacity, w.conn.maxFrameSize);
    }
  }
}
