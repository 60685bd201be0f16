/** What a run of the scheduler does to one stream: a closed form of its two loops,
    whatever the order in which streams are visited. */
module H2Scheduler {
  import opened Common
  import opened Frames
  import opened H2State
  import opened H2Machine
  import opened H2Lifecycle

  // ---- A stream as a sender ----

  /** Not opened yet; still sending; finished sending; closed. */
  datatype Side = Fresh | Live(o: Outgoing) | LocalDone | Gone {
    predicate Over() {
      LocalDone? || Gone?
    }
  }

  function SideOf(w: World, id: StreamId): Side {
    if id !in w.conn.streams then if id in w.logs then Gone else Fresh
    else if w.conn.streams[id].HasOutgoing() then Live(w.conn.streams[id].outgoing)
    else LocalDone
  }

  // ---- The frames of one stream ----

  /** Frames that carry a response. */
  predicate Carries(p: Packet, id: StreamId) {
    p.frame.streamId == id && (p.frame.ty.Headers? || p.frame.ty.Continuation? || p.frame.ty.Data?)
  }

  function Own(packets: seq<Packet>, id: StreamId): seq<Packet>
    decreases |packets|
  {
    if packets == [] then []
    else if Carries(packets[0], id) then [packets[0]] + Own(packets[1..], id)
    else Own(packets[1..], id)
  }

  lemma {:induction false} OwnAppend(a: seq<Packet>, b: seq<Packet>, id: StreamId)
    ensures Own(a + b, id) == Own(a, id) + Own(b, id)
    decreases |a|
  {
    if a == [] {
      assert a + b == b;
    } else {
      assert (a + b)[0] == a[0] && (a + b)[1..] == a[1..] + b;
      OwnAppend(a[1..], b, id);
    }
  }

  /** Every frame carries the response of stream `id`. */
  ghost predicate AllOf(packets: seq<Packet>, id: StreamId) {
    forall i :: 0 <= i < |packets| ==> Carries(packets[i], id)
  }

  lemma {:induction false} OwnOfAll(packets: seq<Packet>, at: StreamId, id: StreamId)
    requires AllOf(packets, at)
    ensures Own(packets, id) == if at == id then packets else []
    decreases |packets|
  {
    if packets != [] {
      OwnOfAll(packets[1..], at, id);
      assert packets == [packets[0]] + packets[1..];
    }
  }

  /** Bytes that count against the windows. */
  function DataLength(p: Packet): nat {
    if p.frame.ty.Data? then |p.payload| else 0
  }

  function DataBytes(packets: seq<Packet>): nat
    decreases |packets|
  {
    if packets == [] then 0 else DataLength(packets[0]) + DataBytes(packets[1..])
  }

  lemma {:induction false} DataBytesAppend(a: seq<Packet>, b: seq<Packet>)
    ensures DataBytes(a + b) == DataBytes(a) + DataBytes(b)
    decreases |a|
  {
    if a == [] {
      assert a + b == b;
    } else {
      assert (a + b)[0] == a[0] && (a + b)[1..] == a[1..] + b;
      DataBytesAppend(a[1..], b);
    }
  }

  predicate Ends(p: Packet) {
    p.frame.ty.Data? && p.frame.ty.endStream
  }

  predicate HasEnd(packets: seq<Packet>)
    decreases |packets|
  {
    packets != [] && (Ends(packets[0]) || HasEnd(packets[1..]))
  }

  lemma {:induction false} HasEndAppend(a: seq<Packet>, b: seq<Packet>)
    ensures HasEnd(a + b) <==> HasEnd(a) || HasEnd(b)
    decreases |a|
  {
    if a == [] {
      assert a + b == b;
    } else {
      assert (a + b)[0] == a[0] && (a + b)[1..] == a[1..] + b;
      HasEndAppend(a[1..], b);
    }
  }

  lemma OwnStep(packets: seq<Packet>, id: StreamId)
    requires packets != []
    ensures var own, rest := Own(packets, id), Own(packets[1..], id);
            && (HasEnd(own) <==> (Carries(packets[0], id) && Ends(packets[0])) || HasEnd(rest))
            && DataBytes(own) == DataBytes(rest) + if Carries(packets[0], id) then DataLength(packets[0]) else 0
  {
    if Carries(packets[0], id) {
      assert Own(packets, id)[1..] == Own(packets[1..], id);
    }
  }

  // ---- One turn's frames ----

  lemma {:induction false} HeaderPacketsShape(id: StreamId, pieces: seq<Bytes>, isContinuation: bool)
    ensures var packets := HeaderPackets(id, pieces, isContinuation);
            AllOf(packets, id) && DataBytes(packets) == 0 && !HasEnd(packets)
    decreases |pieces|
  {
    if pieces != [] {
      HeaderPacketsShape(id, pieces[1..], true);
      var packets := HeaderPackets(id, pieces, isContinuation);
      assert packets[1..] == HeaderPackets(id, pieces[1..], true);
    }
  }

  lemma {:induction false} DataPacketsShape(id: StreamId, pieces: seq<Bytes>, ends: bool)
    ensures var packets := DataPackets(id, pieces, ends);
            && AllOf(packets, id) && DataBytes(packets) == |Flatten(pieces)|
            && (HasEnd(packets) <==> ends && pieces != [])
    decreases |pieces|
  {
    if pieces != [] {
      DataPacketsShape(id, pieces[1..], ends);
      var packets := DataPackets(id, pieces, ends);
      assert packets[1..] == DataPackets(id, pieces[1..], ends);
    }
  }

  lemma BodyPacketsShape(id: StreamId, body: BodyOutgoing, capacity: nat, maxFrame: FrameSize)
    ensures var packets := BodyPackets(id, body, capacity, maxFrame);
            && AllOf(packets, id) && DataBytes(packets) == TurnBytes(body, capacity)
            && (HasEnd(packets) <==> TurnEnds(body, capacity))
  {
    var n := TurnBytes(body, capacity);
    var pieces := Chunks(body.Queued()[..n], maxFrame);
    ChunksPartition(body.Queued()[..n], maxFrame);
    DataPacketsShape(id, pieces, TurnEnds(body, capacity));
  }

  /** A turn's frames belong to its stream, carry the bytes the turn takes, and end
      the stream exactly when the turn does. */
  lemma TurnShape(id: StreamId, o: Outgoing, connCapacity: int, maxFrame: FrameSize)
    ensures var packets := TurnPackets(id, o, connCapacity, maxFrame);
            var capacity := Usable(connCapacity, o.capacity);
            && AllOf(packets, id) && DataBytes(packets) == TurnBytes(o.body, capacity)
            && (HasEnd(packets) <==> TurnEnds(o.body, capacity))
  {
    var block := BlockPackets(id, o.headers, maxFrame);
    var data := BodyPackets(id, o.body, Usable(connCapacity, o.capacity), maxFrame);
    if o.headers.WroteNone? || o.headers.WroteSome? {
      HeaderPacketsShape(id, Chunks(o.headers.piece, maxFrame), o.headers.WroteSome?);
    }
    BodyPacketsShape(id, o.body, Usable(connCapacity, o.capacity), maxFrame);
    DataBytesAppend(block, data);
    HasEndAppend(block, data);
  }

  // ---- The second loop ----

  /** What writing these frames of its own does to a stream. */
  predicate Written(before: Side, own: seq<Packet>, after: Side) {
    if HasEnd(own) then after.Over()
    else if before.Live? then after == Live(before.o.(capacity := before.o.capacity - DataBytes(own)))
    else after == before
  }

  /** What the scheduler leaves alone. */
  predicate SameSettings(w: World, next: World) {
    && next.logs == w.logs && next.connIncrements == w.connIncrements && next.encoded == w.encoded
    && next.conn == w.conn.(streams := next.conn.streams, pending := next.conn.pending,
                            outgoingCapacity := next.conn.outgoingCapacity)
  }

  lemma WriteFrameEffect(w: World, p: Packet, id: StreamId)
    requires IdOk(w, id) && w.status.Running?
    requires WriteFrame(w, p).status.Running?
    ensures var next := WriteFrame(w, p);
            && next.wire == w.wire + [p] && SameSettings(w, next)
            && next.conn.outgoingCapacity == w.conn.outgoingCapacity - DataLength(p)
            && (p.frame.ty.Data? ==> next.conn.outgoingCapacity >= 0)
            && (id in next.conn.pending <==> id in w.conn.pending && !(Carries(p, id) && Ends(p)))
  {
  }

  lemma WriteFrameSide(w: World, p: Packet, id: StreamId)
    requires IdOk(w, id) && w.status.Running?
    requires WriteFrame(w, p).status.Running?
    ensures var before, after := SideOf(w, id), SideOf(WriteFrame(w, p), id);
            && (!Carries(p, id) ==> after == before)
            && (Carries(p, id) && Ends(p) ==> before.Live? && after.Over())
            && (Carries(p, id) && !Ends(p) && before.Live? ==>
                  after == Live(before.o.(capacity := before.o.capacity - DataLength(p))))
            && (Carries(p, id) && !before.Live? ==> !p.frame.ty.Data? && after == before)
            && (Carries(p, id) && p.frame.ty.Data? && before.Live? ==> before.o.capacity - DataLength(p) >= 0)
  {
  }

  lemma {:induction false} WriteAllKeepsPanic(w: World, packets: seq<Packet>)
    requires !w.status.Running?
    ensures WriteAll(w, packets) == w
    decreases |packets|
  {
    if packets != [] {
      WriteAllKeepsPanic(w, packets[1..]);
    }
  }

  /** The windows after the frames were written, and the wire. */
  lemma {:induction false} WriteAllEffect(w: World, packets: seq<Packet>, id: StreamId)
    requires IdOk(w, id) && WriteAll(w, packets).status.Running?
    ensures var next := WriteAll(w, packets);
            && next.wire == w.wire + packets && SameSettings(w, next)
            && next.conn.outgoingCapacity == w.conn.outgoingCapacity - DataBytes(packets)
            && (w.conn.outgoingCapacity >= 0 ==> next.conn.outgoingCapacity >= 0)
            && (id in next.conn.pending <==> id in w.conn.pending && !HasEnd(Own(packets, id)))
    decreases |packets|
  {
    if !w.status.Running? {
      WriteAllKeepsPanic(w, packets);
    } else if packets == [] {
      assert w.wire + packets == w.wire;
    } else {
      var next := WriteFrame(w, packets[0]);
      if !next.status.Running? {
        WriteAllKeepsPanic(next, packets[1..]);
      } else {
        WriteFrameEffect(w, packets[0], id);
        WriteMoves(w, packets[0], id);
        WriteAllEffect(next, packets[1..], id);
        assert w.wire + [packets[0]] + packets[1..] == w.wire + packets;
        OwnStep(packets, id);
      }
    }
  }

  lemma {:induction false} WriteAllSide(w: World, packets: seq<Packet>, id: StreamId)
    requires IdOk(w, id) && WriteAll(w, packets).status.Running?
    ensures Written(SideOf(w, id), Own(packets, id), SideOf(WriteAll(w, packets), id))
    ensures var before := SideOf(w, id);
            before.Live? && before.o.capacity < 0 ==> DataBytes(Own(packets, id)) == 0 && !HasEnd(Own(packets, id))
    decreases |packets|
  {
    if !w.status.Running? {
      WriteAllKeepsPanic(w, packets);
    } else if packets != [] {
      var next := WriteFrame(w, packets[0]);
      if !next.status.Running? {
        WriteAllKeepsPanic(next, packets[1..]);
      } else {
        WriteFrameSide(w, packets[0], id);
        WriteMoves(w, packets[0], id);
        WriteAllSide(next, packets[1..], id);
        OwnStep(packets, id);
      }
    }
  }

  // ---- The first loop ----

  lemma {:induction false} QueueAllKeepsPanic(q: Queueing, order: seq<StreamId>)
    requires !q.world.status.Running?
    ensures QueueAll(q, order) == q
    decreases |order|
  {
    if order != [] {
      QueueAllKeepsPanic(q, order[1..]);
    }
  }

  /** What the first loop does to a stream, visited or not. */
  predicate Queued(q: Queueing, next: Queueing, id: StreamId, visited: bool) {
    var conn, before, after := q.world.conn, SideOf(q.world, id), SideOf(next.world, id);
    if visited && before.Live? && !before.o.headers.WaitingForHeaders? then
      && after == Live(AfterTurn(before.o, conn.outgoingCapacity))
      && Own(next.frames, id) == Own(q.frames, id) + TurnPackets(id, before.o, conn.outgoingCapacity, conn.maxFrameSize)
      && (id in next.notPending <==> id in q.notPending)
    else
      && (visited ==> before.Live?)
      && after == before && Own(next.frames, id) == Own(q.frames, id)
      && (id in next.notPending <==> visited || id in q.notPending)
  }

  /** The first loop touches streams only. */
  predicate StreamsOnly(w: World, next: World) {
    next == w.(conn := w.conn.(streams := next.conn.streams))
  }

  lemma QueueTurnEffect(q: Queueing, at: StreamId, id: StreamId)
    requires q.world.status.Running? && QueueTurn(q, at).world.status.Running?
    ensures Queued(q, QueueTurn(q, at), id, at == id) && StreamsOnly(q.world, QueueTurn(q, at).world)
  {
    var conn := q.world.conn;
    if !conn.Out(at).headers.WaitingForHeaders? {
      var packets := TurnPackets(at, conn.Out(at), conn.outgoingCapacity, conn.maxFrameSize);
      TurnShape(at, conn.Out(at), conn.outgoingCapacity, conn.maxFrameSize);
      OwnAppend(q.frames, packets, id);
      OwnOfAll(packets, at, id);
    }
  }

  ghost predicate Distinct(order: seq<StreamId>) {
    forall i, j :: 0 <= i < j < |order| ==> order[i] != order[j]
  }

  lemma {:induction false} QueueAllEffect(q: Queueing, order: seq<StreamId>, id: StreamId)
    requires Distinct(order) && q.world.status.Running? && QueueAll(q, order).world.status.Running?
    ensures Queued(q, QueueAll(q, order), id, id in order) && StreamsOnly(q.world, QueueAll(q, order).world)
    decreases |order|
  {
    if order != [] {
      var next := QueueTurn(q, order[0]);
      if !next.world.status.Running? {
        QueueAllKeepsPanic(next, order[1..]);
      } else {
        QueueTurnEffect(q, order[0], id);
        QueueAllEffect(next, order[1..], id);
      }
    }
  }

  // ---- Both loops ----

  /** The scheduler has something to do for a stream. */
  predicate Ready(w: World, id: StreamId) {
    && w.conn.outgoingCapacity > 0 && id in w.conn.pending
    && SideOf(w, id).Live? && !SideOf(w, id).o.headers.WaitingForHeaders?
  }

  function Capacity(w: World, o: Outgoing): nat {
    Usable(w.conn.outgoingCapacity, o.capacity)
  }

  /** A stream that is ready sends its header block, then as much of its body as
      both windows allow; the rest stays as it was. */
  predicate Served(w: World, next: World, id: StreamId, own: seq<Packet>) {
    var before, after := SideOf(w, id), SideOf(next, id);
    if Ready(w, id) then
      && own == TurnPackets(id, before.o, w.conn.outgoingCapacity, w.conn.maxFrameSize)
      && (before.o.capacity < 0 ==> TurnBytes(before.o.body, Capacity(w, before.o)) == 0
                                    && !TurnEnds(before.o.body, Capacity(w, before.o)))
      && if TurnEnds(before.o.body, Capacity(w, before.o)) then after.Over() && id !in next.conn.pending
         else
           && after == Live(AfterTurn(before.o, w.conn.outgoingCapacity).(
                              capacity := before.o.capacity - TurnBytes(before.o.body, Capacity(w, before.o))))
           && id in next.conn.pending
    else
      && own == [] && after == before
      && (id in next.conn.pending <==> id in w.conn.pending && w.conn.outgoingCapacity <= 0)
  }

  lemma SchedulerEffect(w: World, order: seq<StreamId>, id: StreamId)
    requires IdOk(w, id) && w.status.Running? && Enumerates(order, w.conn.pending)
    requires SendDataMaybe(w, order).status.Running?
    ensures var next, frames := SendDataMaybe(w, order), QueuePending(w, order).frames;
            && next.wire == w.wire + frames && SameSettings(w.(conn := w.conn.(notify := false)), next)
            && next.conn.outgoingCapacity == w.conn.outgoingCapacity - DataBytes(frames)
            && (w.conn.outgoingCapacity >= 0 ==> next.conn.outgoingCapacity >= 0)
            && Served(w, next, id, Own(frames, id))
  {
    var q := QueuePending(w, order);
    var start := Queueing(w.(conn := w.conn.(notify := false)), [], {});
    if !q.world.status.Running? {
      WriteAllKeepsPanic(q.world, q.frames);
    } else {
      if w.conn.outgoingCapacity > 0 {
        QueueAllEffect(start, order, id);
        QueueMoves(start, order, id);
      }
      WriteAllEffect(q.world, q.frames, id);
      WriteAllSide(q.world, q.frames, id);
      TurnIsServed(w, q, WriteAll(q.world, q.frames), SendDataMaybe(w, order), id);
    }
  }

  /** What the two loops left behind, put together. */
  ghost predicate TwoLoops(w: World, q: Queueing, written: World, next: World, id: StreamId) {
    var own, side := Own(q.frames, id), SideOf(q.world, id);
    && Queued(Queueing(w.(conn := w.conn.(notify := false)), [], {}), q, id, w.conn.outgoingCapacity > 0 && id in w.conn.pending)
    && Written(side, own, SideOf(written, id))
    && (id in written.conn.pending <==> id in w.conn.pending && !HasEnd(own))
    && SideOf(next, id) == SideOf(written, id)
    && next.conn.pending == written.conn.pending - q.notPending
    && (side.Live? && side.o.capacity < 0 ==> DataBytes(own) == 0 && !HasEnd(own))
  }

  lemma TurnIsServed(w: World, q: Queueing, written: World, next: World, id: StreamId)
    requires TwoLoops(w, q, written, next, id)
    ensures Served(w, next, id, Own(q.frames, id))
  {
    if Ready(w, id) {
      ReadyIsServed(w, q, written, next, id);
    } else {
      assert Own([], id) == [];
    }
  }

  lemma ReadyIsServed(w: World, q: Queueing, written: World, next: World, id: StreamId)
    requires TwoLoops(w, q, written, next, id) && Ready(w, id)
    ensures Served(w, next, id, Own(q.frames, id))
  {
    var o, own := SideOf(w, id).o, Own(q.frames, id);
    var turn := TurnPackets(id, o, w.conn.outgoingCapacity, w.conn.maxFrameSize);
    assert own == [] + turn == turn;
    assert SideOf(q.world, id) == Live(AfterTurn(o, w.conn.outgoingCapacity));
    TurnServes(w, next, id, own);
  }

  lemma TurnServes(w: World, next: World, id: StreamId, own: seq<Packet>)
    requires Ready(w, id)
    requires var o := SideOf(w, id).o;
             && own == TurnPackets(id, o, w.conn.outgoingCapacity, w.conn.maxFrameSize)
             && Written(Live(AfterTurn(o, w.conn.outgoingCapacity)), own, SideOf(next, id))
             && (id in next.conn.pending <==> !HasEnd(own))
             && (o.capacity < 0 ==> DataBytes(own) == 0 && !HasEnd(own))
    ensures Served(w, next, id, own)
  {
    TurnShape(id, SideOf(w, id).o, w.conn.outgoingCapacity, w.conn.maxFrameSize);
  }
}
