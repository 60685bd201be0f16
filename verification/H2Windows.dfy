/** Flow control is an account: every window is what the peer granted minus what
    was sent (section 6.9 of RFC 9113). */
module H2Windows {
  import opened Common
  import opened Frames
  import opened H2State
  import opened H2Machine
  import opened H2Lifecycle
  import opened H2Scheduler
  import opened H2Effects
  import opened H2Delivery

  /** DATA bytes of one stream on the wire. */
  function Sent(w: World, id: StreamId): nat {
    DataBytes(Own(w.wire, id))
  }

  /** A stream window is the initial window the peer has set now, plus the increments
      it sent, minus the bytes sent to it. It may be negative, but no more than the
      largest initial window. */
  predicate WindowOk(w: World, id: StreamId) {
    match SideOf(w, id)
    case Fresh => Sent(w, id) == 0
    case Live(o) =>
      && o.capacity == w.conn.initialWindow + LogOf(w, id).increments - Sent(w, id)
      && -MAX_INITIAL_WINDOW <= LogOf(w, id).increments - Sent(w, id)
      && o.capacity <= MAX_WINDOW_SIZE
    case _ => true
  }

  /** The connection window is its first size plus increments minus all bytes sent. */
  predicate ConnWindowOk(w: World) {
    && w.conn.outgoingCapacity == DEFAULT_WINDOW + w.connIncrements - DataBytes(w.wire)
    && 0 <= w.conn.outgoingCapacity <= MAX_WINDOW_SIZE
    && w.conn.initialWindow <= MAX_INITIAL_WINDOW
  }

  lemma WindowRange(w: World, id: StreamId)
    requires WindowOk(w, id) && ConnWindowOk(w) && w.conn.HasOutgoing(id)
    ensures -MAX_INITIAL_WINDOW <= w.conn.Out(id).capacity <= MAX_WINDOW_SIZE
  {
  }

  lemma PeerKeepsWindow(w: World, next: World, id: StreamId)
    requires PeerEffect(w, next, id) && WindowOk(w, id) && ConnWindowOk(w) && (SideOf(w, id).Fresh? ==> LogOf(w, id) == NoLog())
    ensures WindowOk(next, id) && ConnWindowOk(next)
  {
  }

  lemma EventKeepsWindow(w: World, at: StreamId, payload: EventPayload)
    requires at in w.logs && WindowOk(w, at)
    ensures WindowOk(HandleEvent(w, at, payload), at)
  {
  }

  /** A turn takes no more than the stream window. */
  lemma TurnFitsWindow(w: World, o: Outgoing)
    requires w.conn.outgoingCapacity > 0 && o.capacity >= 0
    ensures TurnBytes(o.body, Capacity(w, o)) <= Capacity(w, o) == Min(w.conn.outgoingCapacity, o.capacity)
  {
  }

  lemma ScheduleKeepsWindow(w: World, order: seq<StreamId>, id: StreamId)
    requires IdOk(w, id) && w.status.Running? && Enumerates(order, w.conn.pending)
    requires WindowOk(w, id) && ConnWindowOk(w) && SendDataMaybe(w, order).status.Running?
    ensures WindowOk(SendDataMaybe(w, order), id) && ConnWindowOk(SendDataMaybe(w, order))
  {
    SchedulerEffect(w, order, id);
    var frames, before := QueuePending(w, order).frames, SideOf(w, id);
    OwnAppend(w.wire, frames, id);
    DataBytesAppend(w.wire, frames);
    DataBytesAppend(Own(w.wire, id), Own(frames, id));
    if Ready(w, id) {
      TurnShape(id, before.o, w.conn.outgoingCapacity, w.conn.maxFrameSize);
      if before.o.capacity >= 0 {
        TurnFitsWindow(w, before.o);
      }
    }
  }

  /** The bytes charged to a stream are the body bytes its peer reads. */
  lemma {:induction false} SentIsBody(t: Trace, packets: seq<Packet>)
    requires !Follow(t, packets).Malformed?
    ensures |BodyOf(Follow(t, packets))| == |BodyOf(t)| + DataBytes(packets)
    decreases |packets|
  {
    if packets != [] {
      var next := Accept(t, packets[0].frame.ty, packets[0].payload);
      if next.Malformed? {
        MalformedStays(packets[1..]);
      } else {
        SentIsBody(next, packets[1..]);
      }
    }
  }

  function BodyOf(t: Trace): Bytes {
    if t.BodyPart? || t.Ended? then t.body else []
  }

  lemma {:induction false} MalformedStays(packets: seq<Packet>)
    ensures Follow(Malformed, packets) == Malformed
    decreases |packets|
  {
    if packets != [] {
      MalformedStays(packets[1..]);
    }
  }
}
