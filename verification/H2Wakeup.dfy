/** No wake-up is lost: whenever the scheduler could send something, its permit is
    set. */
module H2Wakeup {
  import opened Common
  import opened Frames
  import opened H2State
  import opened H2Machine
  import opened H2Lifecycle
  import opened H2Scheduler
  import opened H2Effects

  /** Unsent headers, queued body pieces, or an unsent END_STREAM. */
  predicate Work(o: Outgoing) {
    o.headers.WroteNone? || o.headers.WroteSome? || o.body.Pieces() != [] || o.body.DoneReceiving?
  }

  predicate WakeOk(w: World, id: StreamId) {
    MaySend(w, id) && Work(SideOf(w, id).o) ==> w.conn.notify
  }

  /** A stream that has its headers stays pending while it sends. */
  predicate PendingOk(w: World, id: StreamId) {
    SideOf(w, id).Live? && !SideOf(w, id).o.headers.WaitingForHeaders? ==> id in w.conn.pending
  }

  lemma PeerKeepsPending(w: World, next: World, id: StreamId)
    requires PeerMoved(w, next, id) && PeerWoke(w, next, id) && PendingOk(w, id)
    ensures PendingOk(next, id)
  {
  }

  lemma EventKeepsPending(w: World, at: StreamId, payload: EventPayload, id: StreamId)
    requires at in w.logs && PendingOk(w, id)
    ensures PendingOk(HandleEvent(w, at, payload), id)
  {
  }

  lemma ScheduleKeepsPending(w: World, order: seq<StreamId>, id: StreamId)
    requires IdOk(w, id) && w.status.Running? && Enumerates(order, w.conn.pending)
    requires PendingOk(w, id) && SendDataMaybe(w, order).status.Running?
    ensures PendingOk(SendDataMaybe(w, order), id)
  {
    SchedulerEffect(w, order, id);
  }

  lemma PeerKeepsWake(w: World, next: World, id: StreamId)
    requires PeerMoved(w, next, id) && PeerWoke(w, next, id) && WakeOk(w, id)
    ensures WakeOk(next, id)
  {
  }

  lemma EventKeepsWake(w: World, at: StreamId, payload: EventPayload)
    requires at in w.logs && WakeOk(w, at)
    ensures WakeOk(HandleEvent(w, at, payload), at)
  {
  }

  lemma EventSparesWake(w: World, at: StreamId, payload: EventPayload, id: StreamId)
    requires at in w.logs && WakeOk(w, id) && id != at
    ensures WakeOk(HandleEvent(w, at, payload), id)
  {
  }

  /** Exactly when an event wakes the scheduler: headers and chunks if both windows are open,
      the end of a body if nothing is queued before it. */
  lemma EventWakesExactly(w: World, at: StreamId, payload: EventPayload)
    requires at in w.logs && w.conn.HasOutgoing(at) && w.status.Running? && HandleEvent(w, at, payload).status.Running?
    ensures HandleEvent(w, at, payload).conn.notify <==>
            || w.conn.notify
            || (payload.BodyEnd? && w.conn.Out(at).body.Pieces() == [])
            || (!payload.BodyEnd? && w.conn.outgoingCapacity > 0 && w.conn.Out(at).capacity > 0)
    ensures HandleEvent(w, at, payload).conn.pending == w.conn.pending + (if payload.BodyEnd? then {} else {at})
  {
  }

  /** A turn that leaves work behind has used up one of the windows. */
  lemma TurnLeavesWork(o: Outgoing, connCapacity: int)
    requires connCapacity > 0 && o.capacity >= 0 && !o.body.DoneSending?
    requires !TurnEnds(o.body, Usable(connCapacity, o.capacity)) && Work(AfterTurn(o, connCapacity))
    ensures TurnBytes(o.body, Usable(connCapacity, o.capacity)) == Min(connCapacity, o.capacity)
  {
    var capacity := Usable(connCapacity, o.capacity);
    AdvanceDrops(o.body.pieces, TurnBytes(o.body, capacity));
  }

  lemma {:induction false} OwnBytesBounded(packets: seq<Packet>, id: StreamId)
    ensures DataBytes(Own(packets, id)) <= DataBytes(packets)
    decreases |packets|
  {
    if packets != [] {
      OwnBytesBounded(packets[1..], id);
      OwnStep(packets, id);
    }
  }

  /** After a run no stream is left that could still send. */
  lemma ScheduleKeepsWake(w: World, order: seq<StreamId>, id: StreamId)
    requires IdOk(w, id) && w.status.Running? && Enumerates(order, w.conn.pending)
    requires SideOf(w, id).Live? ==> !SideOf(w, id).o.body.DoneSending?
    requires SendDataMaybe(w, order).status.Running?
    ensures WakeOk(SendDataMaybe(w, order), id)
  {
    SchedulerEffect(w, order, id);
    var next, frames, before := SendDataMaybe(w, order), QueuePending(w, order).frames, SideOf(w, id);
    OwnBytesBounded(frames, id);
    if MaySend(next, id) && Work(SideOf(next, id).o) && Ready(w, id) {
      TurnShape(id, before.o, w.conn.outgoingCapacity, w.conn.maxFrameSize);
      TurnLeavesWork(before.o, w.conn.outgoingCapacity);
    }
  }
}
