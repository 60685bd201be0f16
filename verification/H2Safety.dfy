/** What holds in every state of every run of a connection that was not aborted, and
    which aborts are possible at all. */
module H2Safety {
  import opened Common
  import opened H2State
  import opened H2Machine
  import opened H2Lifecycle
  import opened H2Scheduler
  import opened H2Effects
  import opened H2Delivery
  import opened H2Windows
  import opened H2Wakeup
  import opened H2Aborts
  import opened H2Wire

  /** Everything that is kept for one stream id. */
  predicate StreamGood(w: World, id: StreamId) {
    IdOk(w, id) && DeliveryOk(w, id) && WindowOk(w, id) && WakeOk(w, id) && PendingOk(w, id)
  }

  ghost predicate Good(w: World) {
    SizeOk(w) && ConnWindowOk(w) && forall id {:trigger StreamGood(w, id)} :: StreamGood(w, id)
  }

  lemma NewWorldIsGood(maxStreams: nat)
    ensures Good(NewWorld(maxStreams))
  {
    var w := NewWorld(maxStreams);
    forall id: StreamId
      ensures StreamGood(w, id)
    {
      assert Own(w.wire, id) == [];
    }
  }

  // ---- One step ----

  lemma FrameKeepsGood(w: World, f: InFrame, id: StreamId)
    requires Good(w) && w.status.Running?
    ensures var next := ProcessFrame(w, f); StreamGood(next, id) && ConnWindowOk(next)
  {
    var next := ProcessFrame(w, f);
    assert StreamGood(w, id);
    if f.InWindowUpdate? {
      assert StreamGood(w, f.id);
    }
    FrameMoves(w, f, id);
    FrameEffect(w, f, id);
    PeerKeepsDelivery(w, next, id);
    PeerKeepsWindow(w, next, id);
    PeerKeepsWake(w, next, id);
    PeerKeepsPending(w, next, id);
  }

  lemma EventKeepsGood(w: World, at: StreamId, payload: EventPayload, id: StreamId)
    requires Good(w) && w.status.Running? && Enabled(w, Event(at, payload))
    ensures var next := HandleEvent(w, at, payload); next.status.Running? && StreamGood(next, id)
  {
    assert StreamGood(w, id) && StreamGood(w, at);
    EventMoves(w, at, payload, id);
    EventKeepsDelivery(w, at, payload);
    EventKeepsPending(w, at, payload, id);
    if id == at {
      EventKeepsWindow(w, at, payload);
      EventKeepsWake(w, at, payload);
    } else {
      EventSparesOthers(w, at, payload, id);
      EventSparesWake(w, at, payload, id);
      EventKeepsConn(w, at, payload);
    }
  }

  lemma EventKeepsConn(w: World, at: StreamId, payload: EventPayload)
    requires at in w.logs
    ensures var next := HandleEvent(w, at, payload);
            && next.wire == w.wire && next.connIncrements == w.connIncrements
            && next.conn == w.conn.(streams := next.conn.streams, pending := next.conn.pending, notify := next.conn.notify)
  {
  }

  lemma ScheduleKeepsGood(w: World, order: seq<StreamId>, id: StreamId)
    requires Good(w) && w.status.Running? && Enumerates(order, w.conn.pending)
    requires SendDataMaybe(w, order).status.Running?
    ensures var next := SendDataMaybe(w, order); StreamGood(next, id) && ConnWindowOk(next)
  {
    assert StreamGood(w, id);
    ScheduleMoves(w, order, id);
    ScheduleKeepsDelivery(w, order, id);
    ScheduleKeepsWindow(w, order, id);
    ScheduleKeepsWake(w, order, id);
    ScheduleKeepsPending(w, order, id);
  }

  /** Trailers that are accepted for a stream whose response was already complete. */
  predicate LateTrailers(w: World, f: InFrame) {
    && f.InHeaders? && !f.badPriority && f.last && f.verdict.BlockAccepted?
    && f.id in w.conn.streams && w.conn.streams[f.id].HalfClosedLocal?
  }

  lemma HeadersPanic(w: World, f: InFrame)
    requires f.InHeaders? && IdOk(w, f.id) && w.status.Running?
    ensures var status := ReceiveHeaders(w, f.id, f.last, f.badPriority, f.verdict).status;
            if LateTrailers(w, f) then status == Panicked(TrailersInWrongState) else !status.Panicked?
  {
  }

  /** Frames from the peer abort the server in one case only, and always then. */
  lemma FramePanics(w: World, f: InFrame)
    requires Good(w) && w.status.Running?
    ensures var status := ProcessFrame(w, f).status;
            if LateTrailers(w, f) then status == Panicked(TrailersInWrongState) else !status.Panicked?
  {
    if f.InHeaders? {
      assert StreamGood(w, f.id);
      HeadersPanic(w, f);
    } else if f.InData? || f.InRstStream? {
      assert StreamGood(w, f.id);
    }
  }

  /** Every window is in the range the scheduler's condition needs. */
  lemma GoodInRange(w: World, order: seq<StreamId>)
    requires Good(w)
    ensures InRange(w.conn, order)
  {
    forall i | 0 <= i < |order| && w.conn.HasOutgoing(order[i])
      ensures w.conn.Out(order[i]).capacity >= -MAX_INITIAL_WINDOW
    {
      assert StreamGood(w, order[i]);
      WindowRange(w, order[i]);
    }
  }

  /** The only ways to abort: a pending stream was reset, a window is too small, or
      trailers came for a response that was complete. */
  predicate KnownPanic(status: Status) {
    status == Panicked(PendingStreamGone) || WindowPanic(status) || status == Panicked(TrailersInWrongState)
  }

  lemma StepKeepsGood(w: World, input: Input)
    requires Good(w) && w.status.Running? && Enabled(w, input)
    ensures var next := Step(w, input); if next.status.Panicked? then KnownPanic(next.status) else Good(next)
  {
    var next := Step(w, input);
    StepCounts(w, input);
    match input
    case Received(frame) =>
      if next.status.Panicked? {
        FramePanics(w, frame);
      } else {
        forall id
          ensures StreamGood(next, id) && ConnWindowOk(next)
        {
          FrameKeepsGood(w, frame, id);
        }
        FrameKeepsGood(w, frame, 0);
      }
    case Event(at, payload) =>
      EventKeepsConn(w, at, payload);
      forall id
        ensures StreamGood(next, id)
      {
        EventKeepsGood(w, at, payload, id);
      }
      EventKeepsGood(w, at, payload, at);
    case Scheduled(order) =>
      GoodInRange(w, order);
      SchedulerRunsIff(w, order);
      if next.status.Running? {
        forall id
          ensures StreamGood(next, id)
        {
          ScheduleKeepsGood(w, order, id);
        }
        ScheduleKeepsGood(w, order, 0);
      }
  }

  // ---- Every run ----

  lemma {:induction false} StoppedStays(w: World, inputs: seq<Input>, last: World)
    requires !w.status.Running? && RunsTo(w, inputs, last)
    ensures last == w
    decreases |inputs|
  {
    if inputs != [] {
      StoppedStays(w, inputs[1..], last);
    }
  }

  /** In every run, in any order of frames, events and scheduler runs: delivery, the
      windows, the wake-up permit and stream ids are right in every state that was
      not aborted, and only the known aborts happen. */
  lemma {:induction false} SafeOverRuns(w: World, inputs: seq<Input>, last: World)
    requires Good(w) && !w.status.Panicked? && RunsTo(w, inputs, last)
    ensures if last.status.Panicked? then KnownPanic(last.status) else Good(last)
    decreases |inputs|
  {
    if !w.status.Running? {
      StoppedStays(w, inputs, last);
    } else if inputs != [] {
      StepKeepsGood(w, inputs[0]);
      var next := Step(w, inputs[0]);
      if next.status.Panicked? {
        StoppedStays(next, inputs[1..], last);
      } else {
        SafeOverRuns(next, inputs[1..], last);
      }
    }
  }

  // ---- The same, in the terms of the protocol ----

  ghost predicate Reaches(maxStreams: nat, inputs: seq<Input>, last: World) {
    RunsTo(NewWorld(maxStreams), inputs, last) && !last.status.Panicked?
  }

  lemma ReachedIsGood(maxStreams: nat, inputs: seq<Input>, last: World)
    requires Reaches(maxStreams, inputs, last)
    ensures Good(last)
  {
    NewWorldIsGood(maxStreams);
    SafeOverRuns(NewWorld(maxStreams), inputs, last);
  }

  /** What the peer has read of a response is its header block and a prefix of its
      body; sent and queued bytes are the bytes the handler gave; the end is seen
      only with the whole body and after the handler ended it. */
  lemma LoggedDelivery(maxStreams: nat, inputs: seq<Input>, last: World, id: StreamId)
    requires Reaches(maxStreams, inputs, last)
    ensures var t, log := TraceOf(last.wire, id), LogOf(last, id);
            && (t.NoFrames? || t.BodyPart? || t.Ended?)
            && (!t.NoFrames? ==> log.block == Some(t.block) && t.body <= log.body)
            && (t.Ended? ==> log.ended && t.body == log.body)
            && (last.conn.HasOutgoing(id) ==> !t.Ended? && BodyOf(t) + last.conn.Out(id).body.Queued() == log.body)
            && Sent(last, id) == |BodyOf(t)|
  {
    ReachedIsGood(maxStreams, inputs, last);
    assert StreamGood(last, id);
    var t, log := TraceOf(last.wire, id), LogOf(last, id);
    if t.NoFrames? && last.conn.HasOutgoing(id) {
      assert BodyOf(t) + log.body == log.body;
    }
    if t.BodyPart? && last.conn.HasOutgoing(id) {
      assert t.body <= t.body + last.conn.Out(id).body.Queued();
    }
    SentIsBody(NoFrames, Own(last.wire, id));
  }

  /** Stream windows are the peer's initial window plus increments minus the body
      bytes sent, between -(2^31-1) and the maximum, however often SETTINGS change;
      the connection window is 65535 plus increments minus all DATA, and is never
      negative. */
  lemma LoggedWindows(maxStreams: nat, inputs: seq<Input>, last: World, id: StreamId)
    requires Reaches(maxStreams, inputs, last)
    ensures last.conn.outgoingCapacity == 65535 + last.connIncrements - DataBytes(last.wire)
    ensures 0 <= last.conn.outgoingCapacity <= MAX_WINDOW_SIZE
    ensures last.conn.HasOutgoing(id) ==>
              var capacity := last.conn.Out(id).capacity;
              && capacity == last.conn.initialWindow + LogOf(last, id).increments - |BodyOf(TraceOf(last.wire, id))|
              && -0x7FFF_FFFF <= capacity <= MAX_WINDOW_SIZE
  {
    ReachedIsGood(maxStreams, inputs, last);
    LoggedDelivery(maxStreams, inputs, last, id);
    assert StreamGood(last, id);
    if last.conn.HasOutgoing(id) {
      WindowRange(last, id);
    }
  }

  /** If both windows of a stream are open and it has something to send, it is pending
      and the scheduler will run. */
  lemma NoLostWakeup(maxStreams: nat, inputs: seq<Input>, last: World, id: StreamId)
    requires Reaches(maxStreams, inputs, last)
    requires last.conn.HasOutgoing(id) && Work(last.conn.Out(id))
    ensures id in last.conn.pending
    ensures last.conn.outgoingCapacity > 0 && last.conn.Out(id).capacity > 0 ==> last.conn.notify
  {
    ReachedIsGood(maxStreams, inputs, last);
    assert StreamGood(last, id);
  }

  /** Events find every stream in a state they expect, so four of the aborts never
      happen; neither does writing DATA to a stream that does not send, nor is a
      stream ever seen in transition. */
  lemma ArmsNeverReached(maxStreams: nat, inputs: seq<Input>, last: World)
    requires RunsTo(NewWorld(maxStreams), inputs, last) && last.status.Panicked?
    ensures last.status.reason !in {HeadersTooLate, PieceAfterDoneSending, BodyEndTwice, BodyEndAfterSending,
                                    DataForMissingStream, DataInWrongState, TransitionSeen}
  {
    NewWorldIsGood(maxStreams);
    SafeOverRuns(NewWorld(maxStreams), inputs, last);
  }

  /** END_STREAM is sent by a run of the scheduler exactly when the handler has ended
      the body and everything that is queued fits both windows. */
  lemma EndIsSentExactlyWhen(w: World, order: seq<StreamId>, id: StreamId)
    requires Good(w) && w.status.Running? && Enabled(w, Scheduled(order)) && SendDataMaybe(w, order).status.Running?
    requires w.conn.HasOutgoing(id) && id in w.conn.pending
    ensures TraceOf(SendDataMaybe(w, order).wire, id).Ended? <==>
              && LogOf(w, id).ended && w.conn.outgoingCapacity > 0 && w.conn.Out(id).capacity > 0
              && |w.conn.Out(id).body.Queued()| <= Min(w.conn.outgoingCapacity, w.conn.Out(id).capacity)
  {
    assert StreamGood(w, id);
    ScheduleKeepsGood(w, order, id);
    SchedulerEffect(w, order, id);
    var o, frames := w.conn.Out(id), QueuePending(w, order).frames;
    TraceAppend(w.wire, frames, id);
    if Ready(w, id) {
      TurnDelivers(id, o, LogOf(w, id), TraceOf(w.wire, id), w.conn.outgoingCapacity, w.conn.maxFrameSize);
    }
  }

  // ---- The wire as a whole ----

  lemma StepGrowsWhole(w: World, input: Input)
    requires Good(w) && w.status.Running? && Enabled(w, input) && !Step(w, input).status.Panicked?
    ensures GrewWhole(w.wire, Step(w, input).wire, w.conn.maxFrameSize)
  {
    match input
    case Received(frame) => FrameGrows(w, frame);
    case Event(at, payload) =>
      EventKeepsConn(w, at, payload);
      GrewNothing(w.wire, w.conn.maxFrameSize);
    case Scheduled(order) =>
      GoodInRange(w, order);
      SchedulerRunsIff(w, order);
      if w.conn.outgoingCapacity > 0 {
        NoneIsHalfway(w, order);
      }
      ScheduleGrows(w, order);
  }

  lemma NoneIsHalfway(w: World, order: seq<StreamId>)
    requires Good(w) && AllSend(w.conn, order)
    ensures NoneHalfway(w.conn, order)
  {
    forall i | 0 <= i < |order|
      ensures !w.conn.Out(order[i]).headers.WroteSome?
    {
      assert StreamGood(w, order[i]);
    }
  }

  lemma StepKeepsBlocks(w: World, input: Input)
    requires Good(w) && w.status.Running? && Enabled(w, input) && !Step(w, input).status.Panicked?
    requires ScanAll(Between, w.wire) == Between
    ensures ScanAll(Between, Step(w, input).wire) == Between
  {
    var next := Step(w, input);
    StepGrowsWhole(w, input);
    ScanAppend(Between, w.wire, next.wire[|w.wire|..]);
    assert next.wire == w.wire + next.wire[|w.wire|..];
  }

  /** In every run, no frame of any stream comes between a HEADERS frame and the end
      of its header block. */
  lemma {:induction false} BlocksAreContiguous(w: World, inputs: seq<Input>, last: World)
    requires Good(w) && w.status.Running? && RunsTo(w, inputs, last) && !last.status.Panicked?
    requires ScanAll(Between, w.wire) == Between
    ensures ScanAll(Between, last.wire) == Between
    decreases |inputs|
  {
    if inputs != [] {
      var next := Step(w, inputs[0]);
      StepKeepsGood(w, inputs[0]);
      if next.status.Panicked? {
        StoppedStays(next, inputs[1..], last);
      } else {
        StepKeepsBlocks(w, inputs[0]);
        if next.status.Running? {
          BlocksAreContiguous(next, inputs[1..], last);
        } else {
          StoppedStays(next, inputs[1..], last);
        }
      }
    }
  }
}
