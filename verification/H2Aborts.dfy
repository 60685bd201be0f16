/** Exactly when a run of the scheduler aborts. */
module H2Aborts {
  import opened Common
  import opened Frames
  import opened H2State
  import opened H2Machine
  import opened H2Scheduler

  // ---- The first loop aborts on a stream that is gone ----

  ghost predicate AllSend(conn: Conn, order: seq<StreamId>) {
    forall i :: 0 <= i < |order| ==> conn.HasOutgoing(order[i])
  }

  lemma TurnKeepsSenders(q: Queueing, at: StreamId, order: seq<StreamId>)
    ensures AllSend(QueueTurn(q, at).world.conn, order) <==> AllSend(q.world.conn, order)
  {
    var conn, next := q.world.conn, QueueTurn(q, at).world.conn;
    forall id: StreamId
      ensures next.HasOutgoing(id) <==> conn.HasOutgoing(id)
    {
    }
  }

  lemma {:induction false} QueueRuns(q: Queueing, order: seq<StreamId>)
    requires q.world.status.Running?
    ensures var next := QueueAll(q, order).world;
            && (next.status.Running? <==> AllSend(q.world.conn, order))
            && (next.status.Running? || next.status == Panicked(PendingStreamGone))
    decreases |order|
  {
    if order != [] {
      var next := QueueTurn(q, order[0]);
      TurnKeepsSenders(q, order[0], order[1..]);
      assert AllSend(q.world.conn, order) <==> q.world.conn.HasOutgoing(order[0]) && AllSend(q.world.conn, order[1..]);
      if next.world.status.Running? {
        QueueRuns(next, order[1..]);
      } else {
        QueueAllKeepsPanic(next, order[1..]);
      }
    }
  }

  // ---- The frames of all turns ----

  predicate Waits(o: Outgoing) {
    o.headers.WaitingForHeaders?
  }

  function Turn(conn: Conn, id: StreamId): seq<Packet>
    requires conn.HasOutgoing(id)
  {
    if Waits(conn.Out(id)) then [] else TurnPackets(id, conn.Out(id), conn.outgoingCapacity, conn.maxFrameSize)
  }

  function Turns(conn: Conn, order: seq<StreamId>): seq<Packet>
    requires AllSend(conn, order)
    decreases |order|
  {
    if order == [] then [] else Turn(conn, order[0]) + Turns(conn, order[1..])
  }

  /** Turns depend on nothing but the streams that take them. */
  ghost predicate SameTurns(a: Conn, b: Conn, order: seq<StreamId>) {
    && AllSend(a, order) && AllSend(b, order)
    && a.outgoingCapacity == b.outgoingCapacity && a.maxFrameSize == b.maxFrameSize
    && (forall i :: 0 <= i < |order| ==> a.Out(order[i]) == b.Out(order[i]))
  }

  lemma {:induction false} TurnsAgree(a: Conn, b: Conn, order: seq<StreamId>)
    requires SameTurns(a, b, order)
    ensures Turns(a, order) == Turns(b, order)
    decreases |order|
  {
    if order != [] {
      TurnsAgree(a, b, order[1..]);
    }
  }

  /** The streams that come later are as they were. */
  lemma TurnSparesOthers(q: Queueing, order: seq<StreamId>)
    requires q.world.status.Running? && order != [] && Distinct(order) && AllSend(q.world.conn, order)
    ensures var next := QueueTurn(q, order[0]);
            && next.world.status.Running? && next.frames == q.frames + Turn(q.world.conn, order[0])
            && SameTurns(q.world.conn, next.world.conn, order[1..])
  {
    assert q.world.conn.HasOutgoing(order[0]);
    TurnKeepsSenders(q, order[0], order[1..]);
  }

  lemma {:induction false} QueueIsTurns(q: Queueing, order: seq<StreamId>)
    requires q.world.status.Running? && Distinct(order) && AllSend(q.world.conn, order)
    ensures QueueAll(q, order).frames == q.frames + Turns(q.world.conn, order)
    decreases |order|
  {
    if order == [] {
      assert q.frames + [] == q.frames;
    } else {
      var next := QueueTurn(q, order[0]);
      TurnSparesOthers(q, order);
      QueueIsTurns(next, order[1..]);
      TurnsAgree(q.world.conn, next.world.conn, order[1..]);
      Reassociate(q.frames, Turn(q.world.conn, order[0]), Turns(q.world.conn, order[1..]));
    }
  }

  // ---- The second loop aborts on a window that is too small ----

  lemma {:induction false} WriteAllAppend(w: World, a: seq<Packet>, b: seq<Packet>)
    ensures WriteAll(w, a + b) == WriteAll(WriteAll(w, a), b)
    decreases |a|
  {
    if a == [] {
      assert a + b == b;
    } else {
      assert (a + b)[0] == a[0] && (a + b)[1..] == a[1..] + b;
      WriteAllAppend(WriteFrame(w, a[0]), a[1..], b);
    }
  }

  predicate WindowPanic(status: Status) {
    status == Panicked(StreamCapacityNegative) || status == Panicked(ConnectionCapacityNegative)
  }

  /** Writing frames of stream `at` takes so many bytes off the connection window and
      leaves other streams alone, or aborts for lack of window. */
  predicate TakesFrom(w: World, next: World, at: StreamId, n: nat, id: StreamId) {
    if next.status.Running? then
      && next.conn.outgoingCapacity == w.conn.outgoingCapacity - n
      && (id != at && w.conn.HasOutgoing(id) ==> next.conn.HasOutgoing(id) && next.conn.Out(id) == w.conn.Out(id))
    else WindowPanic(next.status)
  }

  lemma {:induction false} WriteBlock(w: World, at: StreamId, pieces: seq<Bytes>, isContinuation: bool)
    requires w.status.Running?
    ensures var next := WriteAll(w, HeaderPackets(at, pieces, isContinuation)); next.conn == w.conn && next.status.Running?
    decreases |pieces|
  {
    if pieces != [] {
      var packets := HeaderPackets(at, pieces, isContinuation);
      assert packets[1..] == HeaderPackets(at, pieces[1..], true);
      WriteBlock(WriteFrame(w, packets[0]), at, pieces[1..], true);
    }
  }

  lemma WriteOneData(w: World, at: StreamId, payload: Bytes, ends: bool, id: StreamId)
    requires w.status.Running? && w.conn.HasOutgoing(at)
    ensures var next := WriteFrame(w, DataPacket(at, payload, ends));
            && (next.status.Running? <==> w.conn.Out(at).capacity >= |payload| && w.conn.outgoingCapacity >= |payload|)
            && TakesFrom(w, next, at, |payload|, id)
            && (next.status.Running? && !ends ==>
                  next.conn.HasOutgoing(at) && next.conn.Out(at).capacity == w.conn.Out(at).capacity - |payload|)
  {
  }

  lemma {:induction false} WriteDataRuns(w: World, at: StreamId, pieces: seq<Bytes>, ends: bool, id: StreamId)
    requires w.status.Running? && w.conn.HasOutgoing(at) && pieces != []
    ensures var next, n := WriteAll(w, DataPackets(at, pieces, ends)), |Flatten(pieces)|;
            && (next.status.Running? <==> w.conn.Out(at).capacity >= n && w.conn.outgoingCapacity >= n)
            && TakesFrom(w, next, at, n, id)
    decreases |pieces|
  {
    var packets := DataPackets(at, pieces, ends);
    var next := WriteFrame(w, packets[0]);
    assert packets[1..] == DataPackets(at, pieces[1..], ends);
    WriteOneData(w, at, pieces[0], ends && |pieces| == 1, id);
    if !next.status.Running? {
      WriteAllKeepsPanic(next, packets[1..]);
    } else if |pieces| > 1 {
      WriteDataRuns(next, at, pieces[1..], ends, id);
    }
  }

  /** A turn writes DATA. */
  predicate Sends(o: Outgoing, connCapacity: int) {
    !Waits(o) && (TurnBytes(o.body, Usable(connCapacity, o.capacity)) > 0 || TurnEnds(o.body, Usable(connCapacity, o.capacity)))
  }

  /** How much of the connection window it needs. */
  function Need(o: Outgoing, connCapacity: int): nat {
    if Waits(o) then 0 else TurnBytes(o.body, Usable(connCapacity, o.capacity))
  }

  lemma WriteTurnRuns(w: World, conn: Conn, at: StreamId, id: StreamId)
    requires w.status.Running? && w.conn.HasOutgoing(at) && conn.HasOutgoing(at)
    ensures var o := conn.Out(at);
            var next, n := WriteAll(w, Turn(conn, at)), Need(o, conn.outgoingCapacity);
            && (next.status.Running? <==> (Sends(o, conn.outgoingCapacity) ==>
                                             w.conn.Out(at).capacity >= n && w.conn.outgoingCapacity >= n))
            && TakesFrom(w, next, at, n, id)
  {
    var o := conn.Out(at);
    if !Waits(o) {
      var capacity := Usable(conn.outgoingCapacity, o.capacity);
      var block, data := BlockPackets(at, o.headers, conn.maxFrameSize), BodyPackets(at, o.body, capacity, conn.maxFrameSize);
      WriteAllAppend(w, block, data);
      if o.headers.WroteNone? || o.headers.WroteSome? {
        WriteBlock(w, at, Chunks(o.headers.piece, conn.maxFrameSize), o.headers.WroteSome?);
      }
      assert WriteAll(w, block).conn == w.conn && WriteAll(w, block).status == w.status;
      if data != [] {
        var taken := o.body.Queued()[..TurnBytes(o.body, capacity)];
        ChunksPartition(taken, conn.maxFrameSize);
        WriteDataRuns(WriteAll(w, block), at, Chunks(taken, conn.maxFrameSize), TurnEnds(o.body, capacity), id);
      }
    }
  }

  // ---- All turns ----

  function Demand(conn: Conn, order: seq<StreamId>): nat
    requires AllSend(conn, order)
    decreases |order|
  {
    if order == [] then 0 else Need(conn.Out(order[0]), conn.outgoingCapacity) + Demand(conn, order[1..])
  }

  /** The window is negative and there is something to send: the cast at the head of
      the body loop then makes the window look huge. */
  predicate Overdrawn(o: Outgoing) {
    o.capacity < 0 && !Waits(o) && (o.body.Queued() != [] || o.body.DoneReceiving?)
  }

  ghost predicate NoneOverdrawn(conn: Conn, order: seq<StreamId>)
    requires AllSend(conn, order)
  {
    forall i :: 0 <= i < |order| ==> !Overdrawn(conn.Out(order[i]))
  }

  ghost predicate InRange(conn: Conn, order: seq<StreamId>) {
    forall i :: 0 <= i < |order| && conn.HasOutgoing(order[i]) ==> conn.Out(order[i]).capacity >= -MAX_INITIAL_WINDOW
  }

  /** Windows as they were when the turns were taken. */
  ghost predicate WindowsAsIn(w: World, conn: Conn, order: seq<StreamId>)
    requires AllSend(conn, order)
  {
    AllSend(w.conn, order) && forall i :: 0 <= i < |order| ==> w.conn.Out(order[i]).capacity == conn.Out(order[i]).capacity
  }

  lemma TurnLeavesOthers(w: World, conn: Conn, order: seq<StreamId>)
    requires w.status.Running? && order != [] && Distinct(order) && AllSend(conn, order) && WindowsAsIn(w, conn, order)
    requires WriteAll(w, Turn(conn, order[0])).status.Running?
    ensures AllSend(conn, order[1..]) && WindowsAsIn(WriteAll(w, Turn(conn, order[0])), conn, order[1..])
  {
    var next := WriteAll(w, Turn(conn, order[0]));
    forall i | 0 <= i < |order| - 1
      ensures next.conn.HasOutgoing(order[1..][i]) && next.conn.Out(order[1..][i]) == w.conn.Out(order[1..][i])
    {
      WriteTurnRuns(w, conn, order[0], order[i + 1]);
    }
  }

  /** A turn's bytes fit a window that is not negative. */
  lemma NeedFits(o: Outgoing, connCapacity: int)
    requires connCapacity > 0 && o.capacity >= -MAX_INITIAL_WINDOW
    ensures o.capacity >= 0 ==> Need(o, connCapacity) <= o.capacity
    ensures !Sends(o, connCapacity) ==> Need(o, connCapacity) == 0
    ensures Overdrawn(o) <==> Sends(o, connCapacity) && o.capacity < 0
  {
  }

  lemma {:induction false} WriteTurnsRuns(w: World, conn: Conn, order: seq<StreamId>)
    requires w.status.Running? && Distinct(order) && AllSend(conn, order) && WindowsAsIn(w, conn, order)
    requires w.conn.outgoingCapacity >= 0 && conn.outgoingCapacity > 0 && InRange(conn, order)
    ensures var next := WriteAll(w, Turns(conn, order));
            && (next.status.Running? <==> NoneOverdrawn(conn, order) && Demand(conn, order) <= w.conn.outgoingCapacity)
            && (next.status.Running? || WindowPanic(next.status))
    decreases |order|
  {
    if order != [] {
      var at := order[0];
      var o, next := conn.Out(at), WriteAll(w, Turn(conn, at));
      WriteAllAppend(w, Turn(conn, at), Turns(conn, order[1..]));
      WriteTurnRuns(w, conn, at, at);
      NeedFits(o, conn.outgoingCapacity);
      assert NoneOverdrawn(conn, order) <==> !Overdrawn(o) && NoneOverdrawn(conn, order[1..]);
      if next.status.Running? {
        TurnLeavesOthers(w, conn, order);
        WriteTurnsRuns(next, conn, order[1..]);
      } else {
        WriteAllKeepsPanic(next, Turns(conn, order[1..]));
      }
    }
  }

  /** What a caller can look at before a run: no connection window, or every pending
      stream still sends, none is overdrawn, and their turns together fit the
      connection window. */
  ghost predicate CanRun(conn: Conn, order: seq<StreamId>) {
    || conn.outgoingCapacity <= 0
    || (AllSend(conn, order) && NoneOverdrawn(conn, order) && Demand(conn, order) <= conn.outgoingCapacity)
  }

  lemma QueueKeepsWindows(start: Queueing, order: seq<StreamId>)
    requires start.world.status.Running? && Distinct(order) && AllSend(start.world.conn, order)
    ensures var next := QueueAll(start, order).world;
            next.status.Running? && StreamsOnly(start.world, next) && WindowsAsIn(next, start.world.conn, order)
  {
    QueueRuns(start, order);
    if order != [] {
      QueueAllEffect(start, order, order[0]);
    }
    forall i | 0 <= i < |order|
      ensures var next := QueueAll(start, order).world.conn;
              next.HasOutgoing(order[i]) && next.Out(order[i]).capacity == start.world.conn.Out(order[i]).capacity
    {
      QueueAllEffect(start, order, order[i]);
    }
  }

  /** The scheduler aborts exactly when it cannot run, and for one of three reasons. */
  lemma SchedulerRunsIff(w: World, order: seq<StreamId>)
    requires w.status.Running? && Distinct(order) && InRange(w.conn, order)
    ensures var next := SendDataMaybe(w, order);
            && (next.status.Running? <==> CanRun(w.conn, order))
            && (next.status.Running? || next.status == Panicked(PendingStreamGone) || WindowPanic(next.status))
            && (next.status == Panicked(PendingStreamGone) <==> w.conn.outgoingCapacity > 0 && !AllSend(w.conn, order))
  {
    if w.conn.outgoingCapacity > 0 {
      var start := Queueing(w.(conn := w.conn.(notify := false)), [], {});
      var q := QueueAll(start, order);
      QueueRuns(start, order);
      assert AllSend(start.world.conn, order) <==> AllSend(w.conn, order);
      if AllSend(w.conn, order) {
        QueueKeepsWindows(start, order);
        QueueIsTurns(start, order);
        assert q.frames == Turns(start.world.conn, order);
        WriteTurnsRuns(q.world, start.world.conn, order);
        DemandIgnoresPermit(w.conn, order);
      } else {
        WriteAllKeepsPanic(q.world, q.frames);
      }
    }
  }

  lemma {:induction false} DemandIgnoresPermit(conn: Conn, order: seq<StreamId>)
    requires AllSend(conn, order)
    ensures var c := conn.(notify := false); AllSend(c, order) && Demand(c, order) == Demand(conn, order)
    decreases |order|
  {
    if order != [] {
      DemandIgnoresPermit(conn, order[1..]);
    }
    assert forall i :: 0 <= i < |order| ==> conn.(notify := false).HasOutgoing(order[i]);
  }
}
