/** The frames of a connection as one stream of frames: header blocks are not
    interrupted, and payloads fit the frame size of the peer. */
module H2Wire {
  import opened Common
  import opened Frames
  import opened H2State
  import opened H2Machine
  import opened H2Scheduler
  import opened H2Effects
  import opened H2Aborts

  // ---- Header blocks (section 4.3 of RFC 9113) ----

  /** Between blocks, inside the block of a stream, or after an interrupted one. */
  datatype BlockScan = Between | Inside(id: StreamId) | Torn

  function Scan(b: BlockScan, p: Packet): BlockScan {
    match p.frame.ty
    case Headers(_, _, endHeaders, _) =>
      if !b.Between? then Torn else if endHeaders then Between else Inside(p.frame.streamId)
    case Continuation(endHeaders) =>
      if b != Inside(p.frame.streamId) then Torn else if endHeaders then Between else b
    case _ => if b.Between? then Between else Torn
  }

  function ScanAll(b: BlockScan, packets: seq<Packet>): BlockScan
    decreases |packets|
  {
    if packets == [] then b else ScanAll(Scan(b, packets[0]), packets[1..])
  }

  lemma {:induction false} ScanAppend(b: BlockScan, a: seq<Packet>, c: seq<Packet>)
    ensures ScanAll(b, a + c) == ScanAll(ScanAll(b, a), c)
    decreases |a|
  {
    if a == [] {
      assert a + c == c;
    } else {
      assert (a + c)[0] == a[0] && (a + c)[1..] == a[1..] + c;
      ScanAppend(Scan(b, a[0]), a[1..], c);
    }
  }

  /** Complete blocks and frames between them, all of which fit. */
  ghost predicate Whole(packets: seq<Packet>, maxFrame: nat) {
    && ScanAll(Between, packets) == Between
    && forall i :: 0 <= i < |packets| && !Quiet(packets[i]) ==> |packets[i].payload| <= maxFrame
  }

  lemma WholeAppend(a: seq<Packet>, b: seq<Packet>, maxFrame: nat)
    requires Whole(a, maxFrame) && Whole(b, maxFrame)
    ensures Whole(a + b, maxFrame)
  {
    ScanAppend(Between, a, b);
  }

  lemma {:induction false} QuietIsWhole(packets: seq<Packet>, maxFrame: nat)
    requires AllQuiet(packets)
    ensures Whole(packets, maxFrame)
    decreases |packets|
  {
    if packets != [] {
      QuietIsWhole(packets[1..], maxFrame);
    }
  }

  lemma {:induction false} BlockIsWhole(id: StreamId, pieces: seq<Bytes>, isContinuation: bool)
    requires pieces != []
    ensures ScanAll(if isContinuation then Inside(id) else Between, HeaderPackets(id, pieces, isContinuation)) == Between
    decreases |pieces|
  {
    var packets := HeaderPackets(id, pieces, isContinuation);
    assert packets[1..] == HeaderPackets(id, pieces[1..], true);
    if |pieces| > 1 {
      BlockIsWhole(id, pieces[1..], true);
    } else {
      assert packets[1..] == [];
    }
  }

  lemma {:induction false} PayloadsOfBlock(id: StreamId, pieces: seq<Bytes>, isContinuation: bool)
    ensures var packets := HeaderPackets(id, pieces, isContinuation);
            forall i :: 0 <= i < |packets| ==> packets[i].payload == pieces[i]
    decreases |pieces|
  {
    if pieces != [] {
      PayloadsOfBlock(id, pieces[1..], true);
    }
  }

  lemma {:induction false} DataIsWhole(id: StreamId, pieces: seq<Bytes>, ends: bool)
    ensures var packets := DataPackets(id, pieces, ends);
            && ScanAll(Between, packets) == Between
            && forall i :: 0 <= i < |packets| ==> packets[i].payload == pieces[i]
    decreases |pieces|
  {
    if pieces != [] {
      var packets := DataPackets(id, pieces, ends);
      assert packets[1..] == DataPackets(id, pieces[1..], ends);
      DataIsWhole(id, pieces[1..], ends);
    }
  }

  lemma HeadersAreWhole(id: StreamId, headers: HeadersOutgoing, maxFrame: FrameSize)
    requires !headers.WroteSome?
    ensures Whole(BlockPackets(id, headers, maxFrame), maxFrame)
  {
    if headers.WroteNone? {
      var pieces := Chunks(headers.piece, maxFrame);
      ChunksPartition(headers.piece, maxFrame);
      BlockIsWhole(id, pieces, false);
      PayloadsOfBlock(id, pieces, false);
    }
  }

  lemma BodyIsWhole(id: StreamId, body: BodyOutgoing, capacity: nat, maxFrame: FrameSize)
    ensures Whole(BodyPackets(id, body, capacity, maxFrame), maxFrame)
  {
    var taken := body.Queued()[..TurnBytes(body, capacity)];
    ChunksPartition(taken, maxFrame);
    DataIsWhole(id, Chunks(taken, maxFrame), TurnEnds(body, capacity));
  }

  lemma TurnIsWhole(id: StreamId, o: Outgoing, connCapacity: int, maxFrame: FrameSize)
    requires !o.headers.WroteSome?
    ensures Whole(TurnPackets(id, o, connCapacity, maxFrame), maxFrame)
  {
    var capacity := Usable(connCapacity, o.capacity);
    HeadersAreWhole(id, o.headers, maxFrame);
    BodyIsWhole(id, o.body, capacity, maxFrame);
    WholeAppend(BlockPackets(id, o.headers, maxFrame), BodyPackets(id, o.body, capacity, maxFrame), maxFrame);
  }

  /** No stream is in the middle of its headers. */
  ghost predicate NoneHalfway(conn: Conn, order: seq<StreamId>)
    requires AllSend(conn, order)
  {
    forall i :: 0 <= i < |order| ==> !conn.Out(order[i]).headers.WroteSome?
  }

  lemma {:induction false} TurnsAreWhole(conn: Conn, order: seq<StreamId>)
    requires AllSend(conn, order) && NoneHalfway(conn, order)
    ensures Whole(Turns(conn, order), conn.maxFrameSize)
    decreases |order|
  {
    if order != [] {
      TurnIsWhole(order[0], conn.Out(order[0]), conn.outgoingCapacity, conn.maxFrameSize);
      TurnsAreWhole(conn, order[1..]);
      WholeAppend(Turn(conn, order[0]), Turns(conn, order[1..]), conn.maxFrameSize);
    }
  }

  // ---- Steps ----

  /** The wire grew by whole blocks and frames that fit. */
  ghost predicate GrewWhole(wire: seq<Packet>, next: seq<Packet>, maxFrame: nat) {
    wire <= next && Whole(next[|wire|..], maxFrame)
  }

  lemma GrewNothing(wire: seq<Packet>, maxFrame: nat)
    ensures GrewWhole(wire, wire, maxFrame)
  {
    assert wire[|wire|..] == [];
  }

  /** What the server writes in answer to a frame on stream `at`. */
  predicate IsAnswer(p: Packet, at: StreamId) {
    || (p.frame.ty.RstStream? && p.frame.streamId == at && |p.payload| == 4)
    || (p.frame.ty.Settings? && p.frame.streamId == 0 && p.payload == [])
    || (p.frame.ty.Ping? && p.frame.streamId == 0 && |p.payload| == 8)
  }

  ghost predicate Answered(wire: seq<Packet>, next: seq<Packet>, at: StreamId) {
    wire <= next && forall i :: |wire| <= i < |next| ==> IsAnswer(next[i], at)
  }

  /** Answers interrupt no block. */
  lemma AnswersAreWhole(wire: seq<Packet>, next: seq<Packet>, at: StreamId, maxFrame: nat)
    requires Answered(wire, next, at)
    ensures AllQuiet(next[|wire|..]) && GrewWhole(wire, next, maxFrame)
  {
    QuietIsWhole(next[|wire|..], maxFrame);
  }

  lemma RstAnswers(w: World, at: StreamId, code: nat)
    ensures Answered(w.wire, Rst(w, at, code).wire, at)
  {
  }

  lemma DataAnswers(w: World, at: StreamId, len: nat, last: bool, receiverGone: bool)
    ensures Answered(w.wire, ReceiveData(w, at, len, last, receiverGone).wire, at)
  {
    RstAnswers(w, at, 1);
    RstAnswers(w, at, 5);
    RstAnswers(w, at, 8);
  }

  lemma RequestAnswers(w: World, at: StreamId, last: bool, verdict: Verdict)
    ensures Answered(w.wire, ReceiveRequest(w, at, last, verdict).wire, at)
  {
    RstAnswers(w, at, 1);
  }

  lemma NewHeadersAnswer(w: World, at: StreamId, last: bool, verdict: Verdict)
    ensures Answered(w.wire, ReceiveNewHeaders(w, at, last, verdict).wire, at)
  {
    if at % 2 == 1 && at > w.conn.lastStreamId {
      if |w.conn.streams| + 1 > w.conn.maxStreams {
        RstAnswers(w, at, 7);
      } else {
        RequestAnswers(w, at, last, verdict);
      }
    }
  }

  lemma MoreHeadersAnswer(w: World, at: StreamId, last: bool, verdict: Verdict)
    requires at in w.conn.streams
    ensures Answered(w.wire, ReceiveMoreHeaders(w, at, last, verdict).wire, at)
  {
    RstAnswers(w, at, 1);
  }

  lemma HeadersAnswer(w: World, at: StreamId, last: bool, badPriority: bool, verdict: Verdict)
    ensures Answered(w.wire, ReceiveHeaders(w, at, last, badPriority, verdict).wire, at)
  {
    if at in w.conn.streams {
      MoreHeadersAnswer(w, at, last, verdict);
    } else {
      NewHeadersAnswer(w, at, last, verdict);
    }
  }

  lemma WindowUpdateAnswers(w: World, at: StreamId, len: nat, increment: nat)
    ensures Answered(w.wire, ReceiveWindowUpdate(w, at, len, increment).wire, at)
  {
    RstAnswers(w, at, 3);
  }

  function FrameId(f: InFrame): StreamId {
    if f.InPushPromise? || f.InContinuation? || f.InUnknown? then 0 else f.id
  }

  /** Frames from the peer are answered by frames that interrupt no block. */
  lemma FrameGrows(w: World, f: InFrame)
    ensures Answered(w.wire, ProcessFrame(w, f).wire, FrameId(f))
    ensures GrewWhole(w.wire, ProcessFrame(w, f).wire, w.conn.maxFrameSize)
  {
    match f {
      case InData(at, len, last, receiverGone) => DataAnswers(w, at, len, last, receiverGone);
      case InHeaders(at, last, badPriority, verdict) => HeadersAnswer(w, at, last, badPriority, verdict);
      case InWindowUpdate(at, len, increment) => WindowUpdateAnswers(w, at, len, increment);
      case InPriority(at, _, _) => RstAnswers(w, at, 6);
      case InRstStream(at, _) => RstAnswers(w, at, 6);
      case _ =>
    }
    AnswersAreWhole(w.wire, ProcessFrame(w, f).wire, FrameId(f), w.conn.maxFrameSize);
  }

  /** What a run of the scheduler adds to the wire. */
  function Scheduling(conn: Conn, order: seq<StreamId>): seq<Packet>
    requires conn.outgoingCapacity > 0 ==> AllSend(conn, order)
  {
    if conn.outgoingCapacity > 0 then Turns(conn, order) else []
  }

  lemma ScheduleAppends(w: World, order: seq<StreamId>)
    requires w.status.Running? && Distinct(order) && SendDataMaybe(w, order).status.Running?
    requires w.conn.outgoingCapacity > 0 ==> AllSend(w.conn, order)
    ensures SendDataMaybe(w, order).wire == w.wire + Scheduling(w.conn, order)
  {
    var q := QueuePending(w, order);
    var start := Queueing(w.(conn := w.conn.(notify := false)), [], {});
    WriteAllAppends(q.world, q.frames);
    if w.conn.outgoingCapacity > 0 {
      assert SameTurns(start.world.conn, w.conn, order);
      QueueKeepsWindows(start, order);
      QueueIsTurns(start, order);
      TurnsAgree(start.world.conn, w.conn, order);
      assert q.frames == Turns(start.world.conn, order);
    }
  }

  lemma ScheduleGrows(w: World, order: seq<StreamId>)
    requires w.status.Running? && Distinct(order) && SendDataMaybe(w, order).status.Running?
    requires w.conn.outgoingCapacity > 0 ==> AllSend(w.conn, order) && NoneHalfway(w.conn, order)
    ensures GrewWhole(w.wire, SendDataMaybe(w, order).wire, w.conn.maxFrameSize)
  {
    ScheduleAppends(w, order);
    var more := Scheduling(w.conn, order);
    if w.conn.outgoingCapacity > 0 {
      TurnsAreWhole(w.conn, order);
    }
    assert (w.wire + more)[|w.wire|..] == more;
  }

  lemma {:induction false} WriteAllAppends(w: World, packets: seq<Packet>)
    requires WriteAll(w, packets).status.Running?
    ensures WriteAll(w, packets).wire == w.wire + packets
    decreases |packets|
  {
    if packets == [] {
      assert w.wire + packets == w.wire;
    } else if !w.status.Running? {
      WriteAllKeepsPanic(w, packets);
    } else {
      WriteAllAppends(WriteFrame(w, packets[0]), packets[1..]);
      if !WriteFrame(w, packets[0]).status.Running? {
        WriteAllKeepsPanic(WriteFrame(w, packets[0]), packets[1..]);
      }
      assert w.wire + [packets[0]] + packets[1..] == w.wire + packets;
    }
  }
}
