/** The layers together: what one side means is what the other side reads, as bytes
    on a transport that splits them as it likes. */
module EndToEnd {
  import opened Common
  import opened Frames
  import opened Deframer
  import opened HpackTable
  import Codec = HpackCodec
  import opened H2State
  import opened H2Machine
  import opened H2Scheduler
  import opened H2Delivery
  import opened H2Lifecycle
  import opened H2Windows
  import opened H2Aborts
  import opened H2Wire
  import opened H2Safety
  import opened H2Blocks
  import opened H2Reader
  import opened H2History
  import Session = HpackSession

  // ---- A header list ----

  lemma {:induction false} HeaderPacketsSendable(id: StreamId, pieces: seq<Bytes>, isContinuation: bool, maxFrame: nat)
    requires id < 0x8000_0000 && maxFrame <= MAX_FRAME_SIZE
    requires forall i :: 0 <= i < |pieces| ==> |pieces[i]| <= maxFrame
    ensures AllSendable(HeaderPackets(id, pieces, isContinuation), maxFrame)
    decreases |pieces|
  {
    if pieces != [] {
      HeaderPacketsSendable(id, pieces[1..], true, maxFrame);
    }
  }

  /** What a reader makes of a header block at the head of a stream of bytes. */
  function ReadBlock(stream: Bytes, maxFrame: nat): Collected {
    var got := Deframe(stream, maxFrame).packets;
    if got != [] && got[0].frame.ty.Headers? then Collect(got[0], got[1..]) else ChannelClosed
  }

  lemma Reassembled(id: StreamId, block: Bytes, maxFrame: FrameSize, rx: seq<Packet>, more: seq<Packet>)
    requires SameButLength(rx, HeaderPackets(id, Chunks(block, maxFrame), false))
    ensures var got := rx + more;
            got != [] && got[0].frame.ty.Headers? && Collect(got[0], got[1..]) == Collected.Block(block, more)
  {
    FragmentationRoundTrip(id, block, maxFrame, rx, more);
    assert (rx + more)[0] == rx[0] && (rx + more)[1..] == rx[1..] + more;
  }

  /** A block that is cut into frames and written is read back whole. */
  lemma BlockEndToEnd(id: StreamId, block: Bytes, maxFrame: FrameSize, later: Bytes)
    requires id < 0x8000_0000 && maxFrame <= MAX_FRAME_SIZE
    ensures var sent := BlockPackets(id, WroteNone(block), maxFrame);
            && AllSendable(sent, maxFrame)
            && ReadBlock(Wire(sent) + later, maxFrame) == Collected.Block(block, Deframe(later, maxFrame).packets)
  {
    var pieces := Chunks(block, maxFrame);
    var sent := HeaderPackets(id, pieces, false);
    ChunksPartition(block, maxFrame);
    HeaderPacketsSendable(id, pieces, false, maxFrame);
    WireRoundTrip(sent, later, maxFrame);
    Reassembled(id, block, maxFrame, WithLengths(sent), Deframe(later, maxFrame).packets);
  }

  /** Encoded, cut into frames, written, read back in any pieces, put together and
      decoded, a header list is itself; the peers' tables stay in step, and the frames
      that follow are left alone. */
  lemma HeadersEndToEnd(ht: HeaderTable, d: Codec.DecoderState, headers: seq<Header>,
                        id: StreamId, maxFrame: FrameSize, later: Bytes)
    requires Codec.Follows(ht, d.table) && Codec.HeadersFit(headers) && id < 0x8000_0000 && maxFrame <= MAX_FRAME_SIZE
    ensures var (block, ht') := Codec.EncodeBlock(ht, headers);
            var sent := BlockPackets(id, WroteNone(block), maxFrame);
            && AllSendable(sent, maxFrame)
            && var read := ReadBlock(Wire(sent) + later, maxFrame);
               && read.Block? && read.rest == Deframe(later, maxFrame).packets
               && var decoded := Codec.DecodeBlock(d, read.data);
                  decoded.headers == headers && decoded.error.None? && Codec.Follows(ht', decoded.next.table)
  {
    BlockEndToEnd(id, Codec.EncodeBlock(ht, headers).0, maxFrame, later);
    Codec.BlockRoundTrip(ht, d, headers);
  }

  // ---- Many header lists ----

  predicate ListsFit(lists: seq<seq<Header>>) {
    forall i :: 0 <= i < |lists| ==> Codec.HeadersFit(lists[i])
  }

  /** The blocks of header lists that are encoded one after another. */
  function EncodeAll(ht: HeaderTable, lists: seq<seq<Header>>): (blocks: seq<Bytes>)
    ensures |blocks| == |lists|
    decreases |lists|
  {
    if lists == [] then []
    else
      var (block, ht') := Codec.EncodeBlock(ht, lists[0]);
      [block] + EncodeAll(ht', lists[1..])
  }

  /** What a reader makes of header blocks: the lists, unless one cannot be decoded. */
  function DecodeAll(d: Codec.DecoderState, blocks: seq<Bytes>): Option<seq<seq<Header>>>
    decreases |blocks|
  {
    if blocks == [] then Some([])
    else
      var decoded := Codec.DecodeBlock(d, blocks[0]);
      var later := DecodeAll(decoded.next, blocks[1..]);
      if decoded.error.Some? || later.None? then None else Some([decoded.headers] + later.value)
  }

  lemma {:induction false} AllComeBack(ht: HeaderTable, d: Codec.DecoderState, lists: seq<seq<Header>>)
    requires Codec.Follows(ht, d.table) && ListsFit(lists)
    ensures DecodeAll(d, EncodeAll(ht, lists)) == Some(lists)
    decreases |lists|
  {
    if lists != [] {
      var (block, ht') := Codec.EncodeBlock(ht, lists[0]);
      Codec.BlockRoundTrip(ht, d, lists[0]);
      AllComeBack(ht', Codec.DecodeBlock(d, block).next, lists[1..]);
      assert EncodeAll(ht, lists)[1..] == EncodeAll(ht', lists[1..]);
      assert [lists[0]] + lists[1..] == lists;
    }
  }

  lemma {:induction false} EncodeSome(ht: HeaderTable, lists: seq<seq<Header>>, n: nat)
    requires n <= |lists|
    ensures EncodeAll(ht, lists[..n]) == EncodeAll(ht, lists)[..n]
    decreases |lists|
  {
    if n > 0 {
      assert lists[..n][1..] == lists[1..][..n - 1];
      EncodeSome(Codec.EncodeBlock(ht, lists[0]).1, lists[1..], n - 1);
    }
  }

  /** Any number of header lists, encoded with one table, are read back from frames that hold
      their blocks in that order, not interrupted; whatever frames are between them and
      whatever bytes follow. */
  lemma SessionEndToEnd(ht: HeaderTable, d: Codec.DecoderState, lists: seq<seq<Header>>, packets: seq<Packet>,
                        maxFrame: nat, later: Bytes)
    requires Codec.Follows(ht, d.table) && ListsFit(lists) && AllSendable(packets, maxFrame)
    requires ScanAll(Between, packets) == Between && BlocksIn(packets) == EncodeAll(ht, lists)
    ensures var read := BlocksIn(Deframe(Wire(packets) + later, maxFrame).packets);
            |read| >= |lists| && DecodeAll(d, read[..|lists|]) == Some(lists)
  {
    var more := Deframe(later, maxFrame).packets;
    WireRoundTrip(packets, later, maxFrame);
    LengthsKeepScan(Between, packets);
    BlocksAppend(WithLengths(packets), more);
    BlocksIgnoreLengths(packets);
    AllComeBack(ht, d, lists);
    assert (BlocksIn(packets) + BlocksIn(more))[..|lists|] == BlocksIn(packets);
  }

  /** Blocks must be decoded in the order in which they were encoded. Of two blocks with the
      same header of a new name, the second read by a peer that has not read the first gives
      whatever entry is newest there, or an error; so it gives the header exactly if the
      table has no room for it, or the peer has it in the newest entry already. `H2Blocks`
      says when a connection sends blocks in order. */
  lemma SwappedBlocksFail(ht: HeaderTable, d: Codec.DecoderState, h: Header)
    requires Codec.Follows(ht, d.table) && Find(ht.All(), h).None? && Codec.HeaderFits(h)
    ensures var r := Codec.DecodeBlock(d, Codec.EncodeBlock(Codec.EncodeBlock(ht, [h]).1, [h]).0);
            && (r.headers == [h] && r.error.None? <==>
                  EntrySize(h) > ht.maxSize || (d.table.dynamic != [] && d.table.dynamic[0] == h))
            && (EntrySize(h) <= ht.maxSize ==>
                  r == if d.table.dynamic == [] then Codec.Decoded([], d, Some(Codec.HeaderIndexOutOfBounds))
                       else Codec.Decoded([d.table.dynamic[0]], d, None))
  {
    Session.BlockOfOne(ht, h);
    var ht' := ht.Add(h);
    ht.StaysValid(h, 0);
    Session.BlockOfOne(ht', h);
    Session.StaticNamesDiffer(ht, h);
    if EntrySize(h) <= ht.maxSize {
      Session.SecondSending(ht', d, h);
    } else {
      assert ht'.dynamic == [] && ht'.All() == ht.statics;
      Codec.BlockRoundTrip(ht', d, [h]);
    }
  }

  // ---- A response ----

  lemma {:induction false} TraceIgnoresLengths(t: Trace, packets: seq<Packet>, id: StreamId)
    ensures Follow(t, Own(WithLengths(packets), id)) == Follow(t, Own(packets, id))
    decreases |packets|
  {
    if packets != [] {
      var read := WithLengths(packets);
      assert read[1..] == WithLengths(packets[1..]);
      var p := packets[0];
      TraceIgnoresLengths(Accept(t, p.frame.ty, p.payload), packets[1..], id);
      TraceIgnoresLengths(t, packets[1..], id);
    }
  }

  /** A peer that deframes the bytes of a connection sees the same responses. */
  lemma ResponsesSurviveTheWire(packets: seq<Packet>, id: StreamId, maxFrame: nat)
    requires AllSendable(packets, maxFrame)
    ensures TraceOf(Deframe(Wire(packets), maxFrame).packets, id) == TraceOf(packets, id)
  {
    WireRoundTrip(packets, [], maxFrame);
    assert Wire(packets) + [] == Wire(packets);
    assert Deframe([], maxFrame).packets == [];
    assert WithLengths(packets) + [] == WithLengths(packets);
    TraceIgnoresLengths(NoFrames, packets, id);
  }

  // ---- Every frame a connection writes can be written ----

  lemma {:induction false} DataPacketsSendable(id: StreamId, pieces: seq<Bytes>, ends: bool)
    requires id < 0x8000_0000 && forall i :: 0 <= i < |pieces| ==> |pieces[i]| <= MAX_FRAME_SIZE
    ensures AllSendable(DataPackets(id, pieces, ends), MAX_FRAME_SIZE)
    decreases |pieces|
  {
    if pieces != [] {
      DataPacketsSendable(id, pieces[1..], ends);
    }
  }

  lemma SendableAppend(a: seq<Packet>, b: seq<Packet>)
    requires AllSendable(a, MAX_FRAME_SIZE) && AllSendable(b, MAX_FRAME_SIZE)
    ensures AllSendable(a + b, MAX_FRAME_SIZE)
  {
  }

  lemma TurnIsSendable(id: StreamId, o: Outgoing, connCapacity: int, maxFrame: FrameSize)
    requires id < 0x8000_0000 && maxFrame <= MAX_FRAME_SIZE
    ensures AllSendable(TurnPackets(id, o, connCapacity, maxFrame), MAX_FRAME_SIZE)
  {
    var capacity := Usable(connCapacity, o.capacity);
    if o.headers.WroteNone? || o.headers.WroteSome? {
      ChunksPartition(o.headers.piece, maxFrame);
      HeaderPacketsSendable(id, Chunks(o.headers.piece, maxFrame), o.headers.WroteSome?, MAX_FRAME_SIZE);
    }
    var taken := o.body.Queued()[..TurnBytes(o.body, capacity)];
    ChunksPartition(taken, maxFrame);
    DataPacketsSendable(id, Chunks(taken, maxFrame), TurnEnds(o.body, capacity));
    SendableAppend(BlockPackets(id, o.headers, maxFrame), BodyPackets(id, o.body, capacity, maxFrame));
  }

  lemma {:induction false} TurnsAreSendable(conn: Conn, order: seq<StreamId>)
    requires AllSend(conn, order) && conn.maxFrameSize <= MAX_FRAME_SIZE
    requires forall i :: 0 <= i < |order| ==> order[i] < 0x8000_0000
    ensures AllSendable(Turns(conn, order), MAX_FRAME_SIZE)
    decreases |order|
  {
    if order != [] {
      TurnIsSendable(order[0], conn.Out(order[0]), conn.outgoingCapacity, conn.maxFrameSize);
      TurnsAreSendable(conn, order[1..]);
      SendableAppend(Turn(conn, order[0]), Turns(conn, order[1..]));
    }
  }

  lemma AnswersAreSendable(wire: seq<Packet>, next: seq<Packet>, at: StreamId)
    requires AllSendable(wire, MAX_FRAME_SIZE) && Answered(wire, next, at) && at < 0x8000_0000
    ensures AllSendable(next, MAX_FRAME_SIZE)
  {
    forall i | 0 <= i < |next|
      ensures Sendable(next[i], MAX_FRAME_SIZE)
    {
      if i < |wire| {
        assert next[i] == wire[i];
      }
    }
  }

  /** Ids of received frames are what a frame header can hold. */
  predicate IdFits(input: Input) {
    input.Received? ==> FrameId(input.frame) < 0x8000_0000
  }

  predicate Writable(w: World) {
    && AllSendable(w.wire, MAX_FRAME_SIZE) && w.conn.maxFrameSize <= MAX_FRAME_SIZE
    && w.conn.lastStreamId < 0x8000_0000
  }

  lemma {:induction false} SettingsKeepFrameSize(conn: Conn, settings: seq<SettingValue>)
    requires conn.maxFrameSize <= MAX_FRAME_SIZE
    ensures var r := ApplySettings(conn, settings); r.Some? ==> r.value.maxFrameSize <= MAX_FRAME_SIZE
    decreases |settings|
  {
    if settings != [] && ApplySetting(conn, settings[0]).Some? {
      SettingsKeepFrameSize(ApplySetting(conn, settings[0]).value, settings[1..]);
    }
  }

  lemma FrameKeepsLimits(w: World, f: InFrame)
    requires w.conn.maxFrameSize <= MAX_FRAME_SIZE && w.conn.lastStreamId < 0x8000_0000 && FrameId(f) < 0x8000_0000
    ensures var conn := ProcessFrame(w, f).conn; conn.maxFrameSize <= MAX_FRAME_SIZE && conn.lastStreamId < 0x8000_0000
  {
    if f.InSettings? {
      SettingsKeepStreams(w.conn, f.settings);
      SettingsKeepFrameSize(w.conn, f.settings);
    } else if f.InHeaders? {
      HeadersKeepLimits(w, f.id, f.last, f.badPriority, f.verdict);
    }
  }

  predicate LimitsMove(w: World, next: World, at: StreamId) {
    && next.conn.maxFrameSize == w.conn.maxFrameSize
    && (next.conn.lastStreamId == w.conn.lastStreamId || next.conn.lastStreamId == at)
  }

  lemma NewHeadersKeepLimits(w: World, at: StreamId, last: bool, verdict: Verdict)
    ensures LimitsMove(w, ReceiveNewHeaders(w, at, last, verdict), at)
  {
    if at % 2 == 1 && at > w.conn.lastStreamId {
      if |w.conn.streams| + 1 > w.conn.maxStreams {
        assert LimitsMove(w, RefuseBlock(w, at, 7, verdict), at);
      } else {
        assert LimitsMove(w, ReceiveRequest(w, at, last, verdict), at);
      }
    }
  }

  lemma HeadersKeepLimits(w: World, at: StreamId, last: bool, badPriority: bool, verdict: Verdict)
    ensures LimitsMove(w, ReceiveHeaders(w, at, last, badPriority, verdict), at)
  {
    if at in w.conn.streams {
      assert LimitsMove(w, ReceiveMoreHeaders(w, at, last, verdict), at);
    } else {
      NewHeadersKeepLimits(w, at, last, verdict);
    }
  }

  lemma ScheduleKeepsWritable(w: World, order: seq<StreamId>)
    requires Good(w) && w.status.Running? && Enumerates(order, w.conn.pending) && SendDataMaybe(w, order).status.Running?
    requires Writable(w)
    ensures Writable(SendDataMaybe(w, order))
  {
    GoodInRange(w, order);
    SchedulerRunsIff(w, order);
    ScheduleAppends(w, order);
    assert StreamGood(w, 0);
    SchedulerEffect(w, order, 0);
    if w.conn.outgoingCapacity > 0 {
      forall i | 0 <= i < |order|
        ensures order[i] < 0x8000_0000
      {
        assert StreamGood(w, order[i]);
      }
      TurnsAreSendable(w.conn, order);
    }
    SendableAppend(w.wire, Scheduling(w.conn, order));
  }

  lemma StepKeepsWritable(w: World, input: Input)
    requires Good(w) && w.status.Running? && Enabled(w, input) && !Step(w, input).status.Panicked?
    requires Writable(w) && IdFits(input)
    ensures Writable(Step(w, input))
  {
    match input
    case Received(frame) =>
      FrameGrows(w, frame);
      AnswersAreSendable(w.wire, ProcessFrame(w, frame).wire, FrameId(frame));
      FrameKeepsLimits(w, frame);
    case Event(at, payload) => EventKeepsConn(w, at, payload);
    case Scheduled(order) =>
      GoodInRange(w, order);
      SchedulerRunsIff(w, order);
      ScheduleKeepsWritable(w, order);
  }

  /** In every run whose frames have ids that fit a frame header, every frame written has a
      length and an id that fit, and no padding. */
  lemma {:induction false} ReachableWireIsSendable(w: World, inputs: seq<Input>, last: World)
    requires Good(w) && Writable(w) && RunsTo(w, inputs, last) && !last.status.Panicked?
    requires forall i :: 0 <= i < |inputs| ==> IdFits(inputs[i])
    ensures Writable(last)
    decreases |inputs|
  {
    if !w.status.Running? {
      StoppedStays(w, inputs, last);
    } else if inputs != [] {
      var next := Step(w, inputs[0]);
      StepKeepsGood(w, inputs[0]);
      if next.status.Panicked? {
        StoppedStays(next, inputs[1..], last);
      } else {
        StepKeepsWritable(w, inputs[0]);
        ReachableWireIsSendable(next, inputs[1..], last);
      }
    }
  }

  /** What a peer makes of the bytes of a whole run: of every stream it reads the header
      block and a prefix of the chunks that the handler gave, and the end only with all of
      them. */
  lemma PeerReadsResponses(maxStreams: nat, inputs: seq<Input>, last: World, id: StreamId)
    requires Reaches(maxStreams, inputs, last) && forall i :: 0 <= i < |inputs| ==> IdFits(inputs[i])
    ensures AllSendable(last.wire, MAX_FRAME_SIZE)
    ensures var t, given := TraceOf(Deframe(Wire(last.wire), MAX_FRAME_SIZE).packets, id), StoryOf(inputs, id);
            && (t.NoFrames? || t.BodyPart? || t.Ended?)
            && (!t.NoFrames? ==> given.block == Some(t.block) && t.body <= given.body)
            && (t.Ended? ==> given.ended && t.body == given.body)
            && (last.status.Running? && last.conn.HasOutgoing(id) ==>
                  BodyOf(t) + last.conn.Out(id).body.Queued() == given.body)
  {
    NewWorldIsGood(maxStreams);
    ReachableWireIsSendable(NewWorld(maxStreams), inputs, last);
    ResponsesSurviveTheWire(last.wire, id, MAX_FRAME_SIZE);
    ResponseDelivery(maxStreams, inputs, last, id);
  }

  // ---- The header lists of a connection ----

  /** The blocks that a connection sends, read back frame by frame. */
  lemma WireBlocks(maxStreams: nat, inputs: seq<Input>, last: World)
    requires Reaches(maxStreams, inputs, last)
    ensures ScanAll(Between, last.wire) == Between && |BlocksIn(last.wire)| == |HeadersOn(last.wire)|
    ensures forall i :: 0 <= i < |HeadersOn(last.wire)| ==>
              StoryOf(inputs, HeadersOn(last.wire)[i]).block == Some(BlocksIn(last.wire)[i])
  {
    var first := NewWorld(maxStreams);
    NewWorldIsGood(maxStreams);
    BlocksAreContiguous(first, inputs, last);
    AsManyBlocks(last.wire);
    forall i | 0 <= i < |HeadersOn(last.wire)|
      ensures StoryOf(inputs, HeadersOn(last.wire)[i]).block == Some(BlocksIn(last.wire)[i])
    {
      ResponseDelivery(maxStreams, inputs, last, HeadersOn(last.wire)[i]);
      HeadersSeen(NoFrames, last.wire, HeadersOn(last.wire)[i]);
      BlocksAreTraces(last.wire, i);
    }
  }

  /** The blocks that the handlers of these streams gave hold these lists, encoded one after
      another. */
  predicate Compressed(ht: HeaderTable, lists: seq<seq<Header>>, inputs: seq<Input>, ids: seq<StreamId>) {
    |ids| == |lists| && forall i :: 0 <= i < |lists| ==> StoryOf(inputs, ids[i]).block == Some(EncodeAll(ht, lists)[i])
  }

  /** Over every run in which each run of the scheduler fits: a peer that deframes the bytes
      and decodes the header blocks among the frames gets the first header lists that the
      handlers gave, as many as blocks were sent. */
  lemma ConnectionEndToEnd(maxStreams: nat, inputs: seq<Input>, last: World,
                           ht: HeaderTable, d: Codec.DecoderState, lists: seq<seq<Header>>)
    requires Reaches(maxStreams, inputs, last) && forall i :: 0 <= i < |inputs| ==> IdFits(inputs[i])
    requires AllFit(NewWorld(maxStreams), inputs)
    requires Compressed(ht, lists, inputs, CompressedIn(NewWorld(maxStreams), inputs))
    requires Codec.Follows(ht, d.table) && ListsFit(lists)
    ensures AllSendable(last.wire, MAX_FRAME_SIZE) && |HeadersOn(last.wire)| <= |lists|
    ensures var read := BlocksIn(Deframe(Wire(last.wire), MAX_FRAME_SIZE).packets);
            DecodeAll(d, read) == Some(lists[..|HeadersOn(last.wire)|])
  {
    var first, n := NewWorld(maxStreams), |HeadersOn(last.wire)|;
    NewWorldIsTracked(maxStreams);
    BlocksInOrderIff(first, inputs, last);
    RunCompresses(first, inputs, last);
    ReachableWireIsSendable(first, inputs, last);
    WireBlocks(maxStreams, inputs, last);
    EncodeSome(ht, lists, n);
    assert BlocksIn(last.wire) == EncodeAll(ht, lists[..n]);
    SameBlocks(last.wire);
    AllComeBack(ht, d, lists[..n]);
  }

  lemma SameBlocks(packets: seq<Packet>)
    requires AllSendable(packets, MAX_FRAME_SIZE)
    ensures BlocksIn(Deframe(Wire(packets), MAX_FRAME_SIZE).packets) == BlocksIn(packets)
  {
    WireRoundTrip(packets, [], MAX_FRAME_SIZE);
    assert Wire(packets) + [] == Wire(packets);
    assert Deframe([], MAX_FRAME_SIZE).packets == [];
    assert WithLengths(packets) + [] == WithLengths(packets);
    BlocksIgnoreLengths(packets);
  }
}
