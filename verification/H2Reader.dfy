/** A peer that reads the frames of a connection: the header blocks it collects, whatever
    frames come between them, are the blocks of the streams in wire order. */
module H2Reader {
  import opened Common
  import opened Frames
  import opened H2State
  import opened H2Scheduler
  import opened H2Delivery
  import opened H2Windows
  import opened H2Wire
  import opened H2Blocks
  import opened Deframer

  lemma {:induction false} CollectingLeaves(id: StreamId, fragments: Bytes, rx: seq<Packet>)
    ensures var r := CollectFrom(id, fragments, rx); r.Block? ==> |r.rest| <= |rx|
    decreases |rx|
  {
    if rx != [] {
      CollectingLeaves(id, fragments + rx[0].payload, rx[1..]);
    }
  }

  /** The header blocks among the frames, up to one that is cut short. */
  function BlocksIn(packets: seq<Packet>): seq<Bytes>
    decreases |packets|
  {
    if packets == [] then []
    else if !packets[0].frame.ty.Headers? then BlocksIn(packets[1..])
    else
      CollectingLeaves(packets[0].frame.streamId, packets[0].payload, packets[1..]);
      match Collect(packets[0], packets[1..])
      case Block(data, rest) => [data] + BlocksIn(rest)
      case _ => []
  }

  // ---- One block ----

  lemma {:induction false} TornStays(packets: seq<Packet>)
    ensures ScanAll(Torn, packets) == Torn
    decreases |packets|
  {
    if packets != [] {
      TornStays(packets[1..]);
    }
  }

  /** Inside a block that is not interrupted, the next frame goes on with it. */
  lemma NextContinues(id: StreamId, rx: seq<Packet>)
    requires ScanAll(Inside(id), rx) == Between
    ensures rx != [] && rx[0].frame.ty.Continuation? && rx[0].frame.streamId == id
  {
    if rx != [] && Scan(Inside(id), rx[0]).Torn? {
      TornStays(rx[1..]);
    }
  }

  /** It is collected, and the frames that follow are whole again. */
  lemma {:induction false} RestOfBlock(id: StreamId, fragments: Bytes, rx: seq<Packet>)
    requires ScanAll(Inside(id), rx) == Between
    ensures var r := CollectFrom(id, fragments, rx);
            r.Block? && |r.rest| < |rx| && ScanAll(Between, r.rest) == Between && HeadersOn(r.rest) == HeadersOn(rx)
    decreases |rx|
  {
    NextContinues(id, rx);
    if !rx[0].frame.ty.endHeaders {
      RestOfBlock(id, fragments + rx[0].payload, rx[1..]);
    }
  }

  lemma {:induction false} RestOfBlockThen(id: StreamId, fragments: Bytes, rx: seq<Packet>, more: seq<Packet>)
    requires ScanAll(Inside(id), rx) == Between
    ensures var r := CollectFrom(id, fragments, rx);
            r.Block? && CollectFrom(id, fragments, rx + more) == Block(r.data, r.rest + more)
    decreases |rx|
  {
    NextContinues(id, rx);
    assert (rx + more)[0] == rx[0] && (rx + more)[1..] == rx[1..] + more;
    if !rx[0].frame.ty.endHeaders {
      RestOfBlockThen(id, fragments + rx[0].payload, rx[1..], more);
    }
  }

  /** The stream's trace has the block that is collected; other streams have no part in it. */
  lemma {:induction false} RestOfTrace(id: StreamId, fragments: Bytes, rx: seq<Packet>, of: StreamId)
    requires ScanAll(Inside(id), rx) == Between
    ensures var r := CollectFrom(id, fragments, rx);
            && r.Block?
            && (of == id ==> Follow(HeadersPart(fragments), Own(rx, id)) == Follow(BodyPart(r.data, []), Own(r.rest, id)))
            && (of != id ==> Own(rx, of) == Own(r.rest, of))
    decreases |rx|
  {
    NextContinues(id, rx);
    if !rx[0].frame.ty.endHeaders {
      RestOfTrace(id, fragments + rx[0].payload, rx[1..], of);
    }
  }

  lemma FirstBlock(packets: seq<Packet>)
    requires packets != [] && packets[0].frame.ty.Headers? && ScanAll(Between, packets) == Between
    ensures var r := Collect(packets[0], packets[1..]);
            && r.Block? && |r.rest| < |packets| && ScanAll(Between, r.rest) == Between
            && HeadersOn(packets) == [packets[0].frame.streamId] + HeadersOn(r.rest)
            && BlocksIn(packets) == [r.data] + BlocksIn(r.rest)
  {
    if !packets[0].frame.ty.endHeaders {
      RestOfBlock(packets[0].frame.streamId, packets[0].payload, packets[1..]);
    }
  }

  lemma FirstTrace(packets: seq<Packet>, id: StreamId)
    requires packets != [] && packets[0].frame.ty.Headers? && ScanAll(Between, packets) == Between
    ensures var r := Collect(packets[0], packets[1..]);
            && r.Block?
            && (id == packets[0].frame.streamId && !TraceOf(packets, id).Malformed? ==>
                  TraceOf(packets, id) == Follow(BodyPart(r.data, []), Own(r.rest, id)))
            && (id != packets[0].frame.streamId ==> TraceOf(packets, id) == TraceOf(r.rest, id))
  {
    MalformedStays(Own(packets[1..], id));
    if !packets[0].frame.ty.endHeaders {
      RestOfTrace(packets[0].frame.streamId, packets[0].payload, packets[1..], id);
    }
  }

  // ---- All blocks ----

  predicate HasBlock(t: Trace) {
    t.BodyPart? || t.Ended?
  }

  lemma {:induction false} BlockStays(t: Trace, packets: seq<Packet>)
    requires HasBlock(t)
    ensures var r := Follow(t, packets); HasBlock(r) ==> r.block == t.block
    decreases |packets|
  {
    if packets != [] {
      var next := Accept(t, packets[0].frame.ty, packets[0].payload);
      if next.Malformed? {
        MalformedStays(packets[1..]);
      } else {
        BlockStays(next, packets[1..]);
      }
    }
  }

  /** A second block on a stream spoils its trace. */
  lemma {:induction false} OneBlockOnly(t: Trace, packets: seq<Packet>, id: StreamId)
    requires !t.NoFrames? && id in HeadersOn(packets)
    ensures Follow(t, Own(packets, id)).Malformed?
    decreases |packets|
  {
    var p := packets[0];
    if Carries(p, id) {
      if p.frame.ty.Headers? {
        MalformedStays(Own(packets[1..], id));
      } else {
        OneBlockOnly(Accept(t, p.frame.ty, p.payload), packets[1..], id);
      }
    } else {
      OneBlockOnly(t, packets[1..], id);
    }
  }

  /** A frame between blocks belongs to no stream that has its block still to come. */
  lemma BetweenBlocks(packets: seq<Packet>, id: StreamId)
    requires packets != [] && !packets[0].frame.ty.Headers? && ScanAll(Between, packets) == Between
    ensures ScanAll(Between, packets[1..]) == Between
    ensures HasBlock(TraceOf(packets, id)) ==> TraceOf(packets, id) == TraceOf(packets[1..], id)
  {
    if packets[0].frame.ty.Continuation? {
      TornStays(packets[1..]);
    }
    MalformedStays(Own(packets[1..], id));
  }

  lemma {:induction false} AsManyBlocks(packets: seq<Packet>)
    requires ScanAll(Between, packets) == Between
    ensures |BlocksIn(packets)| == |HeadersOn(packets)|
    decreases |packets|
  {
    if packets != [] {
      if packets[0].frame.ty.Headers? {
        FirstBlock(packets);
        AsManyBlocks(Collect(packets[0], packets[1..]).rest);
      } else {
        BetweenBlocks(packets, 0);
        AsManyBlocks(packets[1..]);
      }
    }
  }

  /** On frames whose blocks are not interrupted, the blocks that are collected are those of
      the streams' traces, in wire order. */
  lemma {:induction false} BlocksAreTraces(packets: seq<Packet>, i: nat)
    requires ScanAll(Between, packets) == Between && i < |HeadersOn(packets)| == |BlocksIn(packets)|
    requires HasBlock(TraceOf(packets, HeadersOn(packets)[i]))
    ensures BlocksIn(packets)[i] == TraceOf(packets, HeadersOn(packets)[i]).block
    decreases |packets|
  {
    var id := HeadersOn(packets)[i];
    if packets[0].frame.ty.Headers? {
      var r := Collect(packets[0], packets[1..]);
      FirstBlock(packets);
      FirstTrace(packets, id);
      if i == 0 {
        BlockStays(BodyPart(r.data, []), Own(r.rest, id));
      } else {
        assert HeadersOn(r.rest)[i - 1] == id;
        if id == packets[0].frame.streamId {
          OneBlockOnly(BodyPart(r.data, []), r.rest, id);
        }
        BlocksAreTraces(r.rest, i - 1);
      }
    } else {
      BetweenBlocks(packets, id);
      BlocksAreTraces(packets[1..], i);
    }
  }

  lemma FirstBlockThen(a: seq<Packet>, b: seq<Packet>)
    requires a != [] && a[0].frame.ty.Headers? && ScanAll(Between, a) == Between
    ensures var r := Collect(a[0], a[1..]); r.Block? && BlocksIn(a + b) == [r.data] + BlocksIn(r.rest + b)
  {
    assert (a + b)[0] == a[0] && (a + b)[1..] == a[1..] + b;
    if !a[0].frame.ty.endHeaders {
      RestOfBlockThen(a[0].frame.streamId, a[0].payload, a[1..], b);
    }
  }

  /** More frames after whole blocks add their own. */
  lemma {:induction false} BlocksAppend(a: seq<Packet>, b: seq<Packet>)
    requires ScanAll(Between, a) == Between
    ensures BlocksIn(a + b) == BlocksIn(a) + BlocksIn(b)
    decreases |a|
  {
    if a == [] {
      assert a + b == b;
    } else {
      if a[0].frame.ty.Headers? {
        var first := Collect(a[0], a[1..]);
        FirstBlock(a);
        FirstBlockThen(a, b);
        BlocksAppend(first.rest, b);
        Reassociate([first.data], BlocksIn(first.rest), BlocksIn(b));
      } else {
        assert (a + b)[0] == a[0] && (a + b)[1..] == a[1..] + b;
        BetweenBlocks(a, 0);
        BlocksAppend(a[1..], b);
      }
    }
  }

  // ---- Lengths ----

  lemma LengthsOfRest(packets: seq<Packet>)
    requires packets != []
    ensures WithLengths(packets)[0] == WithLength(packets[0]) && WithLengths(packets)[1..] == WithLengths(packets[1..])
  {
  }

  lemma {:induction false} LengthsKeepScan(b: BlockScan, packets: seq<Packet>)
    ensures ScanAll(b, WithLengths(packets)) == ScanAll(b, packets)
    decreases |packets|
  {
    if packets != [] {
      LengthsOfRest(packets);
      LengthsKeepScan(Scan(b, packets[0]), packets[1..]);
    }
  }

  lemma {:induction false} CollectIgnoresLengths(id: StreamId, fragments: Bytes, rx: seq<Packet>)
    ensures var r, s := CollectFrom(id, fragments, rx), CollectFrom(id, fragments, WithLengths(rx));
            if r.Block? then s == Block(r.data, WithLengths(r.rest)) else s == r
    decreases |rx|
  {
    if rx != [] {
      LengthsOfRest(rx);
      CollectIgnoresLengths(id, fragments + rx[0].payload, rx[1..]);
    }
  }

  lemma {:induction false} BlocksIgnoreLengths(packets: seq<Packet>)
    ensures BlocksIn(WithLengths(packets)) == BlocksIn(packets)
    decreases |packets|
  {
    if packets != [] {
      LengthsOfRest(packets);
      if packets[0].frame.ty.Headers? {
        CollectIgnoresLengths(packets[0].frame.streamId, packets[0].payload, packets[1..]);
        CollectingLeaves(packets[0].frame.streamId, packets[0].payload, packets[1..]);
        var r := Collect(packets[0], packets[1..]);
        if r.Block? {
          BlocksIgnoreLengths(r.rest);
        }
      } else {
        BlocksIgnoreLengths(packets[1..]);
      }
    }
  }
}
