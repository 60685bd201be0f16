/** The two inner loops of the scheduler: cutting a header block into frames, and
    filling DATA frames from queued pieces. */
module H2Turn {
  import opened Common
  import opened Frames
  import opened H2State

  // ---- Headers ----

  /** `'queue_header_frames`: one frame an iteration, what does not fit is put back. */
  method QueueHeaderFrames(id: StreamId, headers: HeadersOutgoing, maxFrame: FrameSize)
    returns (frames: seq<Packet>, after: HeadersOutgoing)
    requires headers.WroteNone? || headers.WroteSome?
    ensures frames == BlockPackets(id, headers, maxFrame) && after == WroteAll
  {
    frames, after := [], headers;
    ghost var total := BlockPackets(id, headers, maxFrame);
    var queuing := true;
    while queuing
      invariant if queuing then (after.WroteNone? || after.WroteSome?) && frames + BlockPackets(id, after, maxFrame) == total
                else after == WroteAll && frames == total
      decreases queuing, if after.WroteNone? || after.WroteSome? then |after.piece| else 0
    {
      var isContinuation := after.WroteSome?;
      var piece := after.TakePiece();
      after := WroteAll;
      if |piece| > maxFrame {
        var written, requeued := piece[..maxFrame], piece[maxFrame..];
        after := WroteSome(requeued);
        assert Chunks(piece, maxFrame)[1..] == Chunks(requeued, maxFrame);
        frames := frames + [Packet(HeaderFrame(id, isContinuation, false), written)];
      } else {
        assert Chunks(piece, maxFrame)[1..] == [];
        frames := frames + [Packet(HeaderFrame(id, isContinuation, true), piece)];
        queuing := false;
      }
    }
  }

  // ---- Body ----

  lemma {:induction false} AdvanceAll(pieces: seq<Bytes>)
    ensures Advance(pieces, |Flatten(pieces)|) == []
  {
    AdvanceDrops(pieces, |Flatten(pieces)|);
  }

  lemma {:induction false} AdvanceAdd(pieces: seq<Bytes>, a: nat, b: nat)
    requires a < |Flatten(pieces)|
    ensures Advance(Advance(pieces, a), b) == Advance(pieces, a + b)
    decreases |pieces|
  {
    var first := pieces[0];
    if |first| <= a {
      AdvanceAdd(pieces[1..], a - |first|, b);
    } else {
      var cut := [first[a..]] + pieces[1..];
      assert cut[1..] == pieces[1..];
      assert |first[a..]| > b ==> first[a..][b..] == first[a + b..];
    }
  }

  /** The same stage once everything was popped. */
  function Drained(body: BodyOutgoing): BodyOutgoing {
    if body.StillReceiving? then StillReceiving([]) else DoneSending
  }

  /** `'build_frame`: pieces are popped until the frame is full; a piece that does not
      fit is split and its rest put back. */
  method BuildFrame(body: BodyOutgoing, limit: nat) returns (plist: seq<Bytes>, frameLen: nat, after: BodyOutgoing)
    requires !body.DoneSending?
    ensures frameLen == Min(|body.Queued()|, limit) && Flatten(plist) == body.Queued()[..frameLen]
    ensures after == if |body.Queued()| <= limit then Drained(body) else body.WithPieces(Advance(body.pieces, limit))
  {
    plist, frameLen, after := [], 0, body;
    ghost var left := body.pieces;
    var building := true;
    while building
      invariant frameLen == |Flatten(plist)| <= limit
      invariant building ==> Flatten(plist) + Flatten(left) == body.Queued()
      invariant building ==> Advance(left, limit - frameLen) == Advance(body.pieces, limit)
      invariant building ==> after == body.WithPieces(left) || (left == [] && after == Drained(body))
      invariant !building ==> frameLen == Min(|body.Queued()|, limit) && Flatten(plist) == body.Queued()[..frameLen]
      invariant !building ==>
                  after == if |body.Queued()| <= limit then Drained(body) else body.WithPieces(Advance(body.pieces, limit))
      decreases building, |left|
    {
      var popped := after.PopFront();
      after := popped.1;
      if popped.0.None? {
        building := false;
      } else {
        var piece := popped.0.value;
        assert Flatten(left) == piece + Flatten(left[1..]);
        if frameLen + |piece| > limit {
          var size := limit - frameLen;
          var written, requeued := piece[..size], piece[size..];
          FlattenSnoc(plist, written);
          plist := plist + [written];
          after := after.PushFront(requeued);
          frameLen := frameLen + size;
          building := false;
        } else {
          FlattenSnoc(plist, piece);
          Reassociate(Flatten(plist), piece, Flatten(left[1..]));
          plist := plist + [piece];
          frameLen := frameLen + |piece|;
          left := left[1..];
        }
      }
    }
  }

  /** What is left of a turn after one frame that took everything. */
  lemma LastFrame(id: StreamId, body: BodyOutgoing, capacity: nat, maxFrame: FrameSize)
    requires !body.DoneSending? && capacity > 0 && |body.Queued()| <= Min(maxFrame, capacity)
    ensures var q := body.Queued();
            && BodyPackets(id, body, capacity, maxFrame) ==
               (if q == [] && body.StillReceiving? then [] else [DataPacket(id, q, body.DoneReceiving?)])
            && BodyAfterTurn(body, capacity) == Drained(body)
  {
    var q := body.Queued();
    assert q[..|q|] == q;
    assert Chunks(q, maxFrame) == [q] && Chunks(q, maxFrame)[1..] == [];
    AdvanceAll(body.pieces);
  }

  lemma DrainedIsDone(id: StreamId, capacity: nat, maxFrame: FrameSize)
    ensures BodyPackets(id, StillReceiving([]), capacity, maxFrame) == []
    ensures BodyAfterTurn(StillReceiving([]), capacity) == StillReceiving([])
  {
  }

  /** What is left of a turn after one frame that was filled. */
  lemma FullFrame(id: StreamId, body: BodyOutgoing, capacity: nat, maxFrame: FrameSize)
    requires !body.DoneSending? && capacity > 0 && |body.Queued()| > Min(maxFrame, capacity)
    ensures var limit := Min(maxFrame, capacity);
            var after := body.WithPieces(Advance(body.pieces, limit));
            && BodyPackets(id, body, capacity, maxFrame) ==
               [DataPacket(id, body.Queued()[..limit], false)] + BodyPackets(id, after, capacity - limit, maxFrame)
            && BodyAfterTurn(body, capacity) == BodyAfterTurn(after, capacity - limit)
  {
    var limit, q := Min(maxFrame, capacity), body.Queued();
    var after := body.WithPieces(Advance(body.pieces, limit));
    AdvanceDrops(body.pieces, limit);
    assert after.Queued() == q[limit..];
    FullFrameRest(body, after, capacity, limit);
    FullFramePackets(id, body, after, capacity, maxFrame);
  }

  lemma FullFrameRest(body: BodyOutgoing, after: BodyOutgoing, capacity: nat, limit: nat)
    requires !body.DoneSending? && 0 < limit <= capacity && |body.Queued()| > limit
    requires after == body.WithPieces(Advance(body.pieces, limit)) && after.Queued() == body.Queued()[limit..]
    ensures BodyAfterTurn(body, capacity) == BodyAfterTurn(after, capacity - limit)
  {
    if capacity > limit && !TurnEnds(body, capacity) {
      AdvanceAdd(body.pieces, limit, TurnBytes(body, capacity) - limit);
    }
  }

  lemma FullFramePackets(id: StreamId, body: BodyOutgoing, after: BodyOutgoing, capacity: nat, maxFrame: FrameSize)
    requires !body.DoneSending? && capacity > 0 && |body.Queued()| > Min(maxFrame, capacity)
    requires !after.DoneSending? && after.StillReceiving? == body.StillReceiving?
    requires after.Queued() == body.Queued()[Min(maxFrame, capacity)..]
    ensures BodyPackets(id, body, capacity, maxFrame) ==
            [DataPacket(id, body.Queued()[..Min(maxFrame, capacity)], false)]
            + BodyPackets(id, after, capacity - Min(maxFrame, capacity), maxFrame)
  {
    var limit, q, n := Min(maxFrame, capacity), body.Queued(), TurnBytes(body, capacity);
    var taken := q[..n];
    if capacity == limit {
      assert Chunks(taken, maxFrame) == [taken] && Chunks(taken, maxFrame)[1..] == [];
    } else {
      assert taken[..limit] == q[..limit] && taken[limit..] == q[limit..][..n - limit];
      assert Chunks(taken, maxFrame)[1..] == Chunks(taken[limit..], maxFrame);
    }
  }

  /** One frame of a turn, if there is one, and what is left of the turn after it. */
  ghost predicate OneFrame(id: StreamId, body: BodyOutgoing, capacity: nat, maxFrame: FrameSize,
                           frame: Option<Packet>, frameLen: nat, after: BodyOutgoing)
  {
    var packets, last := BodyPackets(id, body, capacity, maxFrame), BodyAfterTurn(body, capacity);
    && (frame.None? ==> packets == [] && after == last)
    && (frame.Some? && after.DoneSending? ==> packets == [frame.value] && after == last)
    && (frame.Some? && !after.DoneSending? ==>
          && 0 < frameLen <= capacity
          && packets == [frame.value] + BodyPackets(id, after, capacity - frameLen, maxFrame)
          && last == BodyAfterTurn(after, capacity - frameLen))
    && (frame.None? ==> !after.DoneSending?)
  }

  /** The body of that loop: an empty frame is queued only to carry END_STREAM. */
  method QueueOneFrame(id: StreamId, body: BodyOutgoing, capacity: nat, maxFrame: FrameSize)
    returns (frame: Option<Packet>, frameLen: nat, after: BodyOutgoing)
    requires !body.DoneSending? && capacity > 0
    ensures OneFrame(id, body, capacity, maxFrame, frame, frameLen, after)
  {
    var limit, plist := Min(maxFrame, capacity), [];
    plist, frameLen, after := BuildFrame(body, limit);
    ghost var q := body.Queued();
    if |q| <= limit {
      LastFrame(id, body, capacity, maxFrame);
      DrainedIsDone(id, capacity - frameLen, maxFrame);
      assert q[..|q|] == q;
    } else {
      FullFrame(id, body, capacity, maxFrame);
    }
    if after.MightReceiveMore() && frameLen == 0 {
      frame := None;
    } else {
      frame := Some(DataPacket(id, Flatten(plist), !after.MightReceiveMore()));
    }
  }

  /** `'queue_body_frames`: frames until the windows are used up, nothing is queued, or
      the stream was ended. */
  method QueueBodyFrames(id: StreamId, body: BodyOutgoing, capacity: nat, maxFrame: FrameSize)
    returns (frames: seq<Packet>, after: BodyOutgoing)
    requires !body.DoneSending?
    ensures frames == BodyPackets(id, body, capacity, maxFrame) && after == BodyAfterTurn(body, capacity)
  {
    frames, after := [], body;
    var written := 0;
    ghost var allFrames, last := BodyPackets(id, body, capacity, maxFrame), BodyAfterTurn(body, capacity);
    var queuing := true;
    while queuing && written < capacity
      invariant written <= capacity
      invariant queuing ==> !after.DoneSending?
      invariant queuing ==> frames + BodyPackets(id, after, capacity - written, maxFrame) == allFrames
      invariant queuing ==> BodyAfterTurn(after, capacity - written) == last
      invariant !queuing ==> frames == allFrames && after == last
      decreases queuing, capacity - written
    {
      var frame, frameLen;
      ghost var left := BodyPackets(id, after, capacity - written, maxFrame);
      frame, frameLen, after := QueueOneFrame(id, after, capacity - written, maxFrame);
      if frame.None? {
        assert frames + left == frames;
        queuing := false;
      } else {
        ghost var rest := if after.DoneSending? then [] else BodyPackets(id, after, capacity - written - frameLen, maxFrame);
        assert left == [frame.value] + rest;
        Reassociate(frames, [frame.value], rest);
        frames := frames + [frame.value];
        if after.DoneSending? {
          queuing := false;
        } else {
          written := written + frameLen;
        }
      }
    }
  }

  /** The rest of a pass over pending streams, for a stream that has its headers. */
  method TakeTurn(id: StreamId, outgoing: Outgoing, connCapacity: int, maxFrame: FrameSize)
    returns (frames: seq<Packet>, after: Outgoing)
    requires !outgoing.headers.WaitingForHeaders?
    ensures frames == TurnPackets(id, outgoing, connCapacity, maxFrame) && after == AfterTurn(outgoing, connCapacity)
  {
    frames, after := [], outgoing;
    if outgoing.headers.HasMoreToWrite() {
      var headers;
      frames, headers := QueueHeaderFrames(id, outgoing.headers, maxFrame);
      after := after.(headers := headers);
    }
    var capacity := Usable(connCapacity, outgoing.capacity);
    if !outgoing.body.DoneSending? {
      var data, body := QueueBodyFrames(id, outgoing.body, capacity, maxFrame);
      frames, after := frames + data, after.(body := body);
    }
  }
}
