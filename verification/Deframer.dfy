/** The HTTP/2 deframer: frames and unpadded payloads out of a byte stream. */
module Deframer {
  import opened Common
  import opened Frames
  import opened Transports
  import opened BufPool
  import opened RollBuffer
  import opened Reading

  /** How the loop ends; `BufferStuck` is a panic. */
  datatype Outcome =
    | PeerHungUp
    | ConnectionReadError
    | PoolExhausted
    | BufferStuck(frame: Frame)
    | TruncatedFrame
    | FrameTooLarge(frame: Frame)
    | IncompleteFrame(frame: Frame)
    | PaddedFrameEmpty(frame: Frame)
    | PaddedFrameTooShort(frame: Frame, padding: nat)

  datatype Deframed = Deframed(packets: seq<Packet>, outcome: Outcome) {
    function After(packet: Packet): Deframed {
      this.(packets := [packet] + packets)
    }

    function Behind(earlier: seq<Packet>): Deframed {
      this.(packets := earlier + packets)
    }

    lemma BehindOne(earlier: seq<Packet>, packet: Packet)
      ensures After(packet).Behind(earlier) == Behind(earlier + [packet])
    {
      assert earlier + ([packet] + packets) == earlier + [packet] + packets;
    }
  }

  predicate HasPadding(ty: FrameType) {
    match ty
    case Data(padded, _) => padded
    case Headers(_, padded, _, _) => padded
    case _ => false
  }

  /** The payload without its padding (section 6.1 of RFC 9113). */
  function Unpad(frame: Frame, payload: Bytes): Result<Bytes, Outcome> {
    if !HasPadding(frame.ty) then Ok(payload)
    else if payload == [] then Err(PaddedFrameEmpty(frame))
    else if |payload| - 1 < payload[0] then Err(PaddedFrameTooShort(frame, payload[0]))
    else Ok(payload[1..|payload| - payload[0]])
  }

  /** The whole stream at once. */
  function Deframe(stream: Bytes, maxFrameSize: nat): Deframed
    decreases |stream|
  {
    match ParseFrame(stream)
    case Incomplete => Deframed([], if stream == [] then PeerHungUp else TruncatedFrame)
    case Failed => Deframed([], TruncatedFrame)
    case Done(frame, rest) =>
      if frame.len > maxFrameSize then Deframed([], FrameTooLarge(frame))
      else if |rest| < frame.len then
        Deframed([], if rest == [] then IncompleteFrame(frame) else TruncatedFrame)
      else
        match Unpad(frame, rest[..frame.len])
        case Err(outcome) => Deframed([], outcome)
        case Ok(payload) => Deframe(rest[frame.len..], maxFrameSize).After(Packet(frame, payload))
  }

  const MAX_FRAME_HEADER_SIZE := 128

  // ---- The buffer while frames are read ----

  /** A buffer as it is allocated. */
  predicate IsFresh(shape: Shape) {
    !shape.isBox && shape.size == BUF_SIZE && shape.off == 0
  }

  /** A size doubled until `n` bytes fit. */
  function Doubled(size: nat, n: nat): (doubled: nat)
    requires size > 0
    ensures size <= doubled && n <= doubled
    decreases n - size
  {
    if n <= size then size else Doubled(2 * size, n)
  }

  /** The shape of a buffer that holds `n` bytes from its offset on: moved to the front of
      another block and doubled until they fit. */
  function FillTo(shape: Shape, n: nat): (filled: Shape)
    requires shape.Valid()
    ensures filled.Valid() && n <= filled.Room()
  {
    var front := if shape.off > 0 then shape.Compacted(shape.Room()) else shape;
    if n <= shape.Room() then shape
    else if n <= front.Room() then front
    else Shape(true, Doubled(front.size, n), 0)
  }

  /** Each `reserve` of a full buffer is a step towards it. */
  lemma FillStep(shape: Shape, n: nat)
    requires shape.Valid() && shape.Room() < n
    ensures shape.Reserved(shape.Room()).Valid() && FillTo(shape, n) == FillTo(shape.Reserved(shape.Room()), n)
  {
    shape.RoomAfterReserve(shape.Room());
    var room, next := shape.Room(), shape.Reserved(shape.Room());
    if shape.off > 0 {
      assert next == shape.Compacted(room) && next.off == 0;
    } else {
      assert next == Shape(true, 2 * shape.size, 0);
      assert Doubled(shape.size, n) == Doubled(2 * shape.size, n);
    }
  }

  /** The shape after `n` bytes were read and consumed. */
  function Consumed(shape: Shape, n: nat): (after: Shape)
    requires shape.Valid()
    ensures after.Valid()
  {
    var filled := FillTo(shape, n);
    filled.(off := filled.off + n)
  }

  /** The payload of a frame gets the buffer stuck: see `StuckIff`. */
  predicate StuckOn(frame: Frame, rest: Bytes, shape: Shape) {
    shape.Stuck() && frame.len > BUF_SIZE && |rest| >= BUF_SIZE
  }

  /** The whole stream at once, read through a buffer of this shape. */
  function DeframeWith(stream: Bytes, shape: Shape, maxFrameSize: nat): Deframed
    requires shape.Valid()
    decreases |stream|
  {
    match ParseFrame(stream)
    case Incomplete => Deframed([], if stream == [] then PeerHungUp else TruncatedFrame)
    case Failed => Deframed([], TruncatedFrame)
    case Done(frame, rest) =>
      var ready := Consumed(shape, HEADER_SIZE);
      if frame.len > maxFrameSize then Deframed([], FrameTooLarge(frame))
      else if StuckOn(frame, rest, ready) then Deframed([], BufferStuck(frame))
      else if |rest| < frame.len then
        Deframed([], if rest == [] then IncompleteFrame(frame) else TruncatedFrame)
      else
        match Unpad(frame, rest[..frame.len])
        case Err(outcome) => Deframed([], outcome)
        case Ok(payload) =>
          DeframeWith(rest[frame.len..], Consumed(ready, frame.len), maxFrameSize).After(Packet(frame, payload))
  }

  /** Reading through a buffer gives what the stream holds, unless the buffer gets stuck;
      then it gives the frames before that. */
  lemma {:induction false} BufferChangesNothingElse(stream: Bytes, shape: Shape, maxFrameSize: nat)
    requires shape.Valid()
    ensures var with', without := DeframeWith(stream, shape, maxFrameSize), Deframe(stream, maxFrameSize);
            if with'.outcome.BufferStuck? then with'.packets <= without.packets else with' == without
    decreases |stream|
  {
    var parsed := ParseFrame(stream);
    if parsed.Done? && parsed.value.len <= |parsed.rest| {
      var frame, rest := parsed.value, parsed.rest;
      BufferChangesNothingElse(rest[frame.len..], Consumed(Consumed(shape, HEADER_SIZE), frame.len), maxFrameSize);
    }
  }

  /** Frames of at most one block never get the buffer stuck. */
  lemma {:induction false} SmallFramesNeverStick(stream: Bytes, shape: Shape, maxFrameSize: nat)
    requires shape.Valid() && maxFrameSize <= BUF_SIZE
    ensures !DeframeWith(stream, shape, maxFrameSize).outcome.BufferStuck?
    decreases |stream|
  {
    var parsed := ParseFrame(stream);
    if parsed.Done? && parsed.value.len <= |parsed.rest| {
      var frame, rest := parsed.value, parsed.rest;
      SmallFramesNeverStick(rest[frame.len..], Consumed(Consumed(shape, HEADER_SIZE), frame.len), maxFrameSize);
    }
  }

  // ---- What `read_and_parse` does for the deframer ----

  /** A frame header fits the buffer limit, so the limit is never what ends a read. */
  lemma HeaderAnswer(stream: Bytes, most: nat)
    requires most >= MAX_FRAME_HEADER_SIZE
    ensures Answer(ParseFrame, stream, most) ==
            if |stream| >= HEADER_SIZE then Parsed(ParseFrame(stream).value)
            else if stream == [] then Eof else UnexpectedEof
  {
    if |stream| > most {
      FrameStreams();
      assert DecidedOn(ParseFrame, stream[..most], stream[most..]);
      assert stream[..most] + stream[most..] == stream;
    }
  }

  /** The buffer does not get stuck on a header. */
  lemma HeaderSettles(stream: Bytes, shape: Shape)
    requires shape.Valid()
    ensures Settle(ParseFrame, stream, shape, MAX_FRAME_HEADER_SIZE).Some?
    ensures |stream| >= HEADER_SIZE ==>
              Settle(ParseFrame, stream, shape, MAX_FRAME_HEADER_SIZE).value == FillTo(shape, HEADER_SIZE)
  {
    StuckIff(ParseFrame, stream, shape, MAX_FRAME_HEADER_SIZE);
    if shape.Room() < HEADER_SIZE {
      FillStep(shape, HEADER_SIZE);
      var moved := shape.Reserved(shape.Room());
      assert IsFresh(moved) && Settle(ParseFrame, stream, moved, MAX_FRAME_HEADER_SIZE) == Some(moved);
    }
  }

  lemma PayloadAnswer(n: nat, stream: Bytes, most: nat)
    requires most >= n
    ensures Answer((buf: Bytes) => Take(n, buf), stream, most) ==
            if |stream| >= n then Parsed(stream[..n])
            else if stream == [] then Eof else UnexpectedEof
  {
    if |stream| > most {
      assert stream[..most][..n] == stream[..n];
    }
  }

  lemma {:induction false} PayloadSettles(n: nat, stream: Bytes, shape: Shape)
    requires shape.Valid()
    ensures var settled := Settle((buf: Bytes) => Take(n, buf), stream, shape, n);
            && (settled.None? <==> shape.Stuck() && n > BUF_SIZE && |stream| >= BUF_SIZE)
            && (settled.Some? && |stream| >= n ==> settled.value == FillTo(shape, n))
    decreases n - shape.Room()
  {
    var take := (buf: Bytes) => Take(n, buf);
    StuckIff(take, stream, shape, n);
    if shape.Room() < n && shape.Room() <= |stream| && !shape.Stuck() {
      shape.RoomAfterReserve(shape.Room());
      FillStep(shape, n);
      PayloadSettles(n, stream, shape.Reserved(shape.Room()));
    }
  }

  // ---- The loop ----

  /** `deframe_loop`, with the packets handed to the channel returned. However the transport
      splits the stream, they and the outcome are those of the stream and the shape of the
      buffer; after a failed read or without a free block, they are the first of those. */
  method DeframeLoop(transport: Transport, buf: RollMut, maxFrameSize: nat) returns (sent: seq<Packet>, outcome: Outcome)
    requires buf.Valid()
    modifies transport, buf.Footprint()
    ensures outcome == PoolExhausted ==> buf.pool.free == []
    ensures var all := DeframeWith(old(buf.Contents() + transport.unread), old(buf.ShapeOf()), maxFrameSize);
            if outcome == ConnectionReadError || outcome == PoolExhausted then sent <= all.packets
            else Deframed(sent, outcome) == all
  {
    ghost var left, shape := buf.Contents() + transport.unread, buf.ShapeOf();
    ghost var all := DeframeWith(left, shape, maxFrameSize);
    sent := [];
    while true
      invariant buf.Valid() && (buf.storage == old(buf.storage) || fresh(buf.storage) || buf.storage in buf.pool.memory)
      invariant left == buf.Contents() + transport.unread && shape == buf.ShapeOf()
      invariant all == DeframeWith(left, shape, maxFrameSize).Behind(sent)
      decreases |left|
    {
      ghost var stream, before := left, shape;
      var stop, packet := NextPacket(transport, buf, maxFrameSize);
      left, shape := buf.Contents() + transport.unread, buf.ShapeOf();
      TurnAdds(stream, before, maxFrameSize, stop, packet, left, shape, sent);
      if stop.Some? {
        return sent, stop.value;
      }
      sent := sent + [packet];
    }
  }

  lemma TurnAdds(stream: Bytes, shape: Shape, maxFrameSize: nat, stop: Option<Outcome>, packet: Packet,
                 left: Bytes, after: Shape, sent: seq<Packet>)
    requires shape.Valid() && after.Valid() && TurnOk(stream, shape, maxFrameSize, stop, packet, left, after)
    ensures var all := DeframeWith(stream, shape, maxFrameSize).Behind(sent);
            && sent <= all.packets
            && match stop
               case None => |left| < |stream| && all == DeframeWith(left, after, maxFrameSize).Behind(sent + [packet])
               case Some(outcome) =>
                 outcome == ConnectionReadError || outcome == PoolExhausted || all == Deframed(sent, outcome)
  {
    if stop.None? {
      DeframeWith(left, after, maxFrameSize).BehindOne(sent, packet);
    }
  }

  /** One turn of the loop gave a packet, or ended it. */
  ghost predicate TurnOk(stream: Bytes, shape: Shape, maxFrameSize: nat, stop: Option<Outcome>, packet: Packet,
                         left: Bytes, after: Shape)
    requires shape.Valid() && after.Valid()
  {
    match stop
    case None =>
      && |left| < |stream|
      && DeframeWith(stream, shape, maxFrameSize) == DeframeWith(left, after, maxFrameSize).After(packet)
    case Some(outcome) =>
      || outcome == ConnectionReadError || outcome == PoolExhausted
      || DeframeWith(stream, shape, maxFrameSize) == Deframed([], outcome)
  }

  method NextPacket(transport: Transport, buf: RollMut, maxFrameSize: nat) returns (stop: Option<Outcome>, packet: Packet)
    requires buf.Valid()
    modifies transport, buf.Footprint()
    ensures buf.Valid() && (buf.storage == old(buf.storage) || fresh(buf.storage) || buf.storage in buf.pool.memory)
    ensures stop == Some(PoolExhausted) ==> buf.pool.free == []
    ensures TurnOk(old(buf.Contents() + transport.unread), old(buf.ShapeOf()), maxFrameSize, stop, packet,
                   buf.Contents() + transport.unread, buf.ShapeOf())
  {
    packet := Packet(Frame(Priority, false, 0, 0), []);
    ghost var stream, shape := buf.Contents() + transport.unread, buf.ShapeOf();
    var header := ReadHeader(transport, buf);
    if header.Err? {
      return Some(header.error), packet;
    }
    var frame := header.value;
    if frame.len > maxFrameSize {
      return Some(FrameTooLarge(frame)), packet;
    }
    ghost var rest := buf.Contents() + transport.unread;
    var taken := ReadPayload(transport, buf, frame);
    if taken.Err? {
      return Some(taken.error), packet;
    }
    match Unpad(frame, taken.value)
    case Err(outcome) => stop := Some(outcome);
    case Ok(payload) => stop, packet := None, Packet(frame, payload);
  }

  method ReadHeader(transport: Transport, buf: RollMut) returns (r: Result<Frame, Outcome>)
    requires buf.Valid()
    modifies transport, buf.Footprint()
    ensures buf.Valid() && (buf.storage == old(buf.storage) || fresh(buf.storage) || buf.storage in buf.pool.memory)
    ensures r == Err(PoolExhausted) ==> buf.pool.free == []
    ensures var stream := old(buf.Contents() + transport.unread);
            match r
            case Ok(frame) =>
              && ParseFrame(stream) == Done(frame, buf.Contents() + transport.unread)
              && buf.ShapeOf() == Consumed(old(buf.ShapeOf()), HEADER_SIZE)
            case Err(outcome) =>
              || outcome == ConnectionReadError || outcome == PoolExhausted
              || (ParseFrame(stream).Incomplete? && outcome == if stream == [] then PeerHungUp else TruncatedFrame)
  {
    ghost var stream := buf.Contents() + transport.unread;
    FrameStreams();
    HeaderAnswer(stream, Most(buf.len, MAX_FRAME_HEADER_SIZE));
    HeaderSettles(stream, buf.ShapeOf());
    var header := ReadAndParse(ParseFrame, transport, buf, MAX_FRAME_HEADER_SIZE);
    match header
    case Parsed(frame) => r := Ok(frame);
    case ReadError => r := Err(ConnectionReadError);
    case OutOfBlocks => r := Err(PoolExhausted);
    case Eof => r := Err(PeerHungUp);
    case _ => r := Err(TruncatedFrame);
  }

  method ReadPayload(transport: Transport, buf: RollMut, frame: Frame) returns (r: Result<Bytes, Outcome>)
    requires buf.Valid()
    modifies transport, buf.Footprint()
    ensures buf.Valid() && (buf.storage == old(buf.storage) || fresh(buf.storage) || buf.storage in buf.pool.memory)
    ensures r == Err(PoolExhausted) ==> buf.pool.free == []
    ensures var stream, shape := old(buf.Contents() + transport.unread), old(buf.ShapeOf());
            match r
            case Ok(payload) =>
              && !StuckOn(frame, stream, shape) && |stream| >= frame.len && payload == stream[..frame.len]
              && buf.Contents() + transport.unread == stream[frame.len..]
              && buf.ShapeOf() == Consumed(shape, frame.len)
            case Err(outcome) =>
              || outcome == ConnectionReadError || outcome == PoolExhausted
              || (StuckOn(frame, stream, shape) && outcome == BufferStuck(frame))
              || (!StuckOn(frame, stream, shape) && |stream| < frame.len
                  && outcome == if stream == [] then IncompleteFrame(frame) else TruncatedFrame)
  {
    ghost var stream, shape := buf.Contents() + transport.unread, buf.ShapeOf();
    TakeStreams(frame.len);
    PayloadAnswer(frame.len, stream, Most(buf.len, frame.len));
    PayloadSettles(frame.len, stream, shape);
    var taken := ReadAndParse((buf: Bytes) => Take(frame.len, buf), transport, buf, frame.len);
    match taken
    case Parsed(payload) => r := Ok(payload);
    case ReadError => r := Err(ConnectionReadError);
    case OutOfBlocks => r := Err(PoolExhausted);
    case Aborted => r := Err(BufferStuck(frame));
    case Eof => r := Err(IncompleteFrame(frame));
    case _ => r := Err(TruncatedFrame);
  }

  // ---- What is written is what is read ----

  /** A packet as `write_frame` sends it: the length is filled in. */
  function WithLength(packet: Packet): Packet {
    packet.(frame := packet.frame.(len := |packet.payload|))
  }

  predicate Sendable(packet: Packet, maxFrameSize: nat) {
    && WellFormed(WithLength(packet).frame) && !HasPadding(packet.frame.ty)
    && |packet.payload| <= maxFrameSize
  }

  predicate AllSendable(packets: seq<Packet>, maxFrameSize: nat) {
    forall i :: 0 <= i < |packets| ==> Sendable(packets[i], maxFrameSize)
  }

  function PacketBytes(packet: Packet): Bytes
    requires WellFormed(WithLength(packet).frame)
  {
    FrameHeader(WithLength(packet).frame) + packet.payload
  }

  function Wire(packets: seq<Packet>): Bytes
    requires forall i :: 0 <= i < |packets| ==> WellFormed(WithLength(packets[i]).frame)
  {
    if packets == [] then [] else PacketBytes(packets[0]) + Wire(packets[1..])
  }

  function WithLengths(packets: seq<Packet>): (r: seq<Packet>)
    ensures |r| == |packets|
    ensures forall i :: 0 <= i < |r| ==> r[i] == WithLength(packets[i])
  {
    seq(|packets|, i requires 0 <= i < |packets| => WithLength(packets[i]))
  }

  lemma OnePacket(packet: Packet, more: Bytes, maxFrameSize: nat)
    requires Sendable(packet, maxFrameSize)
    ensures Deframe(PacketBytes(packet) + more, maxFrameSize) == Deframe(more, maxFrameSize).After(WithLength(packet))
  {
    var frame := WithLength(packet).frame;
    var after := packet.payload + more;
    Reassociate(FrameHeader(frame), packet.payload, more);
    FrameRoundTrip(frame, after);
    assert after[..frame.len] == packet.payload;
    assert after[frame.len..] == more;
  }

  lemma LengthsUnroll(packets: seq<Packet>, later: seq<Packet>)
    requires packets != []
    ensures WithLengths(packets) + later == [WithLength(packets[0])] + (WithLengths(packets[1..]) + later)
  {
  }

  /** Unpadded packets written one after another are read back, with their
      lengths, and then the rest of the stream. */
  lemma {:induction false} WireRoundTrip(packets: seq<Packet>, more: Bytes, maxFrameSize: nat)
    requires AllSendable(packets, maxFrameSize)
    ensures var rest := Deframe(more, maxFrameSize);
            Deframe(Wire(packets) + more, maxFrameSize) == rest.(packets := WithLengths(packets) + rest.packets)
    decreases |packets|
  {
    var rest := Deframe(more, maxFrameSize);
    if packets == [] {
      assert Wire(packets) + more == more;
      assert WithLengths(packets) + rest.packets == rest.packets;
    } else {
      Reassociate(PacketBytes(packets[0]), Wire(packets[1..]), more);
      OnePacket(packets[0], Wire(packets[1..]) + more, maxFrameSize);
      WireRoundTrip(packets[1..], more, maxFrameSize);
      LengthsUnroll(packets, rest.packets);
    }
  }

  // ---- What a peer may write ----

  /** Octets of a padded frame: the length of the padding, the content, the padding
      (sections 6.1 and 6.2 of RFC 9113). */
  predicate Pads(raw: Bytes, content: Bytes, padding: Bytes) {
    |padding| < 256 && raw == [|padding|] + content + padding
  }

  lemma FirstFrame(frame: Frame, raw: Bytes, more: Bytes, maxFrameSize: nat)
    requires WellFormed(frame) && frame.len == |raw| <= maxFrameSize
    ensures var content := Unpad(frame, raw);
            Deframe(FrameHeader(frame) + raw + more, maxFrameSize) ==
            if content.Err? then Deframed([], content.error)
            else Deframe(more, maxFrameSize).After(Packet(frame, content.value))
  {
    Reassociate(FrameHeader(frame), raw, more);
    FrameRoundTrip(frame, raw + more);
    assert (raw + more)[..frame.len] == raw && (raw + more)[frame.len..] == more;
  }

  lemma PadsUniquely(raw: Bytes, content: Bytes, padding: Bytes)
    requires Pads(raw, content, padding)
    ensures raw != [] && raw[0] == |padding| <= |raw| - 1 && content == raw[1..|raw| - raw[0]]
  {
  }

  lemma PadsSomehow(raw: Bytes)
    requires raw != [] && raw[0] <= |raw| - 1
    ensures Pads(raw, raw[1..|raw| - raw[0]], raw[|raw| - raw[0]..])
  {
  }

  /** A padded frame is delivered with its content exactly if its octets are the length of
      the padding, the content and the padding; otherwise it is an error: empty, or too short
      for the padding that it names. */
  lemma PaddedExactly(frame: Frame, raw: Bytes, more: Bytes, maxFrameSize: nat)
    requires WellFormed(frame) && frame.len == |raw| <= maxFrameSize && HasPadding(frame.ty)
    ensures var read := Deframe(FrameHeader(frame) + raw + more, maxFrameSize);
            && (forall content, padding :: Pads(raw, content, padding) ==>
                  read == Deframe(more, maxFrameSize).After(Packet(frame, content)))
            && ((forall content, padding :: !Pads(raw, content, padding)) ==>
                  if raw == [] then read == Deframed([], PaddedFrameEmpty(frame))
                  else raw[0] >= |raw| && read == Deframed([], PaddedFrameTooShort(frame, raw[0])))
  {
    FirstFrame(frame, raw, more, maxFrameSize);
    forall content, padding | Pads(raw, content, padding)
      ensures Unpad(frame, raw) == Ok(content)
    {
      PadsUniquely(raw, content, padding);
    }
    if raw != [] && raw[0] < |raw| {
      PadsSomehow(raw);
    }
  }

  /** A packet as a peer writes it, with any padding if its type has some. */
  datatype Shipped = Shipped(packet: Packet, padding: Bytes) {
    function Octets(): Bytes {
      if HasPadding(packet.frame.ty) then [|padding| % 256] + packet.payload + padding else packet.payload
    }

    /** The frame as it is read: its length counts the padding. */
    function Framed(): Packet {
      packet.(frame := packet.frame.(len := |Octets()|))
    }

    predicate Legal(maxFrameSize: nat) {
      |padding| < 256 && WellFormed(Framed().frame) && |Octets()| <= maxFrameSize
    }
  }

  predicate AllLegal(shipped: seq<Shipped>, maxFrameSize: nat) {
    forall i :: 0 <= i < |shipped| ==> shipped[i].Legal(maxFrameSize)
  }

  function ShippedBytes(shipped: seq<Shipped>): Bytes
    requires forall i :: 0 <= i < |shipped| ==> WellFormed(shipped[i].Framed().frame)
    decreases |shipped|
  {
    if shipped == [] then []
    else FrameHeader(shipped[0].Framed().frame) + shipped[0].Octets() + ShippedBytes(shipped[1..])
  }

  function FramedAll(shipped: seq<Shipped>): seq<Packet>
    decreases |shipped|
  {
    if shipped == [] then [] else [shipped[0].Framed()] + FramedAll(shipped[1..])
  }

  lemma ShippedFirst(s: Shipped, more: Bytes, maxFrameSize: nat)
    requires s.Legal(maxFrameSize)
    ensures Deframe(FrameHeader(s.Framed().frame) + s.Octets() + more, maxFrameSize)
            == Deframe(more, maxFrameSize).After(s.Framed())
  {
    FirstFrame(s.Framed().frame, s.Octets(), more, maxFrameSize);
    ShippedUnpads(s, s.Framed().frame);
  }

  lemma ShippedUnpads(s: Shipped, frame: Frame)
    requires |s.padding| < 256 && frame.ty == s.packet.frame.ty
    ensures Unpad(frame, s.Octets()) == Ok(s.packet.payload)
  {
    if HasPadding(frame.ty) {
      PadsUniquely(s.Octets(), s.packet.payload, s.padding);
    }
  }

  /** Whatever frames a peer writes, padded as it likes, are read as their contents, and then
      the rest of the stream. */
  lemma {:induction false} PeerRoundTrip(shipped: seq<Shipped>, more: Bytes, maxFrameSize: nat)
    requires AllLegal(shipped, maxFrameSize)
    ensures Deframe(ShippedBytes(shipped) + more, maxFrameSize) == Deframe(more, maxFrameSize).Behind(FramedAll(shipped))
    decreases |shipped|
  {
    var rest := Deframe(more, maxFrameSize);
    if shipped == [] {
      assert ShippedBytes(shipped) + more == more && [] + rest.packets == rest.packets;
    } else {
      var s := shipped[0];
      Reassociate(FrameHeader(s.Framed().frame) + s.Octets(), ShippedBytes(shipped[1..]), more);
      ShippedFirst(s, ShippedBytes(shipped[1..]) + more, maxFrameSize);
      PeerRoundTrip(shipped[1..], more, maxFrameSize);
      Reassociate([s.Framed()], FramedAll(shipped[1..]), rest.packets);
    }
  }

  /** A frame that is longer than allowed, or that the stream does not hold, is none. */
  lemma BadFrame(frame: Frame, rest: Bytes, maxFrameSize: nat)
    requires WellFormed(frame) && (frame.len > maxFrameSize || |rest| < frame.len)
    ensures Deframe(FrameHeader(frame) + rest, maxFrameSize) ==
            Deframed([], if frame.len > maxFrameSize then FrameTooLarge(frame)
                         else if rest == [] then IncompleteFrame(frame) else TruncatedFrame)
  {
    FrameRoundTrip(frame, rest);
  }

  /** So is less than a frame header; only the end of the stream itself is a clean end. */
  lemma ShortStream(stream: Bytes, maxFrameSize: nat)
    requires |stream| < HEADER_SIZE
    ensures Deframe(stream, maxFrameSize) == Deframed([], if stream == [] then PeerHungUp else TruncatedFrame)
  {
  }

  // ---- A legal stream on which the buffer gets stuck ----

  lemma OnePacketWith(packet: Packet, more: Bytes, shape: Shape, maxFrameSize: nat)
    requires shape.Valid() && Sendable(packet, maxFrameSize)
    ensures var ready, frame := Consumed(shape, HEADER_SIZE), WithLength(packet).frame;
            DeframeWith(PacketBytes(packet) + more, shape, maxFrameSize) ==
            if StuckOn(frame, packet.payload + more, ready) then Deframed([], BufferStuck(frame))
            else DeframeWith(more, Consumed(ready, frame.len), maxFrameSize).After(WithLength(packet))
  {
    var frame := WithLength(packet).frame;
    var after := packet.payload + more;
    Reassociate(FrameHeader(frame), packet.payload, more);
    FrameRoundTrip(frame, after);
    assert after[..frame.len] == packet.payload;
    assert after[frame.len..] == more;
  }

  /** A box of `size` octets of which `off` were consumed. */
  predicate IsBox(shape: Shape, size: nat, off: nat) {
    shape.isBox && shape.size == size && shape.off == off
  }

  /** The shape after one frame of 8193 to 16384 octets on a fresh buffer: a box of 16384
      octets, so much of which was consumed. */
  lemma FirstFrameShape(start: Shape, n: nat)
    requires IsFresh(start) && 8192 < n <= 16384
    ensures var ready := Consumed(start, HEADER_SIZE); !ready.Stuck() && IsBox(Consumed(ready, n), 16384, n)
  {
    assert Doubled(16384, n) == Doubled(8192, n) == Doubled(BUF_SIZE, n) == 16384;
  }

  lemma FrameIsRead(packet: Packet, more: Bytes, shape: Shape, after: Shape, maxFrameSize: nat)
    requires shape.Valid() && Sendable(packet, maxFrameSize) && !Consumed(shape, HEADER_SIZE).Stuck()
    requires after == Consumed(Consumed(shape, HEADER_SIZE), |packet.payload|)
    ensures DeframeWith(PacketBytes(packet) + more, shape, maxFrameSize) ==
            DeframeWith(more, after, maxFrameSize).After(WithLength(packet))
  {
    OnePacketWith(packet, more, shape, maxFrameSize);
  }

  lemma FrameSticks(packet: Packet, more: Bytes, shape: Shape, maxFrameSize: nat)
    requires shape.Valid() && Sendable(packet, maxFrameSize) && Consumed(shape, HEADER_SIZE).Stuck()
    requires |packet.payload| > BUF_SIZE
    ensures DeframeWith(PacketBytes(packet) + more, shape, maxFrameSize) == Deframed([], BufferStuck(WithLength(packet).frame))
  {
    OnePacketWith(packet, more, shape, maxFrameSize);
  }

  lemma SecondFrameShape(shape: Shape)
    requires IsBox(shape, 16384, 16384 - BUF_SIZE - HEADER_SIZE)
    ensures Consumed(shape, HEADER_SIZE).Stuck()
  {
  }

  lemma ThenFrameSticks(first: Packet, second: Packet, more: Bytes, start: Shape, maxFrameSize: nat)
    requires start.Valid() && Sendable(first, maxFrameSize) && Sendable(second, maxFrameSize) && |second.payload| > BUF_SIZE
    requires !Consumed(start, HEADER_SIZE).Stuck()
    requires Consumed(Consumed(Consumed(start, HEADER_SIZE), |first.payload|), HEADER_SIZE).Stuck()
    ensures DeframeWith(PacketBytes(first) + (PacketBytes(second) + more), start, maxFrameSize) ==
            Deframed([WithLength(first)], BufferStuck(WithLength(second).frame))
  {
    var after := Consumed(Consumed(start, HEADER_SIZE), |first.payload|);
    FrameIsRead(first, PacketBytes(second) + more, start, after, maxFrameSize);
    FrameSticks(second, more, after, maxFrameSize);
  }

  /** Two frames within the default limits: after a payload of 12279 octets on a fresh
      buffer, any payload of more than one block makes the loop panic, whatever the frames
      are and hold. */
  lemma TwoFramesStick(first: Packet, second: Packet, more: Bytes, start: Shape, maxFrameSize: nat)
    requires IsFresh(start) && Sendable(first, maxFrameSize) && Sendable(second, maxFrameSize)
    requires |first.payload| == 16384 - BUF_SIZE - HEADER_SIZE && |second.payload| > BUF_SIZE
    ensures DeframeWith(PacketBytes(first) + (PacketBytes(second) + more), start, maxFrameSize) ==
            Deframed([WithLength(first)], BufferStuck(WithLength(second).frame))
  {
    FirstFrameShape(start, |first.payload|);
    SecondFrameShape(Consumed(Consumed(start, HEADER_SIZE), |first.payload|));
    ThenFrameSticks(first, second, more, start, maxFrameSize);
  }
}
