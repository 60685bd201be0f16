/** The state of an HTTP/2 connection: streams, what they have left to send, and
    the two levels of flow control. */
module H2State {
  import opened Common
  import opened Frames

  type StreamId = nat

  /** A frame size limit: at least one octet, so that cutting a block terminates. */
  type FrameSize = n: nat | n > 0 witness 1

  const MAX_WINDOW_SIZE := 0xFFFF_FFFF
  const DEFAULT_WINDOW := 65535
  const MAX_INITIAL_WINDOW := 0x7FFF_FFFF
  const MIN_FRAME_SIZE := 0x4000
  const MAX_FRAME_SIZE := 0xFF_FFFF
  const U64_RANGE := 0x1_0000_0000_0000_0000

  // ---- What a stream has left to send ----

  datatype HeadersOutgoing = WaitingForHeaders | WroteNone(piece: Bytes) | WroteSome(piece: Bytes) | WroteAll {
    predicate HasMoreToWrite() {
      !WroteAll?
    }

    /** `take_piece`, which leaves `WroteAll` behind. */
    function TakePiece(): Bytes {
      if WroteNone? || WroteSome? then piece else []
    }
  }

  datatype BodyOutgoing = StillReceiving(pieces: seq<Bytes>) | DoneReceiving(pieces: seq<Bytes>) | DoneSending {
    function Pieces(): seq<Bytes> {
      if DoneSending? then [] else pieces
    }

    function Queued(): Bytes {
      Flatten(Pieces())
    }

    /** `might_receive_more`: false only once everything was taken. */
    predicate MightReceiveMore() {
      !DoneSending?
    }

    function PopFront(): (Option<Bytes>, BodyOutgoing) {
      match this
      case StillReceiving(pieces) =>
        if pieces == [] then (None, this) else (Some(pieces[0]), StillReceiving(pieces[1..]))
      case DoneReceiving(pieces) =>
        if pieces == [] then (None, DoneSending)
        else (Some(pieces[0]), if |pieces| == 1 then DoneSending else DoneReceiving(pieces[1..]))
      case DoneSending => (None, this)
    }

    function PushFront(piece: Bytes): BodyOutgoing {
      match this
      case StillReceiving(pieces) => StillReceiving([piece] + pieces)
      case DoneReceiving(pieces) => DoneReceiving([piece] + pieces)
      case DoneSending => DoneReceiving([piece])
    }

    /** `push_back`, unreachable when done sending. */
    function PushBack(piece: Bytes): BodyOutgoing
      requires !DoneSending?
    {
      match this
      case StillReceiving(pieces) => StillReceiving(pieces + [piece])
      case DoneReceiving(pieces) => DoneReceiving(pieces + [piece])
    }

    /** The same stage with other pieces. */
    function WithPieces(pieces: seq<Bytes>): BodyOutgoing
      requires !DoneSending?
    {
      if StillReceiving? then StillReceiving(pieces) else DoneReceiving(pieces)
    }
  }

  /** `StreamOutgoing`. */
  datatype Outgoing = Outgoing(headers: HeadersOutgoing, body: BodyOutgoing, capacity: int)

  /** `StreamIncoming`. */
  datatype Incoming = Incoming(capacity: int, totalReceived: nat, contentLength: Option<nat>)

  datatype StreamState =
    | Open(incoming: Incoming, outgoing: Outgoing)
    | HalfClosedRemote(outgoing: Outgoing)
    | HalfClosedLocal(incoming: Incoming)
    | Transition
  {
    /** `outgoing_mut().is_some()`. */
    predicate HasOutgoing() {
      Open? || HalfClosedRemote?
    }

    function WithOutgoing(o: Outgoing): StreamState
      requires HasOutgoing()
    {
      if Open? then Open(incoming, o) else HalfClosedRemote(o)
    }
  }

  /** `ConnState`; of the peer's settings, those that govern sending. */
  datatype Conn = Conn(
    streams: map<StreamId, StreamState>,
    lastStreamId: StreamId,
    maxStreams: nat,
    initialWindow: nat,
    maxFrameSize: FrameSize,
    notify: bool,
    pending: set<StreamId>,
    outgoingCapacity: int)
  {
    predicate HasOutgoing(id: StreamId) {
      id in streams && streams[id].HasOutgoing()
    }

    function Out(id: StreamId): Outgoing
      requires HasOutgoing(id)
    {
      streams[id].outgoing
    }

    function SetOut(id: StreamId, o: Outgoing): Conn
      requires HasOutgoing(id)
    {
      this.(streams := streams[id := streams[id].WithOutgoing(o)])
    }
  }

  // ---- One stream's turn in the scheduler ----

  /** `min(conn, stream) as usize`: a negative window becomes a huge one. */
  function Usable(connCapacity: int, streamCapacity: int): nat {
    var least := Min(connCapacity, streamCapacity);
    if least >= 0 then least else if least >= -U64_RANGE then U64_RANGE + least else 0
  }

  /** The pieces left when `n` bytes and then any empty pieces were taken. */
  function Advance(pieces: seq<Bytes>, n: nat): seq<Bytes>
    decreases |pieces|
  {
    if pieces == [] then []
    else if |pieces[0]| <= n then Advance(pieces[1..], n - |pieces[0]|)
    else [pieces[0][n..]] + pieces[1..]
  }

  lemma {:induction false} AdvanceDrops(pieces: seq<Bytes>, n: nat)
    requires n <= |Flatten(pieces)|
    ensures Flatten(Advance(pieces, n)) == Flatten(pieces)[n..]
    ensures n == |Flatten(pieces)| ==> Advance(pieces, n) == []
    ensures Advance(pieces, n) != [] ==> Advance(pieces, n)[0] != []
    decreases |pieces|
  {
    if pieces != [] {
      var first, rest := pieces[0], Flatten(pieces[1..]);
      if |first| <= n {
        AdvanceDrops(pieces[1..], n - |first|);
        assert (first + rest)[n..] == rest[n - |first|..];
      } else {
        assert ([first[n..]] + pieces[1..])[1..] == pieces[1..];
        assert (first + rest)[n..] == first[n..] + rest;
      }
    }
  }

  /** How many bytes a turn takes, and whether it ends the stream. */
  function TurnBytes(body: BodyOutgoing, capacity: nat): nat {
    Min(|body.Queued()|, capacity)
  }

  predicate TurnEnds(body: BodyOutgoing, capacity: nat) {
    body.DoneReceiving? && capacity > 0 && |body.Queued()| <= capacity
  }

  function BodyAfterTurn(body: BodyOutgoing, capacity: nat): BodyOutgoing {
    if body.DoneSending? || capacity == 0 then body
    else if TurnEnds(body, capacity) then DoneSending
    else body.WithPieces(Advance(body.pieces, TurnBytes(body, capacity)))
  }

  function DataPacket(id: StreamId, payload: Bytes, endStream: bool): Packet {
    Packet(Frame(Data(false, endStream), false, id, 0), payload)
  }

  /** One DATA frame for each piece, END_STREAM on the last if the stream ends. */
  function DataPackets(id: StreamId, pieces: seq<Bytes>, endStream: bool): (packets: seq<Packet>)
    ensures |packets| == |pieces|
    decreases |pieces|
  {
    if pieces == [] then []
    else [DataPacket(id, pieces[0], endStream && |pieces| == 1)] + DataPackets(id, pieces[1..], endStream)
  }

  /** The DATA frames of a turn: full frames and a last one; an empty frame only to
      carry END_STREAM. */
  function BodyPackets(id: StreamId, body: BodyOutgoing, capacity: nat, maxFrame: FrameSize): seq<Packet>
  {
    var n := TurnBytes(body, capacity);
    if body.DoneSending? || capacity == 0 || (n == 0 && !TurnEnds(body, capacity)) then []
    else DataPackets(id, Chunks(body.Queued()[..n], maxFrame), TurnEnds(body, capacity))
  }

  /** HEADERS and CONTINUATION frames, all of them at once. */
  function BlockPackets(id: StreamId, headers: HeadersOutgoing, maxFrame: FrameSize): seq<Packet>
  {
    if headers.WroteNone? || headers.WroteSome? then HeaderPackets(id, Chunks(headers.piece, maxFrame), headers.WroteSome?)
    else []
  }

  function TurnPackets(id: StreamId, o: Outgoing, connCapacity: int, maxFrame: FrameSize): seq<Packet>
  {
    BlockPackets(id, o.headers, maxFrame) + BodyPackets(id, o.body, Usable(connCapacity, o.capacity), maxFrame)
  }

  function AfterTurn(o: Outgoing, connCapacity: int): Outgoing {
    o.(headers := WroteAll, body := BodyAfterTurn(o.body, Usable(connCapacity, o.capacity)))
  }
}
