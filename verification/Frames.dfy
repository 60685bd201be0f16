/** HTTP/2 frames on the wire (section 4.1 of RFC 9113): the nine-octet header,
    written and parsed, and header blocks cut into frames and put together again. */
module Frames {
  import opened Common

  datatype FrameType =
    | Data(padded: bool, endStream: bool)
    | Headers(priority: bool, padded: bool, endHeaders: bool, endStream: bool)
    | Priority
    | RstStream
    | Settings(ack: bool)
    | PushPromise
    | Ping(ack: bool)
    | GoAway
    | WindowUpdate
    | Continuation(endHeaders: bool)
    | Unknown(code: Byte, flags: Byte)

  datatype Frame = Frame(ty: FrameType, reserved: bool, streamId: nat, len: nat)

  /** What the fields hold: a 24-bit length, a 31-bit stream id, and `Unknown`
      only for a type code that has no name. */
  predicate WellFormed(f: Frame) {
    f.len < 0x100_0000 && f.streamId < 0x8000_0000 && (f.ty.Unknown? ==> f.ty.code >= 10)
  }

  function Bit(b: bool, weight: nat): nat {
    if b then weight else 0
  }

  /** `FrameType::encode`: type code and flags octet. */
  function TypeCode(ty: FrameType): Byte {
    match ty
    case Data(_, _) => 0
    case Headers(_, _, _, _) => 1
    case Priority => 2
    case RstStream => 3
    case Settings(_) => 4
    case PushPromise => 5
    case Ping(_) => 6
    case GoAway => 7
    case WindowUpdate => 8
    case Continuation(_) => 9
    case Unknown(code, _) => code
  }

  function Flags(ty: FrameType): Byte {
    match ty
    case Data(padded, endStream) => Bit(padded, 8) + Bit(endStream, 1)
    case Headers(priority, padded, endHeaders, endStream) =>
      Bit(priority, 32) + Bit(padded, 8) + Bit(endHeaders, 4) + Bit(endStream, 1)
    case Settings(ack) => Bit(ack, 1)
    case Ping(ack) => Bit(ack, 1)
    case Continuation(endHeaders) => Bit(endHeaders, 4)
    case Unknown(_, flags) => flags
    case _ => 0
  }

  predicate HasFlag(flags: Byte, weight: nat)
    requires weight > 0
  {
    flags / weight % 2 == 1
  }

  /** `FrameType::decode`: flags that a type does not define are dropped. */
  function DecodeType(code: Byte, flags: Byte): FrameType {
    if code == 0 then Data(HasFlag(flags, 8), HasFlag(flags, 1))
    else if code == 1 then Headers(HasFlag(flags, 32), HasFlag(flags, 8), HasFlag(flags, 4), HasFlag(flags, 1))
    else if code == 2 then Priority
    else if code == 3 then RstStream
    else if code == 4 then Settings(HasFlag(flags, 1))
    else if code == 5 then PushPromise
    else if code == 6 then Ping(HasFlag(flags, 1))
    else if code == 7 then GoAway
    else if code == 8 then WindowUpdate
    else if code == 9 then Continuation(HasFlag(flags, 4))
    else Unknown(code, flags)
  }

  /** A flag is read from its own bit, whatever the bits below and above it are. */
  lemma FlagAt(flags: Byte, low: nat, b: bool, high: nat, weight: nat)
    requires low < weight && (weight == 1 || weight == 4 || weight == 8 || weight == 32)
    requires flags == low + Bit(b, weight) + 2 * weight * high
    ensures HasFlag(flags, weight) == b
  {
  }

  lemma TypeRoundTrip(ty: FrameType)
    requires ty.Unknown? ==> ty.code >= 10
    ensures DecodeType(TypeCode(ty), Flags(ty)) == ty
  {
  }

  /** The outcome of a streaming parser. */
  datatype Parse<+T> = Done(value: T, rest: Bytes) | Incomplete | Failed

  const HEADER_SIZE := 9

  /** The low `n` octets of a number, most significant first. */
  function BigEndian(x: nat, n: nat): (bytes: Bytes)
    ensures |bytes| == n
  {
    if n == 0 then [] else BigEndian(x / 256, n - 1) + [x % 256]
  }

  function FromBigEndian(bytes: Bytes): nat {
    if bytes == [] then 0 else FromBigEndian(bytes[..|bytes| - 1]) * 256 + bytes[|bytes| - 1]
  }

  function Pow256(n: nat): nat {
    if n == 0 then 1 else 256 * Pow256(n - 1)
  }

  lemma {:induction false} BigEndianRoundTrip(x: nat, n: nat)
    requires x < Pow256(n)
    ensures FromBigEndian(BigEndian(x, n)) == x
  {
    if n > 0 {
      BigEndianRoundTrip(x / 256, n - 1);
      assert BigEndian(x, n)[..n - 1] == BigEndian(x / 256, n - 1);
    }
  }

  lemma {:induction false} FromBigEndianBound(bytes: Bytes)
    ensures FromBigEndian(bytes) < Pow256(|bytes|)
  {
    if bytes != [] {
      FromBigEndianBound(bytes[..|bytes| - 1]);
    }
  }

  lemma Pow256Values()
    ensures Pow256(3) == 0x100_0000 && Pow256(4) == 0x1_0000_0000
  {
    assert Pow256(1) == 256 && Pow256(2) == 65536;
  }

  /** `Frame::write_into`. It panics when a field does not fit. */
  function FrameHeader(f: Frame): (bytes: Bytes)
    requires WellFormed(f)
    ensures |bytes| == HEADER_SIZE
  {
    BigEndian(f.len, 3) + [TypeCode(f.ty), Flags(f.ty)] + BigEndian(Bit(f.reserved, 0x8000_0000) + f.streamId, 4)
  }

  /** `Frame::parse`. */
  function ParseFrame(buf: Bytes): Parse<Frame> {
    if |buf| < HEADER_SIZE then Incomplete
    else
      var word := FromBigEndian(buf[5..9]);
      Done(Frame(DecodeType(buf[3], buf[4]), word >= 0x8000_0000, word % 0x8000_0000, FromBigEndian(buf[..3])),
           buf[HEADER_SIZE..])
  }

  lemma ThreeOctets(x: nat)
    ensures BigEndian(x, 3) == [x / 65536 % 256, x / 256 % 256, x % 256]
  {
    assert BigEndian(x / 65536 / 256, 0) == [];
    assert BigEndian(x / 65536, 1) == [] + [x / 65536 % 256];
    assert x / 256 / 256 == x / 65536;
    assert BigEndian(x / 256, 2) == [x / 65536 % 256] + [x / 256 % 256];
    assert BigEndian(x, 3) == [x / 65536 % 256, x / 256 % 256] + [x % 256];
  }

  /** The header octet by octet (section 4.1 of RFC 9113): length, type, flags, stream id. */
  lemma FrameLayout(f: Frame)
    requires WellFormed(f)
    ensures FrameHeader(f) ==
            [f.len / 65536, f.len / 256 % 256, f.len % 256, TypeCode(f.ty), Flags(f.ty),
             Bit(f.reserved, 128) + f.streamId / 0x100_0000, f.streamId / 65536 % 256, f.streamId / 256 % 256, f.streamId % 256]
  {
    ThreeOctets(f.len);
    FourOctets(f.reserved, f.streamId);
    assert f.len / 65536 % 256 == f.len / 65536;
  }

  lemma FourOctets(reserved: bool, id: nat)
    requires id < 0x8000_0000
    ensures BigEndian(Bit(reserved, 0x8000_0000) + id, 4) ==
            [Bit(reserved, 128) + id / 0x100_0000, id / 65536 % 256, id / 256 % 256, id % 256]
  {
    WordOctets(reserved, id);
    OctetsOfWord(Bit(reserved, 0x8000_0000) + id);
  }

  lemma OctetsOfWord(word: nat)
    ensures BigEndian(word, 4) == [word / 256 / 65536 % 256, word / 256 / 256 % 256, word / 256 % 256, word % 256]
  {
    ThreeOctets(word / 256);
  }

  lemma TopBitShifts(reserved: bool, weight: nat, x: nat)
    ensures (Bit(reserved, 256 * weight) + x) / 256 == Bit(reserved, weight) + x / 256
    ensures (Bit(reserved, 256 * weight) + x) % 256 == x % 256
  {
  }

  lemma WordOctets(reserved: bool, id: nat)
    requires id < 0x8000_0000
    ensures var word := Bit(reserved, 0x8000_0000) + id;
            && word / 256 / 65536 % 256 == Bit(reserved, 128) + id / 0x100_0000
            && word / 256 / 256 % 256 == id / 65536 % 256 && word / 256 % 256 == id / 256 % 256 && word % 256 == id % 256
  {
    var word := Bit(reserved, 0x8000_0000) + id;
    TopBitShifts(reserved, 0x80_0000, id);
    TopBitShifts(reserved, 0x8000, id / 256);
    TopBitShifts(reserved, 128, id / 256 / 256);
    var low := word / 256;
    assert low / 65536 == low / 256 / 256;
    assert id / 256 / 256 == id / 65536 && id / 65536 / 256 == id / 0x100_0000;
  }

  /** A written header parses back, whatever follows. */
  lemma FrameRoundTrip(f: Frame, rest: Bytes)
    requires WellFormed(f)
    ensures ParseFrame(FrameHeader(f) + rest) == Done(f, rest)
  {
    TypeRoundTrip(f.ty);
    HeaderNumbers(f);
    HeaderParts(BigEndian(f.len, 3), TypeCode(f.ty), Flags(f.ty), BigEndian(Bit(f.reserved, 0x8000_0000) + f.streamId, 4), rest);
  }

  lemma HeaderNumbers(f: Frame)
    requires WellFormed(f)
    ensures FromBigEndian(BigEndian(f.len, 3)) == f.len
    ensures FromBigEndian(BigEndian(Bit(f.reserved, 0x8000_0000) + f.streamId, 4)) == Bit(f.reserved, 0x8000_0000) + f.streamId
  {
    Pow256Values();
    BigEndianRoundTrip(f.len, 3);
    BigEndianRoundTrip(Bit(f.reserved, 0x8000_0000) + f.streamId, 4);
  }

  lemma HeaderParts(len: Bytes, ty: Byte, flags: Byte, word: Bytes, rest: Bytes)
    requires |len| == 3 && |word| == 4
    ensures var all := len + [ty, flags] + word + rest;
            && |all| >= HEADER_SIZE && all[..3] == len && all[3] == ty && all[4] == flags
            && all[5..9] == word && all[HEADER_SIZE..] == rest
  {
  }

  lemma ParsedFrameIsWellFormed(buf: Bytes)
    ensures ParseFrame(buf).Done? ==> WellFormed(ParseFrame(buf).value)
  {
    if |buf| >= HEADER_SIZE {
      Pow256Values();
      FromBigEndianBound(buf[..3]);
    }
  }

  /** A frame and its payload. */
  datatype Packet = Packet(frame: Frame, payload: Bytes)

  // ---- Cutting a header block into frames, and back ----

  /** Pieces of `size` bytes, and a last one with what is left; one piece at least. */
  function Chunks(bytes: Bytes, size: nat): (pieces: seq<Bytes>)
    requires size > 0
    ensures pieces != []
    decreases |bytes|
  {
    if |bytes| <= size then [bytes] else [bytes[..size]] + Chunks(bytes[size..], size)
  }

  /** Nothing is lost, every piece fits, and all pieces but the last are full. */
  lemma {:induction false} ChunksPartition(bytes: Bytes, size: nat)
    requires size > 0
    ensures var pieces := Chunks(bytes, size);
            && Flatten(pieces) == bytes
            && (forall i :: 0 <= i < |pieces| ==> |pieces[i]| <= size)
            && (forall i :: 0 <= i < |pieces| - 1 ==> |pieces[i]| == size)
            && (bytes != [] ==> |pieces[|pieces| - 1]| > 0)
    decreases |bytes|
  {
    if |bytes| <= size {
      FlattenSingle(bytes);
    } else {
      ChunksPartition(bytes[size..], size);
      var rest := Chunks(bytes[size..], size);
      assert ([bytes[..size]] + rest)[1..] == rest;
      assert bytes[..size] + bytes[size..] == bytes;
    }
  }

  /** The frame for piece `k` of `n`: HEADERS first, CONTINUATION after, and
      END_HEADERS on the last alone. */
  function HeaderFrame(streamId: nat, isContinuation: bool, isLast: bool): Frame {
    Frame(if isContinuation then Continuation(isLast) else Headers(false, false, isLast, false), false, streamId, 0)
  }

  function HeaderPackets(streamId: nat, pieces: seq<Bytes>, isContinuation: bool): (packets: seq<Packet>)
    ensures |packets| == |pieces|
    decreases |pieces|
  {
    if pieces == [] then []
    else [Packet(HeaderFrame(streamId, isContinuation, |pieces| == 1), pieces[0])]
         + HeaderPackets(streamId, pieces[1..], true)
  }

  /** What the collecting loop of `read_headers` makes of the frames that arrive. */
  datatype Collected =
    | Block(data: Bytes, rest: seq<Packet>)
    | ChannelClosed
    | ContinuationForOtherStream(streamId: nat)
    | NotContinuation(ty: FrameType)

  function CollectFrom(streamId: nat, fragments: Bytes, rx: seq<Packet>): Collected
    decreases |rx|
  {
    if rx == [] then ChannelClosed
    else
      var Packet(frame, payload) := rx[0];
      if frame.streamId != streamId then ContinuationForOtherStream(frame.streamId)
      else if !frame.ty.Continuation? then NotContinuation(frame.ty)
      else if frame.ty.endHeaders then Block(fragments + payload, rx[1..])
      else CollectFrom(streamId, fragments + payload, rx[1..])
  }

  /** The data of a HEADERS frame, with the frames that follow it. */
  function Collect(headers: Packet, rx: seq<Packet>): Collected
    requires headers.frame.ty.Headers?
  {
    if headers.frame.ty.endHeaders then Block(headers.payload, rx)
    else CollectFrom(headers.frame.streamId, headers.payload, rx)
  }

  /** The loop itself: a list of fragments, concatenated at the end. */
  method CollectFragments(headers: Packet, rx: seq<Packet>) returns (r: Collected)
    requires headers.frame.ty.Headers?
    ensures r == Collect(headers, rx)
  {
    if headers.frame.ty.endHeaders {
      return Block(headers.payload, rx);
    }
    var streamId := headers.frame.streamId;
    var fragments := [headers.payload];
    FlattenSingle(headers.payload);
    var next := 0;
    while true
      invariant next <= |rx|
      invariant Collect(headers, rx) == CollectFrom(streamId, Flatten(fragments), rx[next..])
      decreases |rx| - next
    {
      if next == |rx| {
        return ChannelClosed;
      }
      var Packet(frame, payload) := rx[next];
      assert rx[next..][1..] == rx[next + 1..];
      next := next + 1;
      if frame.streamId != streamId {
        return ContinuationForOtherStream(frame.streamId);
      }
      if !frame.ty.Continuation? {
        return NotContinuation(frame.ty);
      }
      FlattenSnoc(fragments, payload);
      fragments := fragments + [payload];
      if frame.ty.endHeaders {
        break;
      }
    }
    r := Block(Flatten(fragments), rx[next..]);
  }

  /** Packets whose frames say no more than type, flags and stream: the lengths
      that were filled in on the way do not matter to the collecting loop. */
  ghost predicate SameButLength(a: seq<Packet>, b: seq<Packet>) {
    |a| == |b| && forall i :: 0 <= i < |a| ==> a[i].payload == b[i].payload && a[i].frame.(len := 0) == b[i].frame.(len := 0)
  }

  lemma {:induction false} CollectContinuations(streamId: nat, fragments: Bytes, pieces: seq<Bytes>,
                                                rx: seq<Packet>, more: seq<Packet>)
    requires pieces != [] && SameButLength(rx, HeaderPackets(streamId, pieces, true))
    ensures CollectFrom(streamId, fragments, rx + more) == Block(fragments + Flatten(pieces), more)
    decreases |pieces|
  {
    var sent := HeaderPackets(streamId, pieces, true);
    assert rx[0].frame.(len := 0) == sent[0].frame.(len := 0);
    assert (rx + more)[0] == rx[0];
    assert (rx + more)[1..] == rx[1..] + more;
    if |pieces| == 1 {
      FlattenSingle(pieces[0]);
      assert pieces == [pieces[0]] && rx[1..] == [];
      assert rx[1..] + more == more;
    } else {
      assert SameButLength(rx[1..], sent[1..]);
      CollectContinuations(streamId, fragments + pieces[0], pieces[1..], rx[1..], more);
      assert fragments + pieces[0] + Flatten(pieces[1..]) == fragments + Flatten(pieces);
    }
  }

  predicate GoesOn(p: Packet, streamId: nat) {
    p.frame.streamId == streamId && p.frame.ty == Continuation(false)
  }

  /** A block that is not ended: the frames run out, or one comes for another stream or of
      another type, and the error says which. */
  lemma {:induction false} BlockBreaksOff(streamId: nat, fragments: Bytes, rx: seq<Packet>, rest: seq<Packet>)
    requires forall i :: 0 <= i < |rx| ==> GoesOn(rx[i], streamId)
    requires rest != [] ==> rest[0].frame.streamId != streamId || !rest[0].frame.ty.Continuation?
    ensures CollectFrom(streamId, fragments, rx + rest) ==
            if rest == [] then ChannelClosed
            else if rest[0].frame.streamId != streamId then ContinuationForOtherStream(rest[0].frame.streamId)
            else NotContinuation(rest[0].frame.ty)
    decreases |rx|
  {
    if rx == [] {
      assert rx + rest == rest;
    } else {
      assert GoesOn(rx[0], streamId) && (rx + rest)[0] == rx[0] && (rx + rest)[1..] == rx[1..] + rest;
      BlockBreaksOff(streamId, fragments + rx[0].payload, rx[1..], rest);
    }
  }

  /** Cutting a block at any frame size and collecting the frames gives the block
      back and leaves the frames that follow. */
  lemma FragmentationRoundTrip(streamId: nat, block: Bytes, size: nat, rx: seq<Packet>, more: seq<Packet>)
    requires size > 0
    requires SameButLength(rx, HeaderPackets(streamId, Chunks(block, size), false))
    ensures rx != [] && rx[0].frame.ty.Headers?
    ensures Collect(rx[0], rx[1..] + more) == Block(block, more)
  {
    var pieces := Chunks(block, size);
    var sent := HeaderPackets(streamId, pieces, false);
    ChunksPartition(block, size);
    assert rx[0].frame.(len := 0) == sent[0].frame.(len := 0);
    if |pieces| == 1 {
      FlattenSingle(pieces[0]);
      assert pieces == [pieces[0]] && rx[1..] + more == more;
    } else {
      assert SameButLength(rx[1..], sent[1..]);
      CollectContinuations(streamId, pieces[0], pieces[1..], rx[1..], more);
    }
  }
}
