/** Reading until a parser has enough (`read_and_parse`): the answer does not depend on how
    the transport splits the bytes into reads, and neither does whether the buffer gets
    stuck. */
module Reading {
  import opened Common
  import opened Frames
  import opened Transports
  import opened BufPool
  import opened RollBuffer

  type Parser<T> = Bytes -> Parse<T>

  /** A streaming parser that has decided keeps its decision when more bytes come. */
  ghost predicate DecidedOn<T>(parser: Parser<T>, seen: Bytes, more: Bytes) {
    match parser(seen)
    case Done(value, rest) => parser(seen + more) == Done(value, rest + more)
    case Failed => parser(seen + more).Failed?
    case Incomplete => true
  }

  /** What is left after a parsed value is the end of what was seen. */
  ghost predicate Leaves<T>(parser: Parser<T>, seen: Bytes) {
    match parser(seen)
    case Done(_, rest) => |rest| <= |seen| && seen[|seen| - |rest|..] == rest
    case _ => true
  }

  ghost predicate Streaming<T>(parser: Parser<T>) {
    (forall seen, more :: DecidedOn(parser, seen, more)) && forall seen :: Leaves(parser, seen)
  }

  datatype ReadResult<+T> =
    | Parsed(value: T)
    | Eof
    | ReadError
    | UnexpectedEof
    | BufferLimitReached
    | ParsingError
    | OutOfBlocks
    | Aborted

  /** The answer for the bytes `stream`, of which a run looks at `most` at most: a
      function of the bytes, with no trace of the reads. */
  function Answer<T>(parser: Parser<T>, stream: Bytes, most: nat): ReadResult<T> {
    match parser(if |stream| <= most then stream else stream[..most])
    case Done(value, _) => Parsed(value)
    case Failed => ParsingError
    case Incomplete =>
      if |stream| >= most then BufferLimitReached else if stream == [] then Eof else UnexpectedEof
  }

  /** A run looks at what is buffered, or at `maxLen` bytes if that is more. */
  function Most(buffered: nat, maxLen: nat): nat {
    if buffered < maxLen then maxLen else buffered
  }

  // ---- The buffer ----

  /** The shape of the buffer when a run ends, or none if it got stuck: whenever the buffer
      is full and the parser wants more, room is reserved, and if none is gained the read
      that follows panics. */
  function Settle<T>(parser: Parser<T>, stream: Bytes, shape: Shape, maxLen: nat): (settled: Option<Shape>)
    requires shape.Valid()
    ensures settled.Some? ==> settled.value.Valid()
    decreases maxLen - shape.Room()
  {
    if |stream| < shape.Room() || maxLen <= shape.Room() || !parser(stream[..shape.Room()]).Incomplete? then Some(shape)
    else if shape.Stuck() then None
    else
      shape.RoomAfterReserve(shape.Room());
      Settle(parser, stream, shape.Reserved(shape.Room()), maxLen)
  }

  lemma {:induction false} NeverStuckAtFront<T>(parser: Parser<T>, stream: Bytes, shape: Shape, maxLen: nat)
    requires shape.Valid() && shape.off == 0
    ensures Settle(parser, stream, shape, maxLen).Some?
    decreases maxLen - shape.Room()
  {
    if shape.Room() < maxLen {
      NeverStuckAtFront(parser, stream, shape.Reserved(shape.Room()), maxLen);
    }
  }

  /** A run gets stuck exactly when the buffer is a box with an offset and exactly one block
      of room, more than a block is wanted, that many bytes come, and they are not enough.
      All of that can be known before the run. */
  lemma StuckIff<T>(parser: Parser<T>, stream: Bytes, shape: Shape, maxLen: nat)
    requires shape.Valid()
    ensures Settle(parser, stream, shape, maxLen).None? <==>
              && shape.isBox && shape.off > 0 && shape.Room() == BUF_SIZE
              && maxLen > BUF_SIZE && |stream| >= BUF_SIZE && parser(stream[..BUF_SIZE]).Incomplete?
  {
    if !shape.Stuck() {
      shape.RoomAfterReserve(shape.Room());
      if shape.Room() < maxLen {
        NeverStuckAtFront(parser, stream, shape.Reserved(shape.Room()), maxLen);
      }
    }
  }

  /** Once the parser has decided, or the limit is reached, the shape is settled. */
  lemma Settled<T>(parser: Parser<T>, stream: Bytes, seen: Bytes, shape: Shape, maxLen: nat)
    requires Streaming(parser) && shape.Valid() && seen <= stream && |seen| <= shape.Room()
    requires !parser(seen).Incomplete? || maxLen <= |seen| || |stream| < shape.Room()
    ensures Settle(parser, stream, shape, maxLen) == Some(shape)
  {
    if shape.Room() <= |stream| {
      var filled := stream[..shape.Room()];
      assert DecidedOn(parser, seen, filled[|seen|..]);
      assert seen + filled[|seen|..] == filled;
    }
  }

  // ---- The loop ----

  /** What a run may answer for these bytes and this buffer, and what it leaves. */
  ghost predicate ReadResultOk<T>(parser: Parser<T>, stream: Bytes, shape: Shape, most: nat, maxLen: nat,
                                  r: ReadResult<T>, left: Bytes, after: Shape)
    requires shape.Valid()
  {
    var settled := Settle(parser, stream, shape, maxLen);
    && (!r.ReadError? && !r.OutOfBlocks? ==> r == if settled.None? then Aborted else Answer(parser, stream, most))
    && (if r.Parsed? then
          && parser(stream) == Done(r.value, left) && |left| <= |stream|
          && settled.Some? && after == settled.value.(off := settled.value.off + (|stream| - |left|))
        else left == stream)
  }

  /** One attempt of the parser on what is filled. */
  lemma Attempt<T>(parser: Parser<T>, seen: Bytes, unread: Bytes, shape: Shape, maxLen: nat, most: nat)
    requires Streaming(parser) && shape.Valid() && |seen| <= shape.Room()
    requires |seen| <= most && maxLen <= most && (|seen| >= maxLen ==> |seen| == most)
    ensures var stream := seen + unread;
            match parser(seen)
            case Done(value, rest) =>
              && |rest| <= |seen| && seen[|seen| - |rest|..] == rest
              && ReadResultOk(parser, stream, shape, most, maxLen, Parsed(value), rest + unread,
                              shape.(off := shape.off + (|seen| - |rest|)))
            case Failed => ReadResultOk(parser, stream, shape, most, maxLen, ParsingError, stream, shape)
            case Incomplete =>
              |seen| >= maxLen ==> ReadResultOk(parser, stream, shape, most, maxLen, BufferLimitReached, stream, shape)
  {
    var stream := seen + unread;
    assert Leaves(parser, seen);
    Decided(parser, seen, unread, most);
    if !parser(seen).Incomplete? || |seen| >= maxLen {
      Settled(parser, stream, seen, shape, maxLen);
    }
    if |seen| >= maxLen {
      assert stream[..most] == seen && (|stream| == most ==> stream == stream[..most]);
    }
  }

  /** The parser is given a view of what is filled; a view that it gives back or drops is
      dropped. */
  method ParseFilled<T>(parser: Parser<T>, buf: RollMut, maxLen: nat, ghost unread: Bytes, ghost most: nat)
    returns (answer: Option<ReadResult<T>>)
    requires Streaming(parser) && buf.Valid() && buf.len <= most && maxLen <= most && (buf.len >= maxLen ==> buf.len == most)
    modifies buf.pool, buf`views, buf`off, buf`len
    ensures buf.Valid()
    ensures answer.None? ==>
              && parser(buf.Contents()).Incomplete? && buf.len < maxLen
              && buf.Contents() == old(buf.Contents()) && buf.ShapeOf() == old(buf.ShapeOf()) && buf.len == old(buf.len)
    ensures answer.Some? ==>
              && !answer.value.ReadError? && !answer.value.OutOfBlocks?
              && ReadResultOk(parser, old(buf.Contents()) + unread, old(buf.ShapeOf()), most, maxLen, answer.value,
                              buf.Contents() + unread, buf.ShapeOf())
  {
    var filled, seen := Look(buf);
    Attempt(parser, seen, unread, buf.ShapeOf(), maxLen, most);
    var parsed := parser(seen);
    if parsed.Done? {
      KeepRest(buf, filled, |seen| - |parsed.rest|);
      answer := Some(Parsed(parsed.value));
    } else {
      DropFilled(buf, filled);
      answer := if parsed.Failed? then Some(ParsingError) else if buf.len >= maxLen then Some(BufferLimitReached) else None;
    }
  }

  /** A view of what is filled, and what it shows. */
  method Look(buf: RollMut) returns (filled: Roll, seen: Bytes)
    requires buf.Valid()
    modifies buf`views
    ensures buf.Valid() && buf.Contents() == old(buf.Contents()) == seen && |seen| == buf.len
    ensures filled == Roll(buf.index, buf.storage, buf.off, buf.len)
  {
    filled := buf.Filled();
    seen := buf.storage[buf.off..buf.off + buf.len];
  }

  method DropFilled(buf: RollMut, filled: Roll)
    requires buf.Valid() && filled == Roll(buf.index, buf.storage, buf.off, buf.len)
    modifies buf.pool
    ensures buf.Valid() && buf.Contents() == old(buf.Contents())
  {
    buf.DropView(filled);
  }

  /** What was parsed is consumed, and the view of the rest dropped. */
  method KeepRest(buf: RollMut, filled: Roll, n: nat)
    requires buf.Valid() && n <= buf.len && filled == Roll(buf.index, buf.storage, buf.off, buf.len)
    modifies buf.pool, buf`off, buf`len
    ensures buf.Valid() && buf.Contents() == old(buf.Contents())[n..]
    ensures buf.ShapeOf() == old(buf.ShapeOf()).(off := old(buf.off) + n)
  {
    var rest := Roll(filled.index, filled.storage, filled.off + n, filled.len - n);
    buf.Keep(rest);
    buf.DropView(rest);
  }

  /** Room is made in a full buffer, or the run ends. */
  method MakeRoom<T>(parser: Parser<T>, transport: Transport, buf: RollMut, maxLen: nat, ghost most: nat)
    returns (stop: Option<ReadResult<T>>)
    requires buf.Valid() && buf.Cap() == 0 && buf.len < maxLen && parser(buf.Contents()).Incomplete?
    modifies buf, buf.pool, buf.NextBlock()
    ensures buf.Valid() && (buf.storage == old(buf.storage) || fresh(buf.storage) || buf.storage in old(buf.NextBlock()))
    ensures buf.Contents() == old(buf.Contents()) && buf.len == old(buf.len)
    ensures var stream := buf.Contents() + transport.unread;
            match stop
            case None =>
              buf.Cap() > 0 && Settle(parser, stream, old(buf.ShapeOf()), maxLen) == Settle(parser, stream, buf.ShapeOf(), maxLen)
            case Some(end) =>
              && (end.Aborted? || (end.OutOfBlocks? && buf.pool.free == []))
              && ReadResultOk(parser, stream, old(buf.ShapeOf()), most, maxLen, end, stream, buf.ShapeOf())
  {
    ghost var shape, stream := buf.ShapeOf(), buf.Contents() + transport.unread;
    assert shape.Room() == buf.len && stream[..shape.Room()] == buf.Contents();
    shape.RoomAfterReserve(buf.len);
    var reserved := buf.Reserve();
    if reserved.Err? {
      return Some(OutOfBlocks);
    }
    if buf.Cap() == 0 {
      return Some(Aborted);
    }
    stop := None;
  }

  /** `read_and_parse`. Unless a read fails or the pool has no block left, it panics exactly
      when the buffer gets stuck, and otherwise gives the answer of the bytes; the bytes
      after the parsed value are all still there, and so are all bytes if nothing was
      parsed. The shape of the buffer after it does not depend on the reads either. */
  method ReadAndParse<T>(parser: Parser<T>, transport: Transport, buf: RollMut, maxLen: nat) returns (r: ReadResult<T>)
    requires Streaming(parser) && buf.Valid()
    modifies transport, buf.Footprint()
    ensures buf.Valid() && (buf.storage == old(buf.storage) || fresh(buf.storage) || buf.storage in buf.pool.memory)
    ensures transport.broken == (old(transport.broken) || r.ReadError?)
    ensures r.OutOfBlocks? ==> buf.pool.free == []
    ensures ReadResultOk(parser, old(buf.Contents() + transport.unread), old(buf.ShapeOf()), Most(old(buf.len), maxLen), maxLen,
                         r, buf.Contents() + transport.unread, buf.ShapeOf())
  {
    ghost var stream, shape, most := buf.Contents() + transport.unread, buf.ShapeOf(), Most(buf.len, maxLen);
    while true
      invariant buf.Valid() && (buf.storage == old(buf.storage) || fresh(buf.storage) || buf.storage in buf.pool.memory)
      invariant stream == buf.Contents() + transport.unread && transport.broken == old(transport.broken)
      invariant old(buf.len) <= buf.len <= most
      invariant Settle(parser, stream, buf.ShapeOf(), maxLen) == Settle(parser, stream, shape, maxLen)
      decreases |transport.unread|
    {
      var answer := ParseFilled(parser, buf, maxLen, transport.unread, most);
      if answer.Some? {
        return answer.value;
      }
      answer := ReadMore(parser, transport, buf, maxLen, most);
      if answer.Some? {
        return answer.value;
      }
    }
  }

  /** The rest of an iteration: room is made if there is none, and a read adds bytes. */
  method ReadMore<T>(parser: Parser<T>, transport: Transport, buf: RollMut, maxLen: nat, ghost most: nat)
    returns (answer: Option<ReadResult<T>>)
    requires Streaming(parser) && buf.Valid() && buf.len < maxLen <= most && parser(buf.Contents()).Incomplete?
    modifies transport, buf, buf.pool, buf.NextBlock(), buf.storage
    ensures buf.Valid() && (buf.storage == old(buf.storage) || fresh(buf.storage) || buf.storage in old(buf.NextBlock()))
    ensures buf.Contents() + transport.unread == old(buf.Contents() + transport.unread) && old(buf.len) <= buf.len <= maxLen
    ensures transport.broken == (old(transport.broken) || (answer.Some? && answer.value.ReadError?))
    ensures answer.None? ==>
              && |transport.unread| < |old(transport.unread)|
              && Settle(parser, old(buf.Contents() + transport.unread), old(buf.ShapeOf()), maxLen)
                 == Settle(parser, old(buf.Contents() + transport.unread), buf.ShapeOf(), maxLen)
    ensures answer.Some? ==>
              && (answer.value.OutOfBlocks? ==> buf.pool.free == []) && !answer.value.Parsed?
              && ReadResultOk(parser, old(buf.Contents() + transport.unread), old(buf.ShapeOf()), most, maxLen, answer.value,
                              buf.Contents() + transport.unread, buf.ShapeOf())
  {
    ghost var stream, shape := buf.Contents() + transport.unread, buf.ShapeOf();
    if buf.Cap() == 0 {
      answer := MakeRoom(parser, transport, buf, maxLen, most);
      if answer.Some? {
        return;
      }
    }
    ghost var roomy := buf.ShapeOf();
    answer := ReadOnce(parser, transport, buf, maxLen, most);
    if answer.Some? {
      SameSettling(parser, stream, shape, roomy, most, maxLen, answer.value);
    }
  }

  lemma SameSettling<T>(parser: Parser<T>, stream: Bytes, a: Shape, b: Shape, most: nat, maxLen: nat, r: ReadResult<T>)
    requires a.Valid() && b.Valid() && Settle(parser, stream, a, maxLen) == Settle(parser, stream, b, maxLen)
    requires ReadResultOk(parser, stream, b, most, maxLen, r, stream, b) && !r.Parsed?
    ensures ReadResultOk(parser, stream, a, most, maxLen, r, stream, b)
  {
  }

  /** One read into a buffer with room. */
  method ReadOnce<T>(parser: Parser<T>, transport: Transport, buf: RollMut, maxLen: nat, ghost most: nat)
    returns (answer: Option<ReadResult<T>>)
    requires Streaming(parser) && buf.Valid() && buf.len < maxLen <= most && buf.Cap() > 0
    requires parser(buf.Contents()).Incomplete?
    modifies transport, buf`len, buf.storage
    ensures buf.Valid() && buf.ShapeOf() == old(buf.ShapeOf())
    ensures buf.Contents() + transport.unread == old(buf.Contents() + transport.unread) && old(buf.len) <= buf.len <= maxLen
    ensures transport.broken == (old(transport.broken) || (answer.Some? && answer.value.ReadError?))
    ensures answer.None? ==> |transport.unread| < |old(transport.unread)|
    ensures answer.Some? ==>
              && !answer.value.OutOfBlocks? && !answer.value.Parsed?
              && ReadResultOk(parser, old(buf.Contents() + transport.unread), buf.ShapeOf(), most, maxLen, answer.value,
                              buf.Contents() + transport.unread, buf.ShapeOf())
  {
    ghost var stream, seen := buf.Contents() + transport.unread, buf.Contents();
    var read := buf.ReadInto(maxLen - buf.len, transport);
    if read.Err? {
      return Some(ReadError);
    }
    if read.value == 0 {
      assert seen + [] == seen == stream;
      AtEnd(parser, stream, buf.ShapeOf(), maxLen, most);
      return Some(if buf.len != 0 then UnexpectedEof else Eof);
    }
    answer := None;
  }

  /** All bytes were seen and more are wanted. */
  lemma AtEnd<T>(parser: Parser<T>, stream: Bytes, shape: Shape, maxLen: nat, most: nat)
    requires Streaming(parser) && shape.Valid() && |stream| < shape.Room() && |stream| < maxLen <= most
    requires parser(stream).Incomplete?
    ensures ReadResultOk(parser, stream, shape, most, maxLen, if stream != [] then UnexpectedEof else Eof, stream, shape)
  {
    Settled(parser, stream, stream, shape, maxLen);
  }

  /** A parser that has decided on a prefix answers the same for the whole. */
  lemma Decided<T>(parser: Parser<T>, buf: Bytes, unread: Bytes, most: nat)
    requires Streaming(parser) && |buf| <= most
    ensures var stream := buf + unread;
            match parser(buf)
            case Done(value, rest) =>
              Answer(parser, stream, most) == Parsed(value) && parser(stream) == Done(value, rest + unread)
            case Failed => Answer(parser, stream, most) == ParsingError
            case Incomplete => true
  {
    var stream := buf + unread;
    var seen := if |stream| <= most then stream else stream[..most];
    assert DecidedOn(parser, buf, unread);
    assert DecidedOn(parser, buf, seen[|buf|..]);
    assert buf + seen[|buf|..] == seen;
  }

  // ---- The parsers the deframer uses ----

  /** `nom::bytes::streaming::take`. */
  function Take(n: nat, buf: Bytes): Parse<Bytes> {
    if |buf| < n then Incomplete else Done(buf[..n], buf[n..])
  }

  lemma TakeStreams(n: nat)
    ensures Streaming((buf: Bytes) => Take(n, buf))
  {
    var parser := (buf: Bytes) => Take(n, buf);
    forall seen: Bytes, more: Bytes
      ensures DecidedOn(parser, seen, more)
    {
      if |seen| >= n {
        assert (seen + more)[..n] == seen[..n];
        assert (seen + more)[n..] == seen[n..] + more;
      }
    }
  }

  lemma FrameStreams()
    ensures Streaming(ParseFrame)
  {
    forall seen: Bytes, more: Bytes
      ensures DecidedOn(ParseFrame, seen, more)
    {
      if |seen| >= HEADER_SIZE {
        var all := seen + more;
        assert all[..3] == seen[..3] && all[5..9] == seen[5..9];
        assert all[HEADER_SIZE..] == seen[HEADER_SIZE..] + more;
      }
    }
  }
}
