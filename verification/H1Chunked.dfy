/** HTTP/1.1 chunked bodies (section 7.1 of RFC 9112): the chunk writer, the
    incremental decoder, and the round trip under every split into reads. */
module H1Chunked {
  import opened Common
  import opened Frames
  import opened Transports
  import opened RollBuffer
  import opened Reading

  // ---- Hexadecimal ----

  predicate IsHexDigit(b: Byte) {
    48 <= b <= 57 || 97 <= b <= 102 || 65 <= b <= 70
  }

  function DigitValue(b: Byte): nat
    requires IsHexDigit(b)
  {
    if b <= 57 then b - 48 else if b >= 97 then b - 87 else b - 55
  }

  predicate AllHex(s: Bytes) {
    forall i :: 0 <= i < |s| ==> IsHexDigit(s[i])
  }

  function HexValue(s: Bytes): nat
    requires AllHex(s)
  {
    if s == [] then 0 else HexValue(s[..|s| - 1]) * 16 + DigitValue(s[|s| - 1])
  }

  function HexDigit(n: nat): Byte
    requires n < 16
  {
    if n < 10 then 48 + n else 87 + n
  }

  /** `format!("{:x}", n)`. */
  function Hex(n: nat): Bytes {
    if n < 16 then [HexDigit(n)] else Hex(n / 16) + [HexDigit(n % 16)]
  }

  function Pow16(k: nat): nat {
    if k == 0 then 1 else 16 * Pow16(k - 1)
  }

  /** Printed numbers are hexadecimal digits that parse back. */
  lemma {:induction false} HexRoundTrip(n: nat)
    ensures AllHex(Hex(n)) && HexValue(Hex(n)) == n && Hex(n) != []
  {
    if n < 16 {
      assert Hex(n)[..0] == [];
    } else {
      HexRoundTrip(n / 16);
      assert Hex(n)[..|Hex(n)| - 1] == Hex(n / 16);
    }
  }

  /** They are lower case and have no leading zero, as `format!` prints them. */
  lemma {:induction false} HexIsShortest(n: nat)
    ensures forall i :: 0 <= i < |Hex(n)| ==> 48 <= Hex(n)[i] <= 57 || 97 <= Hex(n)[i] <= 102
    ensures Hex(n) != [] && (Hex(n)[0] == 48 <==> n == 0)
  {
    if n >= 16 {
      HexIsShortest(n / 16);
    }
  }

  lemma {:induction false} HexLength(n: nat, k: nat)
    requires k >= 1 && n < Pow16(k)
    ensures |Hex(n)| <= k
    decreases k
  {
    if n >= 16 {
      assert k >= 2 by { assert Pow16(1) == 16 * Pow16(0); }
      HexLength(n / 16, k - 1);
    }
  }

  // ---- Streaming parsers ----

  const CR: Byte := 13
  const LF: Byte := 10

  function CrLf(): Bytes {
    [CR, LF]
  }

  /** `crlf`, a streaming tag. */
  function ParseCrlf(buf: Bytes): Parse<()> {
    if buf == [] then Incomplete
    else if buf[0] != CR then Failed
    else if |buf| == 1 then Incomplete
    else if buf[1] != LF then Failed
    else Done((), buf[2..])
  }

  /** How many hexadecimal digits a string starts with. */
  function HexRun(buf: Bytes): (n: nat)
    ensures n <= |buf| && AllHex(buf[..n]) && (n < |buf| ==> !IsHexDigit(buf[n]))
  {
    if buf == [] || !IsHexDigit(buf[0]) then 0 else 1 + HexRun(buf[1..])
  }

  /** `chunk_size`: a hexadecimal u64 and CRLF. */
  function ParseChunkSize(buf: Bytes): Parse<nat> {
    var n := HexRun(buf);
    if n == |buf| then Incomplete
    else if n == 0 || HexValue(buf[..n]) >= 0x1_0000_0000_0000_0000 then Failed
    else match ParseCrlf(buf[n..])
      case Done(_, rest) => Done(HexValue(buf[..n]), rest)
      case Incomplete => Incomplete
      case Failed => Failed
  }

  lemma CrlfStreams()
    ensures Streaming(ParseCrlf)
  {
    forall seen: Bytes, more: Bytes
      ensures DecidedOn(ParseCrlf, seen, more)
    {
      if |seen| >= 2 {
        assert (seen + more)[2..] == seen[2..] + more;
      }
    }
  }

  lemma {:induction false} HexRunUnique(buf: Bytes, n: nat)
    requires n < |buf| && AllHex(buf[..n]) && !IsHexDigit(buf[n])
    ensures HexRun(buf) == n
  {
    if n > 0 {
      assert IsHexDigit(buf[..n][0]);
      assert buf[1..][..n - 1] == buf[..n][1..];
      HexRunUnique(buf[1..], n - 1);
    }
  }

  lemma ChunkSizeStreams()
    ensures Streaming(ParseChunkSize)
  {
    CrlfStreams();
    forall seen: Bytes, more: Bytes
      ensures DecidedOn(ParseChunkSize, seen, more)
    {
      var n := HexRun(seen);
      if n < |seen| {
        var all := seen + more;
        assert all[..n] == seen[..n] && all[n..] == seen[n..] + more;
        HexRunUnique(all, n);
        assert DecidedOn(ParseCrlf, seen[n..], more);
      }
    }
  }

  // ---- The writer ----

  /** `write_h1_body_chunk` and `write_h1_body_end` in chunked mode. */
  function ChunkBytes(chunk: Bytes): Bytes {
    Hex(|chunk|) + CrLf() + chunk + CrLf()
  }

  function EndBytes(): Bytes {
    [48] + CrLf() + CrLf()
  }

  function BodyBytes(chunks: seq<Bytes>): Bytes {
    if chunks == [] then EndBytes() else ChunkBytes(chunks[0]) + BodyBytes(chunks[1..])
  }

  // ---- The decoder on a whole stream ----

  datatype DecoderState = ReadingChunkHeader | ReadingChunk(remain: nat) | BodyDone

  datatype BodyError =
    | CalledNextChunkAfterError
    | InvalidChunkSize
    | ClosedWhileReadingChunkSize
    | InvalidChunkTerminator
    | ClosedWhileReadingChunkTerminator
    | ErrorWhileReadingChunkData
    | ClosedWhileReadingChunkData

  /** A body ends where the bytes after it begin, or with an error. */
  datatype Ending = Complete(rest: Bytes) | Broken(error: BodyError)

  /** The bytes of a body, and how it ends. */
  datatype Body = Body(bytes: Bytes, ending: Ending)

  const SIZE_LINE_LIMIT := 16

  function FirstOf(stream: Bytes, n: nat): Bytes {
    if |stream| <= n then stream else stream[..n]
  }

  /** The size line at the start of a stream, if it is well formed and no longer than the
      reader's limit. */
  function SizeLine(stream: Bytes): Parse<nat> {
    ParseChunkSize(FirstOf(stream, SIZE_LINE_LIMIT))
  }

  /** A body with `chunk` put in front of its bytes. */
  function InFront(chunk: Bytes, body: Body): Body {
    body.(bytes := chunk + body.bytes)
  }

  /** What is wrong with a stream that does not start with CRLF. */
  function NoTerminator(stream: Bytes): BodyError {
    if stream == [] then ClosedWhileReadingChunkTerminator else InvalidChunkTerminator
  }

  /** What a stream holds from the CRLF that ends a body on. */
  function AtLastCrlf(stream: Bytes): Body {
    Body([], if ParseCrlf(stream).Done? then Complete(ParseCrlf(stream).rest) else Broken(NoTerminator(stream)))
  }

  /** What a stream holds from a size line on. */
  function DecodeChunks(stream: Bytes): Body
    decreases |stream|, 1
  {
    if !SizeLine(stream).Done? || !ParseChunkSize(stream).Done? then
      Body([], Broken(if stream == [] then ClosedWhileReadingChunkSize else InvalidChunkSize))
    else
      var Done(size, rest) := ParseChunkSize(stream);
      if size == 0 then AtLastCrlf(rest)
      else ChunkThen(size, rest, if size <= |rest| then AfterChunk(rest[size..]) else Body([], Complete([])))
  }

  /** `remain` bytes of the stream, in front of what follows them; fewer, if it ends. */
  function ChunkThen(remain: nat, stream: Bytes, after: Body): Body {
    if |stream| < remain then Body(stream, Broken(ClosedWhileReadingChunkData)) else InFront(stream[..remain], after)
  }

  /** The same from the CRLF that ends a chunk on. */
  function AfterChunk(stream: Bytes): Body
    decreases |stream|, 0
  {
    if ParseCrlf(stream).Done? then DecodeChunks(ParseCrlf(stream).rest) else Body([], Broken(NoTerminator(stream)))
  }

  /** What is left of a chunked body in a decoder's state. */
  function DecodeBody(state: DecoderState, stream: Bytes): Body {
    match state
    case BodyDone => Body([], Complete(stream))
    case ReadingChunkHeader => DecodeChunks(stream)
    case ReadingChunk(remain) =>
      ChunkThen(remain, stream, if remain <= |stream| then AfterChunk(stream[remain..]) else Body([], Complete([])))
  }

  datatype BodyChunk = Chunk(bytes: Bytes) | Finished

  /** What one call may give for the body that is left: the next bytes of it, its end, or
      its error; in any portions. */
  ghost predicate NextOk(before: Body, r: Result<BodyChunk, BodyError>, after: Body) {
    match r
    case Ok(Chunk(bytes)) => bytes != [] && before == InFront(bytes, after)
    case Ok(Finished) => before == after && before.bytes == [] && before.ending.Complete?
    case Err(error) => before == Body([], Broken(error))
  }

  // ---- Streams whose answer does not depend on the reads ----

  /** The size line ends, or is wrong, within the reader's limit, or the stream ends before
      that, or there is no size line at all. `SameAnswerIff` says that the answer depends on
      how much was buffered already in all other cases and only there. */
  predicate LineFits(stream: Bytes) {
    |stream| <= SIZE_LINE_LIMIT || !SizeLine(stream).Incomplete? || !ParseChunkSize(stream).Done?
  }

  /** Every size line that the decoder comes to fits. */
  predicate RegularChunks(stream: Bytes)
    decreases |stream|, 1
  {
    LineFits(stream) &&
    (SizeLine(stream).Done? && ParseChunkSize(stream).Done? ==>
       var Done(size, rest) := ParseChunkSize(stream); 0 < size <= |rest| ==> RegularAfter(rest[size..]))
  }

  predicate RegularAfter(stream: Bytes)
    decreases |stream|, 0
  {
    ParseCrlf(stream).Done? ==> RegularChunks(ParseCrlf(stream).rest)
  }

  predicate Regular(state: DecoderState, stream: Bytes) {
    match state
    case BodyDone => true
    case ReadingChunkHeader => RegularChunks(stream)
    case ReadingChunk(remain) => remain <= |stream| ==> RegularAfter(stream[remain..])
  }

  /** A stream that holds a whole body is regular. */
  lemma {:induction false} CompleteIsRegular(stream: Bytes)
    requires DecodeChunks(stream).ending.Complete?
    ensures RegularChunks(stream)
    decreases |stream|
  {
    var Done(size, rest) := ParseChunkSize(stream);
    if 0 < size <= |rest| && ParseCrlf(rest[size..]).Done? {
      CompleteIsRegular(ParseCrlf(rest[size..]).rest);
    }
  }

  /** Bytes of a chunk may be taken in any portions. */
  lemma TakePortion(remain: nat, n: nat, stream: Bytes)
    requires 0 < n <= remain && n <= |stream|
    ensures DecodeBody(ReadingChunk(remain), stream) == InFront(stream[..n], DecodeBody(ReadingChunk(remain - n), stream[n..]))
    ensures Regular(ReadingChunk(remain), stream) <==> Regular(ReadingChunk(remain - n), stream[n..])
  {
    if remain <= |stream| {
      assert stream[n..][remain - n..] == stream[remain..];
      var after := AfterChunk(stream[remain..]);
      assert stream[..remain] == stream[..n] + stream[n..][..remain - n];
      Reassociate(stream[..n], stream[n..][..remain - n], after.bytes);
    } else {
      assert stream == stream[..n] + stream[n..];
    }
  }

  lemma NoLine(stream: Bytes)
    requires !SizeLine(stream).Done?
    ensures DecodeChunks(stream) == Body([], Broken(if stream == [] then ClosedWhileReadingChunkSize else InvalidChunkSize))
  {
  }

  lemma LineIsShorter(stream: Bytes)
    ensures ParseChunkSize(stream).Done? ==> |ParseChunkSize(stream).rest| < |stream|
  {
  }

  /** What follows a size line. */
  lemma AtLine(stream: Bytes)
    requires SizeLine(stream).Done? && ParseChunkSize(stream).Done?
    ensures var Done(size, rest) := ParseChunkSize(stream);
            DecodeChunks(stream) == if size == 0 then AtLastCrlf(rest) else DecodeBody(ReadingChunk(size), rest)
  {
  }

  lemma RegularAtLine(stream: Bytes)
    requires SizeLine(stream).Done? && ParseChunkSize(stream).Done? && RegularChunks(stream)
    ensures var Done(size, rest) := ParseChunkSize(stream); size > 0 ==> Regular(ReadingChunk(size), rest)
  {
  }

  /** What a size line, or its error, leaves of a body. */
  ghost predicate LineStep(body: Body, size: Result<nat, BodyError>, left: Bytes) {
    match size
    case Err(error) => body == Body([], Broken(error))
    case Ok(n) =>
      if n == 0 then body == AtLastCrlf(left)
      else body == DecodeBody(ReadingChunk(n), left) && Regular(ReadingChunk(n), left)
  }

  lemma LineSteps(stream: Bytes, size: Result<nat, BodyError>, left: Bytes)
    requires RegularChunks(stream) && (size.Ok? <==> SizeLine(stream).Done?)
    requires size.Ok? ==> ParseChunkSize(stream) == Done(size.value, left)
    requires size.Err? ==> size.error == if stream == [] then ClosedWhileReadingChunkSize else InvalidChunkSize
    ensures LineStep(DecodeChunks(stream), size, left)
  {
    if size.Ok? {
      AtLine(stream);
      RegularAtLine(stream);
    } else {
      NoLine(stream);
    }
  }

  /** What the CRLF after a chunk, or its error, leaves of a body. */
  ghost predicate CrlfStep(body: Body, end: Result<(), BodyError>, left: Bytes) {
    match end
    case Err(error) => body == Body([], Broken(error))
    case Ok(_) => body == DecodeChunks(left) && RegularChunks(left)
  }

  lemma CrlfSteps(stream: Bytes, end: Result<(), BodyError>, left: Bytes)
    requires Regular(ReadingChunk(0), stream)
    requires end.Ok? ==> ParseCrlf(stream) == Done((), left)
    requires end.Err? ==> !ParseCrlf(stream).Done? && end.error == NoTerminator(stream)
    ensures CrlfStep(DecodeBody(ReadingChunk(0), stream), end, left)
  {
    NoMoreOfChunk(stream);
  }

  /** Some bytes of a chunk were taken. */
  lemma DataTaken(remain: nat, stream: Bytes, chunk: Bytes, left: Bytes)
    requires stream == chunk + left && 0 < |chunk| <= remain
    ensures NextOk(DecodeBody(ReadingChunk(remain), stream), Ok(Chunk(chunk)), DecodeBody(ReadingChunk(remain - |chunk|), left))
    ensures Regular(ReadingChunk(remain), stream) <==> Regular(ReadingChunk(remain - |chunk|), left)
  {
    assert stream[..|chunk|] == chunk && stream[|chunk|..] == left;
    TakePortion(remain, |chunk|, stream);
  }

  lemma NoData(remain: nat)
    requires remain > 0
    ensures DecodeBody(ReadingChunk(remain), []) == Body([], Broken(ClosedWhileReadingChunkData))
  {
  }

  lemma NoMoreOfChunk(stream: Bytes)
    ensures DecodeBody(ReadingChunk(0), stream) == AfterChunk(stream)
    ensures Regular(ReadingChunk(0), stream) <==> RegularAfter(stream)
  {
    assert stream[0..] == stream && stream[..0] == [];
    assert [] + AfterChunk(stream).bytes == AfterChunk(stream).bytes;
  }

  // ---- The round trip ----

  /** Digits and CRLF. */
  lemma LineParses(text: Bytes, stream: Bytes)
    requires AllHex(text) && text != [] && HexValue(text) < 0x1_0000_0000_0000_0000 && text + CrLf() <= stream
    ensures ParseChunkSize(stream) == Done(HexValue(text), stream[|text| + 2..])
  {
    var n := |text|;
    assert (text + CrLf())[..n] == text;
    assert stream[..n] == text;
    assert stream[n] == (text + CrLf())[n] == CR && stream[n + 1] == (text + CrLf())[n + 1] == LF;
    HexRunUnique(stream, n);
    assert stream[n..][2..] == stream[n + 2..];
  }

  /** A stream that starts with a printed size and CRLF. */
  lemma ParsesSize(size: nat, stream: Bytes)
    requires size < Pow16(14) && Hex(size) + CrLf() <= stream
    ensures ParseChunkSize(stream) == Done(size, stream[|Hex(size)| + 2..])
  {
    HexRoundTrip(size);
    Pow16Of14();
    LineParses(Hex(size), stream);
  }

  lemma SizeLineRoundTrip(size: nat, more: Bytes)
    requires size < Pow16(14)
    ensures var stream := Hex(size) + CrLf() + more;
            SizeLine(stream).Done? && ParseChunkSize(stream) == Done(size, more)
  {
    HexLength(size, 14);
    var stream := Hex(size) + CrLf() + more;
    ParsesSize(size, stream);
    assert stream[|Hex(size)| + 2..] == more;
    ParsesSize(size, FirstOf(stream, SIZE_LINE_LIMIT));
  }

  lemma Pow16Of14()
    ensures Pow16(14) == 0x100_0000_0000_0000
  {
    assert Pow16(4) == 65536;
    assert Pow16(8) == 0x1_0000_0000;
    assert Pow16(12) == 0x1_0000_0000_0000;
  }

  lemma ChunkData(chunk: Bytes, more: Bytes)
    ensures var stream := chunk + (CrLf() + more);
            ChunkThen(|chunk|, stream, AfterChunk(stream[|chunk|..])) == InFront(chunk, DecodeChunks(more))
  {
    var stream := chunk + (CrLf() + more);
    assert stream[..|chunk|] == chunk && stream[|chunk|..] == CrLf() + more;
    assert (CrLf() + more)[2..] == more;
  }

  lemma ChunkParts(size: Bytes, chunk: Bytes, more: Bytes)
    ensures size + CrLf() + chunk + CrLf() + more == size + CrLf() + (chunk + (CrLf() + more))
  {
  }

  /** One non-empty chunk in front of a body is its bytes in front of the body's. */
  lemma ChunkInFront(chunk: Bytes, more: Bytes)
    requires 0 < |chunk| < Pow16(14)
    ensures DecodeChunks(ChunkBytes(chunk) + more) == InFront(chunk, DecodeChunks(more))
  {
    var after := chunk + (CrLf() + more);
    ChunkParts(Hex(|chunk|), chunk, more);
    SizeLineRoundTrip(|chunk|, after);
    ChunkData(chunk, more);
  }

  lemma EndParts(more: Bytes)
    ensures ChunkBytes([]) == EndBytes() && ChunkBytes([]) + more == Hex(0) + CrLf() + (CrLf() + more)
  {
  }

  /** An empty chunk is written as the end of the body. */
  lemma EmptyChunkEndsBody(more: Bytes)
    ensures DecodeChunks(ChunkBytes([]) + more) == Body([], Complete(more))
    ensures ChunkBytes([]) == EndBytes()
  {
    EndParts(more);
    Pow16Of14();
    SizeLineRoundTrip(0, CrLf() + more);
    assert (CrLf() + more)[2..] == more;
  }

  predicate Writable(chunks: seq<Bytes>) {
    forall i :: 0 <= i < |chunks| ==> |chunks[i]| < Pow16(14)
  }

  predicate NoneEmpty(chunks: seq<Bytes>) {
    forall i :: 0 <= i < |chunks| ==> chunks[i] != []
  }

  lemma CancelFront(chunk: Bytes, a: Bytes, b: Bytes)
    ensures chunk + a == chunk + b <==> a == b
  {
    assert (chunk + a)[|chunk|..] == a && (chunk + b)[|chunk|..] == b;
  }

  /** Decoding what was written gives the chunks' bytes and leaves what follows, exactly
      when no chunk is empty. */
  lemma {:induction false} ChunkedRoundTrip(chunks: seq<Bytes>, more: Bytes)
    requires Writable(chunks)
    ensures DecodeChunks(BodyBytes(chunks) + more) == Body(Flatten(chunks), Complete(more)) <==> NoneEmpty(chunks)
    ensures DecodeChunks(BodyBytes(chunks) + more).ending.Complete?
    decreases |chunks|
  {
    if chunks == [] {
      EmptyChunkEndsBody(more);
    } else {
      var first, later := chunks[0], chunks[1..];
      Reassociate(ChunkBytes(first), BodyBytes(later), more);
      ChunkedRoundTrip(later, more);
      if first == [] {
        EmptyChunkEndsBody(BodyBytes(later) + more);
        assert |BodyBytes(later) + more| > |more|;
      } else {
        ChunkInFront(first, BodyBytes(later) + more);
        CancelFront(first, DecodeChunks(BodyBytes(later) + more).bytes, Flatten(later));
        assert NoneEmpty(chunks) <==> NoneEmpty(later);
      }
    }
  }

  // ---- What `read_and_parse` does for the decoder ----

  lemma CrlfAnswer(stream: Bytes, buffered: nat)
    requires buffered <= |stream|
    ensures Answer(ParseCrlf, stream, Most(buffered, 2)) ==
            if ParseCrlf(stream).Done? then Parsed(())
            else if stream == [] then Eof
            else if |stream| == 1 && ParseCrlf(stream).Incomplete? then UnexpectedEof else ParsingError
  {
  }

  /** The answer to a size line that fits does not depend on what is buffered. */
  lemma SizeAnswer(stream: Bytes, buffered: nat)
    requires buffered <= |stream| && LineFits(stream)
    ensures var answer := Answer(ParseChunkSize, stream, Most(buffered, SIZE_LINE_LIMIT));
            && (SizeLine(stream).Done? ==> ParseChunkSize(stream).Done? && answer == Parsed(ParseChunkSize(stream).value))
            && (!SizeLine(stream).Done? ==> !answer.Parsed? && (answer.Eof? <==> stream == []))
  {
    if |stream| > SIZE_LINE_LIMIT {
      var n := |FirstOf(stream, Most(buffered, SIZE_LINE_LIMIT))|;
      CutDecides(stream, SIZE_LINE_LIMIT, n);
      CutDecides(stream, n, |stream|);
      assert stream[..|stream|] == stream;
    }
  }

  /** What the parser has decided on some bytes of a stream it decides on more of them. */
  lemma CutDecides(stream: Bytes, n: nat, m: nat)
    requires n <= m <= |stream|
    ensures match ParseChunkSize(stream[..n])
            case Done(size, _) => ParseChunkSize(stream[..m]).Done? && ParseChunkSize(stream[..m]).value == size
            case Failed => ParseChunkSize(stream[..m]).Failed?
            case Incomplete => true
  {
    ChunkSizeStreams();
    assert DecidedOn(ParseChunkSize, stream[..n], stream[n..m]);
    assert stream[..n] + stream[n..m] == stream[..m];
  }

  /** A size line is accepted when so much of the stream is buffered before the first read. */
  predicate Accepts(stream: Bytes, buffered: nat) {
    Answer(ParseChunkSize, stream, Most(buffered, SIZE_LINE_LIMIT)).Parsed?
  }

  /** The condition is exact: whether a size line is accepted is the same for all that may
      be buffered if and only if it fits. */
  lemma SameAnswerIff(stream: Bytes)
    ensures (forall a, b :: 0 <= a <= |stream| && 0 <= b <= |stream| ==> (Accepts(stream, a) <==> Accepts(stream, b)))
            <==> LineFits(stream)
  {
    if LineFits(stream) {
      forall a | 0 <= a <= |stream|
        ensures Accepts(stream, a) <==> SizeLine(stream).Done?
      {
        SizeAnswer(stream, a);
      }
    } else {
      LongLineDependsOnBuffer(stream);
      assert !Accepts(stream, 0) && Accepts(stream, |stream|);
    }
  }

  /** Every line that does not fit is refused if nothing is buffered and accepted if all of
      it is. */
  lemma LongLineDependsOnBuffer(stream: Bytes)
    requires !LineFits(stream)
    ensures Answer(ParseChunkSize, stream, Most(0, SIZE_LINE_LIMIT)) == BufferLimitReached
    ensures Answer(ParseChunkSize, stream, Most(|stream|, SIZE_LINE_LIMIT)) == Parsed(ParseChunkSize(stream).value)
  {
  }

  /** There is one: sixteen zeros, a five and CRLF. */
  lemma LongLine()
    ensures var stream := seq(16, i => 48) + [53] + CrLf();
            !LineFits(stream) && ParseChunkSize(stream) == Done(5, [])
  {
    var zeros: Bytes := seq(16, i => 48);
    var stream := zeros + [53] + CrLf();
    assert stream[..16] == zeros;
    HexRunAll(zeros);
    HexRunUnique(stream, 17);
    assert stream[..17] == zeros + [53] && stream[17..] == CrLf();
    ZerosValue(16);
    assert (zeros + [53])[..16] == zeros;
  }

  lemma {:induction false} HexRunAll(s: Bytes)
    requires AllHex(s)
    ensures HexRun(s) == |s|
  {
    if s != [] {
      HexRunAll(s[1..]);
    }
  }

  lemma {:induction false} ZerosValue(n: nat)
    ensures var zeros: Bytes := seq(n, i => 48); AllHex(zeros) && HexValue(zeros) == 0
  {
    if n > 0 {
      ZerosValue(n - 1);
      var zeros: Bytes := seq(n, i => 48);
      assert zeros[..n - 1] == seq(n - 1, i => 48);
    }
  }

  // ---- The decoder as it runs ----

  /** A chunked request body: decoder, buffer slot and transport. */
  class ChunkedBody {
    var state: DecoderState
    /** Whether the slot holds the buffer; it is empty once an error was returned. */
    var hasBuf: bool
    const buf: RollMut
    const transport: Transport

    constructor (buf: RollMut, transport: Transport)
      ensures state == ReadingChunkHeader && hasBuf && this.buf == buf && this.transport == transport
    {
      state, hasBuf, this.buf, this.transport := ReadingChunkHeader, true, buf, transport;
    }

    ghost predicate Valid()
      reads this, buf, buf.pool, set k | 0 <= k < |buf.views| :: buf.views[k].roll.storage
    {
      buf.Valid()
    }

    /** The bytes not yet decoded. */
    ghost function Stream(): Bytes
      requires buf.Sound()
      reads this, buf, buf.pool, buf.storage, transport
    {
      buf.Contents() + transport.unread
    }

    /** Reads CRLF, for the end of a chunk or of the body. `starved` is set if the pool had no
        block. */
    method ReadTerminator() returns (r: Result<(), BodyError>, ghost starved: bool)
      requires buf.Valid()
      modifies transport, buf.Footprint()
      ensures buf.Valid() && (buf.storage == old(buf.storage) || fresh(buf.storage) || buf.storage in buf.pool.memory)
      ensures old(transport.broken) ==> transport.broken
      ensures r.Ok? ==> transport.broken == old(transport.broken) && !starved
      ensures r.Ok? ==> ParseCrlf(old(Stream())) == Done((), Stream())
      ensures r.Err? && !transport.broken && !starved ==>
                !ParseCrlf(old(Stream())).Done? && r.error == NoTerminator(old(Stream()))
    {
      CrlfStreams();
      ghost var stream := Stream();
      CrlfAnswer(stream, buf.len);
      StuckIff(ParseCrlf, stream, buf.ShapeOf(), 2);
      var parsed := ReadAndParse(ParseCrlf, transport, buf, 2);
      starved := parsed.OutOfBlocks?;
      r := match parsed
        case Parsed(_) => Ok(())
        case Eof => Err(ClosedWhileReadingChunkTerminator)
        case _ => Err(InvalidChunkTerminator);
    }

    /** Reads a size line. */
    method ReadSize() returns (r: Result<nat, BodyError>, ghost starved: bool)
      requires buf.Valid()
      modifies transport, buf.Footprint()
      ensures buf.Valid() && (buf.storage == old(buf.storage) || fresh(buf.storage) || buf.storage in buf.pool.memory)
      ensures old(transport.broken) ==> transport.broken
      ensures r.Ok? ==> transport.broken == old(transport.broken) && !starved
      ensures r.Ok? ==> ParseChunkSize(old(Stream())) == Done(r.value, Stream())
      ensures !transport.broken && !starved && LineFits(old(Stream())) ==>
                && (r.Ok? <==> SizeLine(old(Stream())).Done?)
                && (r.Err? ==> r.error == if old(Stream()) == [] then ClosedWhileReadingChunkSize else InvalidChunkSize)
    {
      ChunkSizeStreams();
      ghost var stream := Stream();
      if LineFits(stream) {
        SizeAnswer(stream, buf.len);
      }
      StuckIff(ParseChunkSize, stream, buf.ShapeOf(), SIZE_LINE_LIMIT);
      var parsed := ReadAndParse(ParseChunkSize, transport, buf, SIZE_LINE_LIMIT);
      starved := parsed.OutOfBlocks?;
      r := match parsed
        case Parsed(size) => Ok(size)
        case Eof => Err(ClosedWhileReadingChunkSize)
        case _ => Err(InvalidChunkSize);
    }

    /** What is left of the body. */
    ghost function Left(): Body
      requires buf.Sound()
      reads this, buf, buf.pool, buf.storage, transport
    {
      DecodeBody(state, Stream())
    }

    ghost predicate IsRegular()
      requires buf.Sound()
      reads this, buf, buf.pool, buf.storage, transport
    {
      Regular(state, Stream())
    }

    /** The size line of the next chunk, or the end of the body. */
    method StepHeader() returns (r: Option<Result<BodyChunk, BodyError>>, ghost starved: bool)
      requires Valid() && state == ReadingChunkHeader
      modifies this`state, this`hasBuf, transport, buf.Footprint()
      ensures Valid() && (buf.storage == old(buf.storage) || fresh(buf.storage) || buf.storage in buf.pool.memory)
      ensures old(transport.broken) ==> transport.broken
      ensures r.None? || r.value.Ok? ==> transport.broken == old(transport.broken) && !starved
      ensures r.None? ==> state.ReadingChunk? && state.remain > 0 && hasBuf == old(hasBuf) && |Stream()| < |old(Stream())|
      ensures r.Some? ==> hasBuf == r.value.Ok? && (r.value.Ok? ==> r.value == Ok(Finished) && state == BodyDone)
      ensures !transport.broken && !starved && old(IsRegular()) ==>
                if r.None? then Left() == old(Left()) && IsRegular() else NextOk(old(Left()), r.value, Left())
    {
      var size;
      size, starved := ReadLine();
      if size.Err? {
        hasBuf := false;
        return Some(Err(size.error)), starved;
      }
      if size.value == 0 {
        var end, starvedToo := StepEnd();
        return Some(end), starved || starvedToo;
      }
      state := ReadingChunk(size.value);
      r := None;
    }

    /** Reads a size line, seen from the body. */
    method ReadLine() returns (r: Result<nat, BodyError>, ghost starved: bool)
      requires Valid()
      modifies transport, buf.Footprint()
      ensures Valid() && (buf.storage == old(buf.storage) || fresh(buf.storage) || buf.storage in buf.pool.memory)
      ensures old(transport.broken) ==> transport.broken
      ensures r.Ok? ==> transport.broken == old(transport.broken) && !starved && |Stream()| < |old(Stream())|
      ensures !transport.broken && !starved && RegularChunks(old(Stream())) ==> LineStep(DecodeChunks(old(Stream())), r, Stream())
    {
      ghost var stream := Stream();
      r, starved := ReadSize();
      LineIsShorter(stream);
      if !transport.broken && !starved && RegularChunks(stream) {
        LineSteps(stream, r, Stream());
      }
    }

    /** The CRLF after the last size line. */
    method StepEnd() returns (r: Result<BodyChunk, BodyError>, ghost starved: bool)
      requires Valid()
      modifies this`state, this`hasBuf, transport, buf.Footprint()
      ensures Valid() && (buf.storage == old(buf.storage) || fresh(buf.storage) || buf.storage in buf.pool.memory)
      ensures old(transport.broken) ==> transport.broken
      ensures r.Ok? ==> transport.broken == old(transport.broken) && !starved
      ensures hasBuf == r.Ok? && (r.Ok? ==> r == Ok(Finished) && state == BodyDone)
      ensures !transport.broken && !starved ==> NextOk(AtLastCrlf(old(Stream())), r, Left())
    {
      var end;
      end, starved := ReadTerminator();
      if end.Err? {
        hasBuf := false;
        return Err(end.error), starved;
      }
      state, hasBuf := BodyDone, true;
      r := Ok(Finished);
    }

    /** The CRLF after a chunk. */
    method StepTerminator() returns (r: Option<BodyError>, ghost starved: bool)
      requires Valid() && state == ReadingChunk(0)
      modifies this`state, this`hasBuf, transport, buf.Footprint()
      ensures Valid() && (buf.storage == old(buf.storage) || fresh(buf.storage) || buf.storage in buf.pool.memory)
      ensures old(transport.broken) ==> transport.broken
      ensures r.None? ==> transport.broken == old(transport.broken) && !starved
      ensures hasBuf == r.None? && (r.None? ==> state == ReadingChunkHeader && |Stream()| < |old(Stream())|)
      ensures !transport.broken && !starved && old(IsRegular()) ==>
                if r.None? then Left() == old(Left()) && IsRegular() else old(Left()) == Body([], Broken(r.value))
    {
      var end;
      end, starved := ReadCrlf();
      if end.Err? {
        hasBuf := false;
        return Some(end.error), starved;
      }
      state, hasBuf := ReadingChunkHeader, true;
      r := None;
    }

    /** Reads that CRLF, seen from the body. */
    method ReadCrlf() returns (r: Result<(), BodyError>, ghost starved: bool)
      requires Valid()
      modifies transport, buf.Footprint()
      ensures Valid() && (buf.storage == old(buf.storage) || fresh(buf.storage) || buf.storage in buf.pool.memory)
      ensures old(transport.broken) ==> transport.broken
      ensures r.Ok? ==> transport.broken == old(transport.broken) && !starved && |Stream()| < |old(Stream())|
      ensures !transport.broken && !starved && Regular(ReadingChunk(0), old(Stream())) ==>
                CrlfStep(DecodeBody(ReadingChunk(0), old(Stream())), r, Stream())
    {
      ghost var stream := Stream();
      r, starved := ReadTerminator();
      if !transport.broken && !starved && Regular(ReadingChunk(0), stream) {
        CrlfSteps(stream, r, Stream());
      }
    }

    /** Makes sure something is buffered, if anything is to come. */
    method FillIfEmpty(limit: nat) returns (ok: bool, ghost starved: bool)
      requires Valid() && limit > 0
      modifies transport, buf.Footprint()
      ensures Valid() && (buf.storage == old(buf.storage) || fresh(buf.storage) || buf.storage in buf.pool.memory)
      ensures transport.broken == old(transport.broken) || (transport.broken && !ok)
      ensures !ok ==> transport.broken || starved
      ensures ok ==> !starved && Stream() == old(Stream()) && (buf.len == 0 ==> Stream() == [])
    {
      starved := false;
      if buf.len == 0 {
        ghost var shape := buf.ShapeOf();
        shape.RoomAfterReserve(0);
        var reserved := buf.Reserve();
        if reserved.Err? {
          return false, true;
        }
        var read := buf.ReadInto(limit, transport);
        if read.Err? {
          return false, false;
        }
      }
      ok := true;
    }

    /** Bytes of the current chunk: what is buffered, or one read. */
    method StepData() returns (r: Result<BodyChunk, BodyError>, ghost starved: bool)
      requires Valid() && state.ReadingChunk? && state.remain > 0
      modifies this`state, this`hasBuf, transport, buf.Footprint()
      ensures Valid() && (buf.storage == old(buf.storage) || fresh(buf.storage) || buf.storage in buf.pool.memory)
      ensures old(transport.broken) ==> transport.broken
      ensures r.Ok? ==> transport.broken == old(transport.broken) && !starved
      ensures hasBuf == r.Ok? && (r.Ok? ==> r.value.Chunk?)
      ensures !transport.broken && !starved ==> NextOk(old(Left()), r, Left()) && (r.Ok? && old(IsRegular()) ==> IsRegular())
    {
      ghost var stream := Stream();
      var remain, ok := state.remain, false;
      ok, starved := FillIfEmpty(remain);
      if !ok {
        hasBuf := false;
        return Err(ErrorWhileReadingChunkData), starved;
      }
      assert Stream() == stream;
      r := TakeChunk();
    }

    /** What is buffered of the current chunk. */
    method TakeChunk() returns (r: Result<BodyChunk, BodyError>)
      requires Valid() && state.ReadingChunk? && state.remain > 0 && (buf.len == 0 ==> Stream() == [])
      modifies this`state, this`hasBuf, buf
      ensures Valid() && buf.storage == old(buf.storage) && hasBuf == r.Ok? && (r.Ok? ==> r.value.Chunk?)
      ensures NextOk(old(Left()), r, Left()) && (r.Ok? && old(IsRegular()) ==> IsRegular())
    {
      ghost var stream := Stream();
      var remain := state.remain;
      var chunk := TakeBytes(remain);
      if chunk == [] {
        NoData(remain);
        hasBuf := false;
        return Err(ClosedWhileReadingChunkData);
      }
      DataTaken(remain, stream, chunk, Stream());
      state, hasBuf := ReadingChunk(remain - |chunk|), true;
      r := Ok(Chunk(chunk));
    }

    method TakeBytes(limit: nat) returns (chunk: Bytes)
      requires Valid() && limit > 0
      modifies buf
      ensures Valid() && buf.storage == old(buf.storage) && |chunk| <= limit && (chunk == [] <==> old(buf.len) == 0)
      ensures old(Stream()) == chunk + Stream()
    {
      var roll := buf.TakeAtMost(limit);
      chunk := if roll.None? then [] else roll.value.storage[roll.value.off..roll.value.off + roll.value.len];
      Reassociate(chunk, buf.Contents(), transport.unread);
    }

    /** `next_chunk`. While no read fails and the pool has blocks, on every regular stream it
        gives the next bytes of the body, or its end with exactly the bytes after it still
        there, or its error: a function of the bytes but for the size of the portions. */
    method NextChunk() returns (r: Result<BodyChunk, BodyError>, ghost starved: bool)
      requires Valid()
      modifies this`state, this`hasBuf, transport, buf.Footprint()
      ensures Valid() && (buf.storage == old(buf.storage) || fresh(buf.storage) || buf.storage in buf.pool.memory)
      ensures old(transport.broken) ==> transport.broken
      ensures r.Ok? ==> transport.broken == old(transport.broken) && !starved
      ensures !old(hasBuf) ==> r == Err(CalledNextChunkAfterError) && !hasBuf
      ensures old(hasBuf) ==> hasBuf == r.Ok?
      ensures r == Ok(Finished) ==> state == BodyDone
      ensures old(hasBuf) && old(IsRegular()) && !transport.broken && !starved ==>
                NextOk(old(Left()), r, Left()) && (r.Ok? ==> IsRegular())
    {
      starved := false;
      if !hasBuf {
        return Err(CalledNextChunkAfterError), starved;
      }
      while true
        invariant Valid() && hasBuf && (buf.storage == old(buf.storage) || fresh(buf.storage) || buf.storage in buf.pool.memory)
        invariant transport.broken == old(transport.broken) && !starved
        invariant !transport.broken && old(IsRegular()) ==> Left() == old(Left()) && IsRegular()
        decreases |Stream()|
      {
        var stop, starvedNow := StepOnce();
        starved := starvedNow;
        if stop.Some? {
          return stop.value, starved;
        }
      }
    }

    /** `H1Body::next_chunk` answers for an empty slot itself: a call after an error gives the
        clean end of a body, whatever the error was. Otherwise it is the decoder's answer. */
    method Next() returns (r: Result<BodyChunk, BodyError>, ghost starved: bool)
      requires Valid()
      modifies this`state, this`hasBuf, transport, buf.Footprint()
      ensures Valid() && (old(hasBuf) ==> hasBuf == r.Ok?)
      ensures buf.storage == old(buf.storage) || fresh(buf.storage) || buf.storage in buf.pool.memory
      ensures !old(hasBuf) ==> r == Ok(Finished) && !hasBuf && state == old(state) && Stream() == old(Stream())
      ensures old(hasBuf) && old(IsRegular()) && !transport.broken && !starved ==>
                NextOk(old(Left()), r, Left()) && (r.Ok? ==> IsRegular())
    {
      if !hasBuf {
        return Ok(Finished), false;
      }
      r, starved := NextChunk();
    }

    /** One turn of that loop: something to return, or on to the next chunk. */
    method StepOnce() returns (r: Option<Result<BodyChunk, BodyError>>, ghost starved: bool)
      requires Valid() && hasBuf
      modifies this`state, this`hasBuf, transport, buf.Footprint()
      ensures Valid() && (buf.storage == old(buf.storage) || fresh(buf.storage) || buf.storage in buf.pool.memory)
      ensures old(transport.broken) ==> transport.broken
      ensures r.None? || r.value.Ok? ==> transport.broken == old(transport.broken) && !starved
      ensures r.None? ==> hasBuf && |Stream()| < |old(Stream())|
      ensures r.Some? ==> hasBuf == r.value.Ok? && (r.value == Ok(Finished) ==> state == BodyDone)
      ensures !transport.broken && !starved && old(IsRegular()) ==>
                if r.None? then Left() == old(Left()) && IsRegular()
                else NextOk(old(Left()), r.value, Left()) && (r.value.Ok? ==> IsRegular())
    {
      starved := false;
      if state == BodyDone {
        return Some(Ok(Finished)), starved;
      }
      if state == ReadingChunkHeader {
        r, starved := StepHeader();
        if r.Some? {
          return;
        }
      }
      ghost var starvedToo;
      if state.remain == 0 {
        var end;
        end, starvedToo := StepTerminator();
        r := if end.None? then None else Some(Err(end.value));
      } else {
        var data;
        data, starvedToo := StepData();
        r := Some(data);
      }
      starved := starved || starvedToo;
    }
  }

  /** Reads a body to its end: for every regular stream and every split into what is buffered
      and reads, the bytes before the end or the error come out, and at the end buffer plus
      unread bytes are exactly what follows the body. */
  method ReadRest(body: ChunkedBody) returns (bytes: Bytes, error: Option<BodyError>, ghost starved: bool)
    requires body.Valid() && body.hasBuf && body.IsRegular() && !body.transport.broken
    modifies body, body.transport, body.buf.Footprint()
    ensures body.Valid()
    ensures !body.transport.broken && !starved ==>
              old(body.Left()) == Body(bytes, if error.None? then Complete(body.Stream()) else Broken(error.value))
  {
    bytes, starved := [], false;
    ghost var all := body.Left();
    assert InFront([], all) == all;
    while true
      invariant body.Valid() && body.hasBuf && !body.transport.broken && body.IsRegular() && !starved
      invariant body.buf.storage == old(body.buf.storage) || fresh(body.buf.storage) || body.buf.storage in body.buf.pool.memory
      invariant all == InFront(bytes, body.Left())
      decreases |body.Left().bytes|
    {
      ghost var left := body.Left();
      var next;
      next, starved := body.NextChunk();
      match next
      case Err(e) =>
        assert bytes + [] == bytes;
        return bytes, Some(e), starved;
      case Ok(Finished) =>
        assert bytes + [] == bytes;
        return bytes, None, starved;
      case Ok(Chunk(chunk)) =>
        Reassociate(bytes, chunk, body.Left().bytes);
        bytes := bytes + chunk;
    }
  }

  /** What was written is read back: for every list of non-empty chunks, every bytes after
      them and every split, the chunks' bytes come out and exactly what follows is left. */
  method ReadBody(body: ChunkedBody, ghost chunks: seq<Bytes>, ghost more: Bytes)
    returns (bytes: Bytes, error: Option<BodyError>, ghost starved: bool)
    requires Writable(chunks) && NoneEmpty(chunks)
    requires body.Valid() && body.state == ReadingChunkHeader && body.hasBuf && body.Stream() == BodyBytes(chunks) + more
    requires !body.transport.broken
    modifies body, body.transport, body.buf.Footprint()
    ensures body.Valid()
    ensures !body.transport.broken && !starved ==> error.None? && bytes == Flatten(chunks) && body.Stream() == more
  {
    ChunkedRoundTrip(chunks, more);
    CompleteIsRegular(body.Stream());
    bytes, error, starved := ReadRest(body);
  }

  /** So an error is seen once: the call that gives it is followed by one that gives an end. */
  method ErrorThenEnd(body: ChunkedBody) returns (first: Result<BodyChunk, BodyError>, second: Result<BodyChunk, BodyError>)
    requires body.Valid() && body.hasBuf
    modifies body, body.transport, body.buf.Footprint()
    ensures first.Err? ==> second == Ok(Finished)
  {
    ghost var starved;
    first, starved := body.Next();
    second := first;
    if first.Err? {
      second, starved := body.Next();
    }
  }
}
