/** Chunked bodies as any sender may write them (section 7.1 of RFC 9112): sizes in digits of
    either case, with leading zeros, and bodies that break off. */
module H1Senders {
  import opened Common
  import opened Frames
  import opened H1Chunked

  // ---- Sizes ----

  /** A hexadecimal digit as it is written. */
  datatype Digit = Digit(value: nat, upper: bool) {
    predicate Valid() {
      value < 16
    }

    function Octet(): Byte
      requires Valid()
    {
      if upper then [48, 49, 50, 51, 52, 53, 54, 55, 56, 57, 65, 66, 67, 68, 69, 70][value]
      else [48, 49, 50, 51, 52, 53, 54, 55, 56, 57, 97, 98, 99, 100, 101, 102][value]
    }
  }

  predicate AllValid(digits: seq<Digit>) {
    forall i :: 0 <= i < |digits| ==> digits[i].Valid()
  }

  function Text(digits: seq<Digit>): (text: Bytes)
    requires AllValid(digits)
    ensures |text| == |digits|
    decreases |digits|
  {
    if digits == [] then [] else Text(digits[..|digits| - 1]) + [digits[|digits| - 1].Octet()]
  }

  function Number(digits: seq<Digit>): nat
    decreases |digits|
  {
    if digits == [] then 0 else 16 * Number(digits[..|digits| - 1]) + digits[|digits| - 1].value
  }

  /** A size that a size line of at most sixteen octets can hold. */
  predicate IsSize(digits: seq<Digit>) {
    AllValid(digits) && 1 <= |digits| <= 14
  }

  lemma OctetIsDigit(d: Digit)
    requires d.Valid()
    ensures IsHexDigit(d.Octet()) && DigitValue(d.Octet()) == d.value
  {
  }

  lemma {:induction false} TextIsHex(digits: seq<Digit>)
    requires AllValid(digits)
    ensures AllHex(Text(digits)) && HexValue(Text(digits)) == Number(digits) && Number(digits) < Pow16(|digits|)
    decreases |digits|
  {
    if digits != [] {
      var front, last := digits[..|digits| - 1], digits[|digits| - 1];
      TextIsHex(front);
      OctetIsDigit(last);
      assert Text(digits)[..|digits| - 1] == Text(front);
    }
  }

  lemma {:induction false} Pow16Grows(k: nat, n: nat)
    requires k <= n
    ensures Pow16(k) <= Pow16(n)
    decreases n
  {
    if k < n {
      Pow16Grows(k, n - 1);
    }
  }

  lemma TextParses(digits: seq<Digit>, stream: Bytes)
    requires IsSize(digits) && Text(digits) + CrLf() <= stream
    ensures ParseChunkSize(stream) == Done(Number(digits), stream[|digits| + 2..])
  {
    TextIsHex(digits);
    Pow16Grows(|digits|, 14);
    Pow16Of14();
    LineParses(Text(digits), stream);
  }

  /** Every such size line is read as its number. */
  lemma SizeIsRead(digits: seq<Digit>, more: Bytes)
    requires IsSize(digits)
    ensures var stream := Text(digits) + CrLf() + more;
            SizeLine(stream).Done? && ParseChunkSize(stream) == Done(Number(digits), more)
  {
    var stream := Text(digits) + CrLf() + more;
    TextParses(digits, stream);
    assert stream[|digits| + 2..] == more;
    TextParses(digits, FirstOf(stream, SIZE_LINE_LIMIT));
  }

  /** The digits that were written. */
  function DigitsOf(text: Bytes): (digits: seq<Digit>)
    requires AllHex(text)
    ensures AllValid(digits) && |digits| == |text|
    decreases |text|
  {
    if text == [] then []
    else DigitsOf(text[..|text| - 1]) + [Digit(DigitValue(text[|text| - 1]), 65 <= text[|text| - 1] <= 70)]
  }

  lemma OctetOfDigit(b: Byte)
    requires IsHexDigit(b)
    ensures var d := Digit(DigitValue(b), 65 <= b <= 70); d.Valid() && d.Octet() == b
  {
  }

  lemma {:induction false} DigitsAreText(text: Bytes)
    requires AllHex(text)
    ensures Text(DigitsOf(text)) == text
    decreases |text|
  {
    if text != [] {
      var digits, last := DigitsOf(text), text[|text| - 1];
      DigitsAreText(text[..|text| - 1]);
      assert digits[..|digits| - 1] == DigitsOf(text[..|text| - 1]);
      OctetOfDigit(last);
    }
  }

  /** The stream starts with a size line. */
  ghost predicate HasSize(stream: Bytes) {
    exists digits: seq<Digit> :: IsSize(digits) && Text(digits) + CrLf() <= stream
  }

  lemma ThereIsSize(stream: Bytes)
    requires SizeLine(stream).Done?
    ensures HasSize(stream)
  {
    var first := FirstOf(stream, SIZE_LINE_LIMIT);
    var n := HexRun(first);
    CrlfAt(first, n);
    DigitsAreText(first[..n]);
    assert first[..n] + CrLf() == first[..n + 2];
    assert first[..n + 2] == stream[..n + 2];
    assert IsSize(DigitsOf(first[..n]));
  }

  lemma CrlfAt(buf: Bytes, n: nat)
    requires ParseChunkSize(buf).Done? && n == HexRun(buf)
    ensures 0 < n && n + 2 <= |buf| && buf[n] == CR && buf[n + 1] == LF
  {
  }

  /** A size line is found exactly where there is one. */
  lemma SizeFoundIff(stream: Bytes)
    ensures SizeLine(stream).Done? <==> HasSize(stream)
  {
    if SizeLine(stream).Done? {
      ThereIsSize(stream);
    } else if HasSize(stream) {
      var digits: seq<Digit> :| IsSize(digits) && Text(digits) + CrLf() <= stream;
      TextParses(digits, FirstOf(stream, SIZE_LINE_LIMIT));
    }
  }

  // ---- Bodies ----

  datatype SentChunk = SentChunk(size: seq<Digit>, data: Bytes) {
    predicate Legal() {
      IsSize(size) && data != [] && Number(size) == |data|
    }

    function Octets(): Bytes
      requires Legal()
    {
      Text(size) + CrLf() + data + CrLf()
    }
  }

  predicate AllLegal(chunks: seq<SentChunk>) {
    forall i :: 0 <= i < |chunks| ==> chunks[i].Legal()
  }

  function Octets(chunks: seq<SentChunk>): Bytes
    requires AllLegal(chunks)
    decreases |chunks|
  {
    if chunks == [] then [] else chunks[0].Octets() + Octets(chunks[1..])
  }

  function Data(chunks: seq<SentChunk>): Bytes
    decreases |chunks|
  {
    if chunks == [] then [] else chunks[0].data + Data(chunks[1..])
  }

  lemma AtChunk(chunk: SentChunk, after: Bytes)
    requires chunk.Legal()
    ensures DecodeChunks(Text(chunk.size) + CrLf() + after) == DecodeBody(ReadingChunk(|chunk.data|), after)
  {
    SizeIsRead(chunk.size, after);
    AtLine(Text(chunk.size) + CrLf() + after);
  }

  /** A chunk that a sender wrote is its data in front of what follows. */
  lemma ChunkIsRead(chunk: SentChunk, more: Bytes)
    requires chunk.Legal()
    ensures DecodeChunks(chunk.Octets() + more) == InFront(chunk.data, DecodeChunks(more))
  {
    ChunkParts(Text(chunk.size), chunk.data, more);
    AtChunk(chunk, chunk.data + (CrLf() + more));
    ChunkData(chunk.data, more);
  }

  lemma {:induction false} ChunksAreRead(chunks: seq<SentChunk>, more: Bytes)
    requires AllLegal(chunks)
    ensures DecodeChunks(Octets(chunks) + more) == InFront(Data(chunks), DecodeChunks(more))
    decreases |chunks|
  {
    var body := DecodeChunks(more);
    if chunks == [] {
      assert Octets(chunks) + more == more && [] + body.bytes == body.bytes;
    } else {
      Reassociate(chunks[0].Octets(), Octets(chunks[1..]), more);
      ChunkIsRead(chunks[0], Octets(chunks[1..]) + more);
      ChunksAreRead(chunks[1..], more);
      Reassociate(chunks[0].data, Data(chunks[1..]), body.bytes);
    }
  }

  /** Every body that a sender may write, ended by any zero and an empty line, is read as its
      data, and leaves what follows. */
  lemma BodyIsRead(chunks: seq<SentChunk>, zero: seq<Digit>, more: Bytes)
    requires AllLegal(chunks) && IsSize(zero) && Number(zero) == 0
    ensures DecodeChunks(Octets(chunks) + (Text(zero) + CrLf() + (CrLf() + more))) == Body(Data(chunks), Complete(more))
  {
    var end := CrLf() + more;
    SizeIsRead(zero, end);
    AtLine(Text(zero) + CrLf() + end);
    assert end[2..] == more;
    ChunksAreRead(chunks, Text(zero) + CrLf() + end);
    assert Data(chunks) + [] == Data(chunks);
  }

  // ---- Bodies that break off ----

  /** After whole chunks, the end of the stream or anything but a size line. */
  lemma NoSizeAfter(chunks: seq<SentChunk>, rest: Bytes)
    requires AllLegal(chunks) && !HasSize(rest)
    ensures DecodeChunks(Octets(chunks) + rest) ==
            Body(Data(chunks), Broken(if rest == [] then ClosedWhileReadingChunkSize else InvalidChunkSize))
  {
    SizeFoundIff(rest);
    NoLine(rest);
    ChunksAreRead(chunks, rest);
    assert Data(chunks) + [] == Data(chunks);
  }

  /** A stream that ends within the data of a chunk. */
  lemma DataCutShort(chunks: seq<SentChunk>, chunk: SentChunk, k: nat)
    requires AllLegal(chunks) && chunk.Legal() && k < |chunk.data|
    ensures DecodeChunks(Octets(chunks) + (Text(chunk.size) + CrLf() + chunk.data[..k])) ==
            Body(Data(chunks) + chunk.data[..k], Broken(ClosedWhileReadingChunkData))
  {
    ChunksAreRead(chunks, Text(chunk.size) + CrLf() + chunk.data[..k]);
    AtChunk(chunk, chunk.data[..k]);
  }

  /** A chunk that no CRLF ends. */
  lemma NoCrlfAfterData(chunks: seq<SentChunk>, chunk: SentChunk, rest: Bytes)
    requires AllLegal(chunks) && chunk.Legal() && !(CrLf() <= rest)
    ensures DecodeChunks(Octets(chunks) + (Text(chunk.size) + CrLf() + (chunk.data + rest))) ==
            Body(Data(chunks) + chunk.data,
                 Broken(if rest == [] then ClosedWhileReadingChunkTerminator else InvalidChunkTerminator))
  {
    var stream := chunk.data + rest;
    ChunksAreRead(chunks, Text(chunk.size) + CrLf() + stream);
    AtChunk(chunk, stream);
    assert stream[..|chunk.data|] == chunk.data && stream[|chunk.data|..] == rest;
    assert chunk.data + [] == chunk.data;
  }

  /** A last chunk that no empty line follows. */
  lemma NoCrlfAtEnd(chunks: seq<SentChunk>, zero: seq<Digit>, rest: Bytes)
    requires AllLegal(chunks) && IsSize(zero) && Number(zero) == 0 && !(CrLf() <= rest)
    ensures DecodeChunks(Octets(chunks) + (Text(zero) + CrLf() + rest)) ==
            Body(Data(chunks), Broken(if rest == [] then ClosedWhileReadingChunkTerminator else InvalidChunkTerminator))
  {
    SizeIsRead(zero, rest);
    AtLine(Text(zero) + CrLf() + rest);
    ChunksAreRead(chunks, Text(zero) + CrLf() + rest);
    assert Data(chunks) + [] == Data(chunks);
  }
}
