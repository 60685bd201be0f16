/** HPACK header blocks: what the encoder writes, what the decoder reads, and
    that the two stay in step over a whole session. */
module HpackCodec {
  import opened Common
  import opened HpackInteger
  import opened HpackTable
  import Huffman

  datatype DecoderError =
    | HeaderIndexOutOfBounds
    | IntegerDecoding(integer: IntegerError)
    | StringNotEnoughOctets
    | HuffmanDecoding(huffman: Huffman.HuffmanError)
    | InvalidMaxDynamicSize
    | SizeUpdateAtEnd

  /** Octets read, and how many octets of the buffer they took. */
  datatype Text = Text(octets: Bytes, used: nat)

  datatype Literal = Literal(header: Header, used: nat)

  datatype Update = Update(next: DecoderState, used: nat)

  /** The Huffman decoder that `decode_string` calls. */
  type HuffmanFunction = Bytes -> Huffman.HuffmanResult

  // ---- Strings (section 5.2 of RFC 7541) ----

  /** `encode_string_literal`: never Huffman. */
  function EncodeString(s: Bytes): Bytes {
    EncodeInteger(|s|, 7, 0) + s
  }

  /** `decode_string`: the octets and how many octets they took. */
  function DecodeString(huffman: HuffmanFunction, buf: Bytes): (r: Result<Text, DecoderError>)
    ensures r.Ok? ==> 1 <= r.value.used <= |buf|
  {
    match DecodeInteger(buf, 7)
    case Err(e) => Err(IntegerDecoding(e))
    case Ok(Integer(len, consumed)) =>
      DecodedIntegerBound(buf, 7);
      if consumed + len > |buf| then Err(StringNotEnoughOctets)
      else
        var raw := buf[consumed..consumed + len];
        if buf[0] < 128 then Ok(Text(raw, consumed + len))
        else match huffman(raw)
          case Err(e) => Err(HuffmanDecoding(e))
          case Ok(s) => Ok(Text(s, consumed + len))
  }

  /** A string comes back whatever follows it, exactly when it is shorter than
      127 + 2^28; a longer one is refused. */
  lemma StringRoundTrip(huffman: HuffmanFunction, s: Bytes, suffix: Bytes)
    ensures DecodeString(huffman, EncodeString(s) + suffix) ==
            if |s| < 127 + 0x1000_0000 then Ok(Text(s, |EncodeString(s)|))
            else Err(IntegerDecoding(TooManyOctets))
  {
    var prefix := EncodeInteger(|s|, 7, 0);
    var all := EncodeString(s) + suffix;
    assert all == prefix + (s + suffix);
    IntegerRoundTrip(|s|, 7, 0, s + suffix);
    assert all[|prefix|..|prefix| + |s|] == s;
  }

  // ---- Header fields (section 6 of RFC 7541) ----

  /** `encode_header_into`: the octets and the table after it. */
  function EncodeHeader(ht: HeaderTable, h: Header): (Bytes, HeaderTable) {
    match Find(ht.All(), h)
    case None => ([0x40] + EncodeString(h.name) + EncodeString(h.value), ht.Add(h))
    case Some((index, exact)) =>
      if exact then (EncodeInteger(index, 7, 0x80), ht)
      else (EncodeInteger(index, 4, 0) + EncodeString(h.value), ht)
  }

  datatype FieldRepresentation =
    | Indexed
    | LiteralWithIncrementalIndexing
    | SizeUpdate
    | LiteralNeverIndexed
    | LiteralWithoutIndexing

  /** The topmost set bit among the four tells the representation. */
  function Representation(octet: Byte): FieldRepresentation {
    if octet >= 128 then Indexed
    else if octet >= 64 then LiteralWithIncrementalIndexing
    else if octet >= 32 then SizeUpdate
    else if octet >= 16 then LiteralNeverIndexed
    else LiteralWithoutIndexing
  }

  datatype DecoderState = DecoderState(table: HeaderTable, maxAllowed: Option<nat>, huffman: HuffmanFunction)

  function DecodeIndexed(ht: HeaderTable, buf: Bytes): (r: Result<Literal, DecoderError>)
    ensures r.Ok? ==> 1 <= r.value.used <= |buf|
  {
    match DecodeInteger(buf, 7)
    case Err(e) => Err(IntegerDecoding(e))
    case Ok(Integer(index, consumed)) =>
      DecodedIntegerBound(buf, 7);
      match ht.Get(index)
      case None => Err(HeaderIndexOutOfBounds)
      case Some(h) => Ok(Literal(h, consumed))
  }

  function DecodeLiteralName(d: DecoderState, buf: Bytes, index: bool): (r: Result<Text, DecoderError>)
    ensures r.Ok? ==> 1 <= r.value.used <= |buf|
  {
    match DecodeInteger(buf, if index then 6 else 4)
    case Err(e) => Err(IntegerDecoding(e))
    case Ok(Integer(tableIndex, consumed)) =>
      DecodedIntegerBound(buf, if index then 6 else 4);
      if tableIndex == 0 then
        match DecodeString(d.huffman, buf[consumed..])
        case Err(e) => Err(e)
        case Ok(Text(name, nameLen)) => Ok(Text(name, consumed + nameLen))
      else
        match d.table.Get(tableIndex)
        case None => Err(HeaderIndexOutOfBounds)
        case Some(h) => Ok(Text(h.name, consumed))
  }

  /** `decode_literal`. */
  function DecodeLiteral(d: DecoderState, buf: Bytes, index: bool): (r: Result<Literal, DecoderError>)
    ensures r.Ok? ==> 1 <= r.value.used <= |buf|
  {
    match DecodeLiteralName(d, buf, index)
    case Err(e) => Err(e)
    case Ok(name) => NameAndValue(name, DecodeString(d.huffman, buf[name.used..]))
  }

  function NameAndValue(name: Text, value: Result<Text, DecoderError>): Result<Literal, DecoderError> {
    match value
    case Err(e) => Err(e)
    case Ok(text) => Ok(Literal(Header(name.octets, text.octets), name.used + text.used))
  }

  /** `update_max_dynamic_size`. */
  function DecodeSizeUpdate(d: DecoderState, buf: Bytes): (r: Result<Update, DecoderError>)
    ensures r.Ok? ==> 1 <= r.value.used <= |buf|
  {
    match DecodeInteger(buf, 5)
    case Err(e) => Err(IntegerDecoding(e))
    case Ok(Integer(newSize, consumed)) =>
      DecodedIntegerBound(buf, 5);
      if d.maxAllowed.Some? && newSize > d.maxAllowed.value then Err(InvalidMaxDynamicSize)
      else Ok(Update(d.(table := d.table.Resize(newSize)), consumed))
  }

  /** One turn of the loop of `decode_with_cb`: the header handed to the
      callback, if any, the decoder after it, and the octets used. */
  datatype Field = Field(emitted: Option<Header>, next: DecoderState, consumed: nat)

  function DecodeField(d: DecoderState, buf: Bytes): (r: Result<Field, DecoderError>)
    requires buf != []
    ensures r.Ok? ==> 1 <= r.value.consumed <= |buf|
  {
    match Representation(buf[0])
    case Indexed =>
      (match DecodeIndexed(d.table, buf)
       case Err(e) => Err(e)
       case Ok(Literal(h, consumed)) => Ok(Field(Some(h), d, consumed)))
    case LiteralWithIncrementalIndexing =>
      (match DecodeLiteral(d, buf, true)
       case Err(e) => Err(e)
       case Ok(Literal(h, consumed)) => Ok(Field(Some(h), d.(table := d.table.Add(h)), consumed)))
    case SizeUpdate =>
      (match DecodeSizeUpdate(d, buf)
       case Err(e) => Err(e)
       case Ok(Update(d', consumed)) => Ok(Field(None, d', consumed)))
    case LiteralNeverIndexed =>
      (match DecodeLiteral(d, buf, false)
       case Err(e) => Err(e)
       case Ok(Literal(h, consumed)) => Ok(Field(Some(h), d, consumed)))
    case LiteralWithoutIndexing =>
      (match DecodeLiteral(d, buf, false)
       case Err(e) => Err(e)
       case Ok(Literal(h, consumed)) => Ok(Field(Some(h), d, consumed)))
  }

  // ---- Header blocks ----

  /** What a block leaves behind, also when it fails half way: the headers handed
      out, the decoder, and the error if any. */
  datatype Decoded = Decoded(headers: seq<Header>, next: DecoderState, error: Option<DecoderError>) {
    /** The same with `earlier` handed out before. */
    function After(earlier: seq<Header>): Decoded {
      this.(headers := earlier + headers)
    }

    lemma AfterTwice(earlier: seq<Header>, later: seq<Header>)
      ensures After(later).After(earlier) == After(earlier + later)
      ensures After([]) == this
    {
      assert earlier + (later + headers) == earlier + later + headers;
      assert [] + headers == headers;
    }
  }

  function DecodeFrom(d: DecoderState, buf: Bytes, lastWasSizeUpdate: bool): Decoded
    decreases |buf|
  {
    if buf == [] then Decoded([], d, if lastWasSizeUpdate then Some(SizeUpdateAtEnd) else None)
    else match DecodeField(d, buf)
      case Err(e) => Decoded([], d, Some(e))
      case Ok(Field(emitted, next, consumed)) =>
        DecodeFrom(next, buf[consumed..], Representation(buf[0]).SizeUpdate?).After(
          if emitted.Some? then [emitted.value] else [])
  }

  function DecodeBlock(d: DecoderState, buf: Bytes): Decoded {
    DecodeFrom(d, buf, false)
  }

  function EncodeBlock(ht: HeaderTable, headers: seq<Header>): (Bytes, HeaderTable)
    decreases |headers|
  {
    if headers == [] then ([], ht)
    else
      var (first, ht') := EncodeHeader(ht, headers[0]);
      var (rest, ht'') := EncodeBlock(ht', headers[1..]);
      (first + rest, ht'')
  }

  // ---- The round trip ----

  /** Strings that fit the decoder's integer limit. */
  predicate HeaderFits(h: Header) {
    |h.name| < 127 + 0x1000_0000 && |h.value| < 127 + 0x1000_0000
  }

  predicate HeadersFit(headers: seq<Header>) {
    forall i :: 0 <= i < |headers| ==> HeaderFits(headers[i])
  }

  /** The largest index the table can have stays decodable with a 4-bit prefix. */
  ghost predicate Addressable(ht: HeaderTable) {
    ht.Valid() && |ht.statics| + ht.maxSize / 32 < 15 + 0x1000_0000
  }

  /** The encoder's table is a newest-first prefix of the decoder's, as when the
      encoder alone was told a smaller size. Equal tables are the usual case. */
  ghost predicate Follows(encoder: HeaderTable, decoder: HeaderTable) {
    && encoder.statics == decoder.statics && encoder.dynamic <= decoder.dynamic
    && encoder.maxSize <= decoder.maxSize
    && Addressable(encoder) && Addressable(decoder)
  }

  lemma IndexBound(ht: HeaderTable)
    requires Addressable(ht)
    ensures |ht.All()| < 15 + 0x1000_0000
  {
    EntryCount(ht.dynamic);
  }

  lemma SharedEntries(encoder: HeaderTable, decoder: HeaderTable, index: nat)
    requires Follows(encoder, decoder) && 1 <= index <= |encoder.All()|
    ensures decoder.Get(index) == Some(encoder.All()[index - 1])
  {
    decoder.GetIsIndexing(index);
  }

  lemma AddKeepsFollowing(encoder: HeaderTable, decoder: HeaderTable, h: Header)
    requires Follows(encoder, decoder)
    ensures Follows(encoder.Add(h), decoder.Add(h))
  {
    encoder.StaysValid(h, 0);
    decoder.StaysValid(h, 0);
    PushThenEvict(encoder.dynamic, h, encoder.maxSize);
    PushThenEvict(decoder.dynamic, h, decoder.maxSize);
    FitOfPrefix([h] + encoder.dynamic, [h] + decoder.dynamic, encoder.maxSize, decoder.maxSize);
  }

  lemma LiteralOf(d: DecoderState, buf: Bytes, index: bool, name: Text, rest: Bytes)
    requires DecodeLiteralName(d, buf, index) == Ok(name) && buf[name.used..] == rest
    ensures DecodeLiteral(d, buf, index) == NameAndValue(name, DecodeString(d.huffman, rest))
  {
  }

  lemma ThreeParts(a: Bytes, b: Bytes, c: Bytes)
    ensures a + b + c == a + (b + c) && (a + b + c)[|a|..] == b + c && |a + b| == |a| + |b|
  {
  }

  /** A literal whose name part is `prefix` comes back once its name does. */
  lemma ValueRoundTrip(d: DecoderState, prefix: Bytes, h: Header, suffix: Bytes, index: bool)
    requires HeaderFits(h)
    requires DecodeLiteralName(d, prefix + (EncodeString(h.value) + suffix), index) == Ok(Text(h.name, |prefix|))
    ensures var encoded := prefix + EncodeString(h.value);
            DecodeLiteral(d, encoded + suffix, index) == Ok(Literal(h, |encoded|))
  {
    StringRoundTrip(d.huffman, h.value, suffix);
    ValueComesBack(d, prefix, EncodeString(h.value), h, suffix, index);
  }

  lemma ValueComesBack(d: DecoderState, prefix: Bytes, value: Bytes, h: Header, suffix: Bytes, index: bool)
    requires DecodeLiteralName(d, prefix + (value + suffix), index) == Ok(Text(h.name, |prefix|))
    requires DecodeString(d.huffman, value + suffix) == Ok(Text(h.value, |value|))
    ensures DecodeLiteral(d, prefix + value + suffix, index) == Ok(Literal(h, |prefix + value|))
  {
    ThreeParts(prefix, value, suffix);
    LiteralOf(d, prefix + value + suffix, index, Text(h.name, |prefix|), value + suffix);
  }

  lemma LiteralNameRoundTrip(d: DecoderState, name: Bytes, rest: Bytes)
    requires |name| < 127 + 0x1000_0000
    ensures var prefix := [0x40] + EncodeString(name);
            DecodeLiteralName(d, prefix + rest, true) == Ok(Text(name, |prefix|))
  {
    var all := [0x40] + EncodeString(name) + rest;
    assert DecodeInteger(all, 6) == Ok(Integer(0, 1));
    assert all[1..] == EncodeString(name) + rest;
    StringRoundTrip(d.huffman, name, rest);
  }

  lemma IndexedNameRoundTrip(ht: HeaderTable, d: DecoderState, index: nat, rest: Bytes)
    requires Follows(ht, d.table) && 1 <= index <= |ht.All()|
    ensures var prefix := EncodeInteger(index, 4, 0);
            && DecodeLiteralName(d, prefix + rest, false) == Ok(Text(ht.All()[index - 1].name, |prefix|))
            && prefix != [] && prefix[0] < 16
  {
    IndexBound(ht);
    SharedEntries(ht, d.table, index);
    IntegerRoundTrip(index, 4, 0, rest);
  }

  lemma IndexedRoundTrip(ht: HeaderTable, d: DecoderState, index: nat, suffix: Bytes)
    requires Follows(ht, d.table) && 1 <= index <= |ht.All()|
    ensures var encoded := EncodeInteger(index, 7, 0x80);
            && DecodeIndexed(d.table, encoded + suffix) == Ok(Literal(ht.All()[index - 1], |encoded|))
            && (encoded + suffix)[0] >= 128
  {
    IndexBound(ht);
    SharedEntries(ht, d.table, index);
    IntegerRoundTrip(index, 7, 0x80, suffix);
  }

  /** The decoder's table after a header: it grows when the encoder's does. */
  function Mirror(ht: HeaderTable, decoder: HeaderTable, h: Header): HeaderTable {
    if Find(ht.All(), h).None? then decoder.Add(h) else decoder
  }

  /** What one header promises: a decoder whose table the encoder's follows hands out
      that header, uses exactly its octets, and its table is still followed. */
  ghost predicate FieldComesBack(ht: HeaderTable, d: DecoderState, h: Header, encoded: Bytes, ht': HeaderTable, suffix: Bytes) {
    && encoded != [] && Follows(ht', Mirror(ht, d.table, h))
    && ht'.maxSize == ht.maxSize && Mirror(ht, d.table, h).maxSize == d.table.maxSize
    && DecodeField(d, encoded + suffix) == Ok(Field(Some(h), d.(table := Mirror(ht, d.table, h)), |encoded|))
    && !Representation((encoded + suffix)[0]).SizeUpdate?
  }

  lemma NewFieldRoundTrip(ht: HeaderTable, d: DecoderState, h: Header, suffix: Bytes)
    requires Follows(ht, d.table) && HeaderFits(h) && Find(ht.All(), h).None?
    ensures FieldComesBack(ht, d, h, [0x40] + EncodeString(h.name) + EncodeString(h.value), ht.Add(h), suffix)
  {
    LiteralNameRoundTrip(d, h.name, EncodeString(h.value) + suffix);
    ValueRoundTrip(d, [0x40] + EncodeString(h.name), h, suffix, true);
    AddKeepsFollowing(ht, d.table, h);
  }

  lemma NamedFieldRoundTrip(ht: HeaderTable, d: DecoderState, h: Header, index: nat, suffix: Bytes)
    requires Follows(ht, d.table) && HeaderFits(h) && Find(ht.All(), h) == Some((index, false))
    requires 1 <= index <= |ht.All()| && ht.All()[index - 1].name == h.name
    ensures FieldComesBack(ht, d, h, EncodeInteger(index, 4, 0) + EncodeString(h.value), ht, suffix)
  {
    IndexedNameRoundTrip(ht, d, index, EncodeString(h.value) + suffix);
    ValueRoundTrip(d, EncodeInteger(index, 4, 0), h, suffix, false);
  }

  lemma FieldRoundTrip(ht: HeaderTable, d: DecoderState, h: Header, suffix: Bytes)
    requires Follows(ht, d.table) && HeaderFits(h)
    ensures var (encoded, ht') := EncodeHeader(ht, h); FieldComesBack(ht, d, h, encoded, ht', suffix)
  {
    match Find(ht.All(), h)
    case None => NewFieldRoundTrip(ht, d, h, suffix);
    case Some((index, exact)) =>
      if exact {
        IndexedRoundTrip(ht, d, index, suffix);
      } else {
        NamedFieldRoundTrip(ht, d, h, index, suffix);
      }
  }

  function MirrorBlock(ht: HeaderTable, decoder: HeaderTable, headers: seq<Header>): HeaderTable
    decreases |headers|
  {
    if headers == [] then decoder
    else MirrorBlock(EncodeHeader(ht, headers[0]).1, Mirror(ht, decoder, headers[0]), headers[1..])
  }

  /** One block: it decodes to its list, and the encoder's table still follows. */
  lemma {:induction false} BlockRoundTrip(ht: HeaderTable, d: DecoderState, headers: seq<Header>)
    requires Follows(ht, d.table) && HeadersFit(headers)
    ensures var (encoded, ht') := EncodeBlock(ht, headers);
            var dt' := MirrorBlock(ht, d.table, headers);
            && Follows(ht', dt') && ht'.maxSize == ht.maxSize && dt'.maxSize == d.table.maxSize
            && DecodeBlock(d, encoded) == Decoded(headers, d.(table := dt'), None)
    decreases |headers|
  {
    if headers != [] {
      var (first, ht') := EncodeHeader(ht, headers[0]);
      var (rest, _) := EncodeBlock(ht', headers[1..]);
      FieldRoundTrip(ht, d, headers[0], rest);
      BlockRoundTrip(ht', d.(table := Mirror(ht, d.table, headers[0])), headers[1..]);
      assert (first + rest)[|first|..] == rest;
      assert [headers[0]] + headers[1..] == headers;
    }
  }

  /** Equal tables stay equal, header by header. */
  lemma {:induction false} EqualTablesStayEqual(ht: HeaderTable, headers: seq<Header>)
    ensures MirrorBlock(ht, ht, headers) == EncodeBlock(ht, headers).1
    decreases |headers|
  {
    if headers != [] {
      EqualTablesStayEqual(EncodeHeader(ht, headers[0]).1, headers[1..]);
    }
  }
}
