/** What any peer may write (sections 5 and 6 of RFC 7541) and what it means. The encoder of
    this repository uses few of these forms; its decoder must read all of them. */
module HpackMeaning {
  import opened Common
  import opened BitStrings
  import opened HpackInteger
  import opened HpackTable
  import opened HpackCodec
  import Huffman
  import HuffmanCode

  const STRING_LIMIT := 127 + 0x1000_0000

  /** A string literal: its octets as they are, or Huffman-coded. */
  datatype StringForm = Plain(text: Bytes) | Coded(raw: Bytes, text: Bytes) {
    function Octets(): Bytes {
      match this
      case Plain(text) => EncodeInteger(|text|, 7, 0) + text
      case Coded(raw, _) => EncodeInteger(|raw|, 7, 0x80) + raw
    }

    predicate Legal(huffman: HuffmanFunction) {
      match this
      case Plain(text) => |text| < STRING_LIMIT
      case Coded(raw, text) => |raw| < STRING_LIMIT && huffman(raw) == Ok(text)
    }
  }

  datatype NameForm = ByIndex(index: nat) | ByName(form: StringForm)

  /** Whether a literal is added to the table. */
  datatype Indexing = Incremental | Without | Never {
    function PrefixSize(): nat {
      if Incremental? then 6 else 4
    }

    function LeadingBits(): Byte {
      match this
      case Incremental => 0x40
      case Without => 0
      case Never => 0x10
    }
  }

  datatype FieldForm =
    | IndexedForm(index: nat)
    | LiteralForm(indexing: Indexing, name: NameForm, value: StringForm)
    | SizeForm(maxSize: nat)
  {
    function Octets(): Bytes {
      match this
      case IndexedForm(index) => EncodeInteger(index, 7, 0x80)
      case LiteralForm(indexing, ByIndex(index), value) =>
        EncodeInteger(index, indexing.PrefixSize(), indexing.LeadingBits()) + value.Octets()
      case LiteralForm(indexing, ByName(form), value) => [indexing.LeadingBits()] + form.Octets() + value.Octets()
      case SizeForm(maxSize) => EncodeInteger(maxSize, 5, 0x20)
    }

    /** Indices name entries of the table, and sizes are allowed. */
    predicate Legal(d: DecoderState) {
      match this
      case IndexedForm(index) => 1 <= index <= |d.table.All()|
      case LiteralForm(_, name, value) =>
        && value.Legal(d.huffman)
        && (match name
            case ByIndex(index) => 1 <= index <= |d.table.All()|
            case ByName(form) => form.Legal(d.huffman))
      case SizeForm(maxSize) => maxSize < 31 + 0x1000_0000 && (d.maxAllowed.Some? ==> maxSize <= d.maxAllowed.value)
    }

    /** The header that it stands for, if it is one. */
    function Meaning(table: HeaderTable): Option<Header>
      requires IndexedForm? ==> 1 <= index <= |table.All()|
      requires LiteralForm? && name.ByIndex? ==> 1 <= name.index <= |table.All()|
    {
      match this
      case IndexedForm(index) => Some(table.All()[index - 1])
      case LiteralForm(_, ByIndex(index), value) => Some(Header(table.All()[index - 1].name, value.text))
      case LiteralForm(_, ByName(form), value) => Some(Header(form.text, value.text))
      case SizeForm(_) => None
    }

    /** The table after it. */
    function Effect(table: HeaderTable): HeaderTable
      requires IndexedForm? ==> 1 <= index <= |table.All()|
      requires LiteralForm? && name.ByIndex? ==> 1 <= name.index <= |table.All()|
    {
      if SizeForm? then table.Resize(maxSize)
      else if LiteralForm? && indexing.Incremental? then table.Add(Meaning(table).value)
      else table
    }
  }

  // ---- Strings ----

  lemma PlainIsRead(huffman: HuffmanFunction, text: Bytes, suffix: Bytes)
    requires |text| < STRING_LIMIT
    ensures DecodeString(huffman, Plain(text).Octets() + suffix) == Ok(Text(text, |Plain(text).Octets()|))
  {
    StringRoundTrip(huffman, text, suffix);
    assert Plain(text).Octets() == EncodeString(text);
  }

  /** What the Huffman decoder makes of the octets is what the string is; what it refuses is
      refused. */
  lemma CodedIsRead(huffman: HuffmanFunction, raw: Bytes, suffix: Bytes)
    requires |raw| < STRING_LIMIT
    ensures var octets, decoded := EncodeInteger(|raw|, 7, 0x80) + raw, huffman(raw);
            DecodeString(huffman, octets + suffix) ==
            if decoded.Ok? then Ok(Text(decoded.value, |octets|)) else Err(HuffmanDecoding(decoded.error))
  {
    var prefix := EncodeInteger(|raw|, 7, 0x80);
    var all := prefix + raw + suffix;
    Reassociate(prefix, raw, suffix);
    IntegerRoundTrip(|raw|, 7, 0x80, raw + suffix);
    assert all[|prefix|..|prefix| + |raw|] == raw && all[0] == prefix[0] && prefix[0] >= 128;
  }

  lemma StringIsRead(huffman: HuffmanFunction, form: StringForm, suffix: Bytes)
    requires form.Legal(huffman)
    ensures DecodeString(huffman, form.Octets() + suffix) == Ok(Text(form.text, |form.Octets()|))
  {
    match form
    case Plain(text) => PlainIsRead(huffman, text, suffix);
    case Coded(raw, text) => CodedIsRead(huffman, raw, suffix);
  }

  /** A Huffman-coded string is read as the text whose codes its bits are, followed by at most
      seven ones; any other is refused. */
  lemma CodedExactly(raw: Bytes, text: Bytes, suffix: Bytes)
    requires |raw| < STRING_LIMIT
    ensures var octets := EncodeInteger(|raw|, 7, 0x80) + raw;
            var read := DecodeString(HuffmanCode.DecodeHpack, octets + suffix);
            && (read == Ok(Text(text, |octets|)) <==>
                  exists pad :: 0 <= pad <= 7 && Huffman.BufferBits(raw) ==
                    Huffman.EncodeBits(HuffmanCode.CodesUpTo(Huffman.EOS), text) + Ones(pad))
            && (read.Ok? ==> read.value.used == |octets|) && (read.Err? ==> read.error.HuffmanDecoding?)
  {
    CodedIsRead(HuffmanCode.DecodeHpack, raw, suffix);
    HuffmanCode.HpackTableIsGood();
    Huffman.HuffmanExact(HuffmanCode.CodesUpTo(Huffman.EOS), raw, text);
  }

  /** So in any field or block, such a string is legal for the decoder's own Huffman code
      exactly then. */
  lemma CodedLegalIff(raw: Bytes, text: Bytes)
    ensures Coded(raw, text).Legal(HuffmanCode.DecodeHpack) <==>
            && |raw| < STRING_LIMIT
            && exists pad :: 0 <= pad <= 7 && Huffman.BufferBits(raw) ==
                 Huffman.EncodeBits(HuffmanCode.CodesUpTo(Huffman.EOS), text) + Ones(pad)
  {
    HuffmanCode.HpackTableIsGood();
    Huffman.HuffmanExact(HuffmanCode.CodesUpTo(Huffman.EOS), raw, text);
  }

  // ---- Fields ----

  function NameOctets(indexing: Indexing, name: NameForm): Bytes {
    match name
    case ByIndex(index) => EncodeInteger(index, indexing.PrefixSize(), indexing.LeadingBits())
    case ByName(form) => [indexing.LeadingBits()] + form.Octets()
  }

  lemma IndexedNameIsRead(d: DecoderState, indexing: Indexing, index: nat, rest: Bytes)
    requires Addressable(d.table) && 1 <= index <= |d.table.All()|
    ensures var octets := NameOctets(indexing, ByIndex(index));
            && DecodeLiteralName(d, octets + rest, indexing.Incremental?) == Ok(Text(d.table.All()[index - 1].name, |octets|))
            && octets != [] && Kept(indexing, octets[0])
  {
    IndexBound(d.table);
    d.table.GetIsIndexing(index);
    IntegerRoundTrip(index, indexing.PrefixSize(), indexing.LeadingBits(), rest);
  }

  /** The first octet tells how the literal is indexed. */
  predicate Kept(indexing: Indexing, octet: Byte) {
    octet / PrefixRange(indexing.PrefixSize()) == indexing.LeadingBits() / PrefixRange(indexing.PrefixSize())
  }

  lemma ZeroPrefix(indexing: Indexing, rest: Bytes)
    ensures DecodeInteger([indexing.LeadingBits()] + rest, indexing.PrefixSize()) == Ok(Integer(0, 1))
  {
  }

  lemma TextNameIsRead(d: DecoderState, indexing: Indexing, form: StringForm, rest: Bytes)
    requires form.Legal(d.huffman)
    ensures var octets := NameOctets(indexing, ByName(form));
            && DecodeLiteralName(d, octets + rest, indexing.Incremental?) == Ok(Text(form.text, |octets|))
            && octets != [] && Kept(indexing, octets[0])
  {
    var first := [indexing.LeadingBits()];
    Reassociate(first, form.Octets(), rest);
    ZeroPrefix(indexing, form.Octets() + rest);
    StringIsRead(d.huffman, form, rest);
    TextNameAt(d, first + (form.Octets() + rest), indexing.Incremental?, form.Octets() + rest, form.text, |form.Octets()|);
  }

  lemma TextNameAt(d: DecoderState, all: Bytes, index: bool, rest: Bytes, text: Bytes, used: nat)
    requires DecodeInteger(all, if index then 6 else 4) == Ok(Integer(0, 1)) && all != [] && all[1..] == rest
    requires DecodeString(d.huffman, rest) == Ok(Text(text, used))
    ensures DecodeLiteralName(d, all, index) == Ok(Text(text, 1 + used))
  {
  }

  lemma NameIsRead(d: DecoderState, form: FieldForm, rest: Bytes)
    requires Addressable(d.table) && form.LiteralForm? && form.Legal(d)
    ensures var octets := NameOctets(form.indexing, form.name);
            && DecodeLiteralName(d, octets + rest, form.indexing.Incremental?)
               == Ok(Text(form.Meaning(d.table).value.name, |octets|))
            && octets != [] && Kept(form.indexing, octets[0])
  {
    if form.name.ByIndex? {
      IndexedNameIsRead(d, form.indexing, form.name.index, rest);
    } else {
      TextNameIsRead(d, form.indexing, form.name.form, rest);
    }
  }

  /** A literal is its name and its value. */
  lemma LiteralIsRead(d: DecoderState, form: FieldForm, suffix: Bytes)
    requires Addressable(d.table) && form.LiteralForm? && form.Legal(d)
    ensures var octets := form.Octets();
            && DecodeLiteral(d, octets + suffix, form.indexing.Incremental?)
               == Ok(Literal(form.Meaning(d.table).value, |octets|))
            && octets != [] && Kept(form.indexing, octets[0])
  {
    var name, value := NameOctets(form.indexing, form.name), form.value.Octets();
    NameIsRead(d, form, value + suffix);
    StringIsRead(d.huffman, form.value, suffix);
    ValueComesBack(d, name, value, form.Meaning(d.table).value, suffix, form.indexing.Incremental?);
    assert form.Octets() == name + value;
  }

  /** A form is read as what it means, from exactly its octets. */
  ghost predicate ReadAs(d: DecoderState, form: FieldForm, suffix: Bytes)
    requires form.Legal(d)
  {
    var octets := form.Octets();
    && octets != [] && (Representation(octets[0]).SizeUpdate? <==> form.SizeForm?)
    && DecodeField(d, octets + suffix) == Ok(Field(form.Meaning(d.table), d.(table := form.Effect(d.table)), |octets|))
  }

  lemma IndexAt(d: DecoderState, buf: Bytes, index: nat, used: nat)
    requires buf != [] && buf[0] >= 128 && DecodeInteger(buf, 7) == Ok(Integer(index, used))
    ensures DecodeField(d, buf) ==
            if d.table.Get(index).None? then Err(HeaderIndexOutOfBounds) else Ok(Field(d.table.Get(index), d, used))
  {
  }

  lemma SizeAt(d: DecoderState, buf: Bytes, maxSize: nat, used: nat)
    requires buf != [] && 32 <= buf[0] < 64 && DecodeInteger(buf, 5) == Ok(Integer(maxSize, used))
    ensures DecodeField(d, buf) ==
            if d.maxAllowed.Some? && maxSize > d.maxAllowed.value then Err(InvalidMaxDynamicSize)
            else Ok(Field(None, d.(table := d.table.Resize(maxSize)), used))
  {
  }

  lemma IndexIsRead(d: DecoderState, index: nat, suffix: Bytes)
    requires Addressable(d.table) && IndexedForm(index).Legal(d)
    ensures ReadAs(d, IndexedForm(index), suffix)
  {
    var octets := IndexedForm(index).Octets();
    IndexBound(d.table);
    d.table.GetIsIndexing(index);
    IntegerRoundTrip(index, 7, 0x80, suffix);
    IndexAt(d, octets + suffix, index, |octets|);
  }

  lemma SizeIsRead(d: DecoderState, maxSize: nat, suffix: Bytes)
    requires SizeForm(maxSize).Legal(d)
    ensures ReadAs(d, SizeForm(maxSize), suffix)
  {
    var octets := SizeForm(maxSize).Octets();
    IntegerRoundTrip(maxSize, 5, 0x20, suffix);
    SizeAt(d, octets + suffix, maxSize, |octets|);
  }

  lemma KeptTells(indexing: Indexing, octet: Byte)
    requires Kept(indexing, octet)
    ensures Representation(octet) == match indexing
                                     case Incremental => LiteralWithIncrementalIndexing
                                     case Without => LiteralWithoutIndexing
                                     case Never => LiteralNeverIndexed
  {
  }

  lemma LiteralFieldAt(d: DecoderState, buf: Bytes, indexing: Indexing, read: Result<Literal, DecoderError>)
    requires buf != [] && Kept(indexing, buf[0]) && DecodeLiteral(d, buf, indexing.Incremental?) == read
    ensures !Representation(buf[0]).SizeUpdate?
    ensures DecodeField(d, buf) ==
            if read.Err? then Err(read.error)
            else Ok(Field(Some(read.value.header),
                          if indexing.Incremental? then d.(table := d.table.Add(read.value.header)) else d, read.value.used))
  {
    KeptTells(indexing, buf[0]);
  }

  lemma LiteralFieldIsRead(d: DecoderState, form: FieldForm, suffix: Bytes)
    requires Addressable(d.table) && form.LiteralForm? && form.Legal(d)
    ensures ReadAs(d, form, suffix)
  {
    var octets := form.Octets();
    LiteralIsRead(d, form, suffix);
    assert (octets + suffix)[0] == octets[0];
    LiteralFieldAt(d, octets + suffix, form.indexing, Ok(Literal(form.Meaning(d.table).value, |octets|)));
  }

  /** The decoder reads every form so, and its table changes as it must. */
  lemma FieldIsRead(d: DecoderState, form: FieldForm, suffix: Bytes)
    requires Addressable(d.table) && form.Legal(d)
    ensures ReadAs(d, form, suffix)
  {
    match form
    case IndexedForm(index) => IndexIsRead(d, index, suffix);
    case SizeForm(maxSize) => SizeIsRead(d, maxSize, suffix);
    case LiteralForm(_, _, _) => LiteralFieldIsRead(d, form, suffix);
  }

  // ---- Blocks ----

  function BlockOctets(forms: seq<FieldForm>): Bytes
    decreases |forms|
  {
    if forms == [] then [] else forms[0].Octets() + BlockOctets(forms[1..])
  }

  /** Each form is legal for the table that those before it leave. */
  ghost predicate AllLegal(d: DecoderState, forms: seq<FieldForm>)
    decreases |forms|
  {
    forms == [] ||
    (forms[0].Legal(d) && AllLegal(d.(table := forms[0].Effect(d.table)), forms[1..]))
  }

  /** The headers that a block means, and the table it leaves. */
  ghost function Meanings(d: DecoderState, forms: seq<FieldForm>): (seq<Header>, HeaderTable)
    requires AllLegal(d, forms)
    decreases |forms|
  {
    if forms == [] then ([], d.table)
    else
      var emitted, later := forms[0].Meaning(d.table), Meanings(d.(table := forms[0].Effect(d.table)), forms[1..]);
      (if emitted.Some? then [emitted.value] + later.0 else later.0, later.1)
  }

  lemma FirstFormIsRead(d: DecoderState, form: FieldForm, rest: Bytes, afterSize: bool)
    requires form.Legal(d) && ReadAs(d, form, rest)
    ensures var emitted := form.Meaning(d.table);
            DecodeFrom(d, form.Octets() + rest, afterSize) ==
            DecodeFrom(d.(table := form.Effect(d.table)), rest, form.SizeForm?).After(
              if emitted.Some? then [emitted.value] else [])
  {
    var octets := form.Octets();
    assert (octets + rest)[|octets|..] == rest && (octets + rest)[0] == octets[0];
  }

  lemma ReadOne(d: DecoderState, form: FieldForm, rest: Bytes, afterSize: bool)
    requires Addressable(d.table) && form.Legal(d)
    ensures var emitted := form.Meaning(d.table);
            DecodeFrom(d, form.Octets() + rest, afterSize) ==
            DecodeFrom(d.(table := form.Effect(d.table)), rest, form.SizeForm?).After(
              if emitted.Some? then [emitted.value] else [])
  {
    FieldIsRead(d, form, rest);
    FirstFormIsRead(d, form, rest, afterSize);
  }

  /** What decoding should come to: the headers, the table, and whether a size update is last. */
  ghost function Expected(d: DecoderState, forms: seq<FieldForm>, afterSize: bool): Decoded
    requires AllLegal(d, forms)
  {
    var (headers, table) := Meanings(d, forms);
    var trailing := if forms == [] then afterSize else forms[|forms| - 1].SizeForm?;
    Decoded(headers, d.(table := table), if trailing then Some(SizeUpdateAtEnd) else None)
  }

  lemma ExpectedStep(d: DecoderState, forms: seq<FieldForm>, afterSize: bool)
    requires AllLegal(d, forms) && forms != []
    ensures var emitted, next := forms[0].Meaning(d.table), d.(table := forms[0].Effect(d.table));
            Expected(d, forms, afterSize) ==
            Expected(next, forms[1..], forms[0].SizeForm?).After(if emitted.Some? then [emitted.value] else [])
  {
    var next := d.(table := forms[0].Effect(d.table));
    Expected(next, forms[1..], forms[0].SizeForm?).AfterTwice([], []);
  }

  /** Tables stay small enough for every index. */
  lemma EffectKeepsAddressable(d: DecoderState, form: FieldForm)
    requires Addressable(d.table) && |d.table.statics| == 61 && form.Legal(d)
    ensures Addressable(form.Effect(d.table)) && |form.Effect(d.table).statics| == 61
  {
    d.table.StaysValid(if form.SizeForm? then Header([], []) else form.Meaning(d.table).value,
                       if form.SizeForm? then form.maxSize else 0);
  }

  lemma {:induction false} FormsAreRead(d: DecoderState, forms: seq<FieldForm>, afterSize: bool)
    requires Addressable(d.table) && |d.table.statics| == 61 && AllLegal(d, forms)
    ensures DecodeFrom(d, BlockOctets(forms), afterSize) == Expected(d, forms, afterSize)
    decreases |forms|
  {
    if forms != [] {
      ReadOne(d, forms[0], BlockOctets(forms[1..]), afterSize);
      EffectKeepsAddressable(d, forms[0]);
      FormsAreRead(d.(table := forms[0].Effect(d.table)), forms[1..], forms[0].SizeForm?);
      ExpectedStep(d, forms, afterSize);
    }
  }

  /** Every block that a peer may write is decoded to the headers it means, and leaves the
      table it means; a size update at its end is an error. */
  lemma BlockMeans(d: DecoderState, forms: seq<FieldForm>)
    requires Addressable(d.table) && |d.table.statics| == 61 && AllLegal(d, forms)
    ensures var (headers, table) := Meanings(d, forms);
            DecodeBlock(d, BlockOctets(forms)) ==
            Decoded(headers, d.(table := table),
                    if forms != [] && forms[|forms| - 1].SizeForm? then Some(SizeUpdateAtEnd) else None)
  {
    FormsAreRead(d, forms, false);
  }

  // ---- Forms that are not legal ----

  /** An index that no entry has is refused. */
  lemma MissingIsRefused(d: DecoderState, index: nat, suffix: Bytes)
    requires !(1 <= index <= |d.table.All()|) && index < STRING_LIMIT
    ensures var octets := IndexedForm(index).Octets() + suffix;
            octets != [] && DecodeField(d, octets) == Err(HeaderIndexOutOfBounds)
  {
    var octets := IndexedForm(index).Octets();
    d.table.GetIsIndexing(index);
    IntegerRoundTrip(index, 7, 0x80, suffix);
    IndexAt(d, octets + suffix, index, |octets|);
  }

  /** So it is for the name of a literal. */
  lemma MissingNameIsRefused(d: DecoderState, indexing: Indexing, index: nat, rest: Bytes)
    requires |d.table.All()| < index < 15 + 0x1000_0000
    ensures var octets := NameOctets(indexing, ByIndex(index)) + rest;
            octets != [] && DecodeField(d, octets) == Err(HeaderIndexOutOfBounds)
  {
    var octets := NameOctets(indexing, ByIndex(index)) + rest;
    d.table.GetIsIndexing(index);
    IntegerRoundTrip(index, indexing.PrefixSize(), indexing.LeadingBits(), rest);
    MissingNameAt(d, octets, indexing.Incremental?, index, |NameOctets(indexing, ByIndex(index))|);
    LiteralFieldAt(d, octets, indexing, Err(HeaderIndexOutOfBounds));
  }

  lemma MissingNameAt(d: DecoderState, buf: Bytes, index: bool, at: nat, used: nat)
    requires DecodeInteger(buf, if index then 6 else 4) == Ok(Integer(at, used)) && at > 0 && d.table.Get(at).None?
    ensures DecodeLiteral(d, buf, index) == Err(HeaderIndexOutOfBounds)
  {
  }

  /** A size beyond what is allowed is refused. */
  lemma LargeSizeIsRefused(d: DecoderState, maxSize: nat, suffix: Bytes)
    requires maxSize < 31 + 0x1000_0000 && d.maxAllowed.Some? && maxSize > d.maxAllowed.value
    ensures var octets := SizeForm(maxSize).Octets() + suffix;
            octets != [] && DecodeField(d, octets) == Err(InvalidMaxDynamicSize)
  {
    var octets := SizeForm(maxSize).Octets();
    IntegerRoundTrip(maxSize, 5, 0x20, suffix);
    SizeAt(d, octets + suffix, maxSize, |octets|);
  }
}
