/** The HPACK encoder and decoder as they run: loops over a block, with the
    dynamic table changed in place. */
module HpackPeers {
  import opened Common
  import opened HpackInteger
  import opened HpackTable
  import opened HpackCodec
  import HuffmanCode

  class Encoder {
    const statics: seq<Header>
    const dynamic: DynamicTable

    ghost predicate Valid()
      reads dynamic
    {
      dynamic.Valid()
    }

    ghost function Table(): HeaderTable
      reads dynamic
    {
      HeaderTable(statics, dynamic.table, dynamic.maxSize)
    }

    constructor (statics: seq<Header>)
      ensures Valid() && fresh(dynamic) && Table() == HeaderTable(statics, [], 4096)
    {
      this.statics := statics;
      dynamic := new DynamicTable.WithSize(4096);
    }

    method SetMaxTableSize(newMaxSize: nat)
      requires Valid()
      modifies dynamic
      ensures Valid() && Table() == old(Table()).Resize(newMaxSize)
    {
      dynamic.SetMaxTableSize(newMaxSize);
    }

    method EncodeStringLiteral(octets: Bytes) returns (written: Bytes)
      ensures written == EncodeString(octets)
    {
      written := EncodeIntegerInto(|octets|, 7, 0);
      written := written + octets;
    }

    method EncodeHeaderInto(h: Header) returns (written: Bytes)
      requires Valid()
      modifies dynamic
      ensures Valid() && (written, Table()) == EncodeHeader(old(Table()), h)
    {
      var found := FindHeader(statics + dynamic.table, h);
      match found
      case None =>
        var name := EncodeStringLiteral(h.name);
        var value := EncodeStringLiteral(h.value);
        written := [0x40] + name + value;
        dynamic.AddHeader(h);
      case Some((index, exact)) =>
        if exact {
          written := EncodeIntegerInto(index, 7, 0x80);
        } else {
          written := EncodeIntegerInto(index, 4, 0);
          var value := EncodeStringLiteral(h.value);
          written := written + value;
        }
    }

    method EncodeInto(headers: seq<Header>) returns (written: Bytes)
      requires Valid()
      modifies dynamic
      ensures Valid() && (written, Table()) == EncodeBlock(old(Table()), headers)
    {
      written := [];
      ghost var block := EncodeBlock(Table(), headers);
      assert headers[0..] == headers;
      for i := 0 to |headers|
        invariant Valid()
        invariant written + EncodeBlock(Table(), headers[i..]).0 == block.0
        invariant EncodeBlock(Table(), headers[i..]).1 == block.1
      {
        ghost var table := Table();
        assert headers[i..][1..] == headers[i + 1..];
        var field := EncodeHeaderInto(headers[i]);
        EncodeBlockStep(table, headers[i..], written);
        written := written + field;
      }
      assert headers[|headers|..] == [] && written + [] == written;
    }
  }

  lemma EncodeBlockStep(table: HeaderTable, headers: seq<Header>, before: Bytes)
    requires headers != []
    ensures var field := EncodeHeader(table, headers[0]);
            var rest := EncodeBlock(field.1, headers[1..]);
            before + EncodeBlock(table, headers).0 == before + field.0 + rest.0 && EncodeBlock(table, headers).1 == rest.1
  {
  }

  class Decoder {
    const statics: seq<Header>
    const dynamic: DynamicTable
    var maxAllowed: Option<nat>
    ghost const huffman: HuffmanFunction

    ghost predicate Valid()
      reads dynamic
    {
      dynamic.Valid() && forall raw :: huffman(raw) == HuffmanCode.DecodeHpack(raw)
    }

    ghost function State(): DecoderState
      reads this, dynamic
    {
      DecoderState(HeaderTable(statics, dynamic.table, dynamic.maxSize), maxAllowed, huffman)
    }

    constructor (statics: seq<Header>)
      ensures Valid() && fresh(dynamic)
      ensures State().table == HeaderTable(statics, [], 4096) && State().maxAllowed == None
    {
      this.statics := statics;
      dynamic := new DynamicTable.WithSize(4096);
      maxAllowed := None;
      huffman := raw => HuffmanCode.DecodeHpack(raw);
    }

    /** Asserts that the new size is allowed. */
    method SetMaxTableSize(newMaxSize: nat)
      requires Valid() && (maxAllowed.Some? ==> newMaxSize <= maxAllowed.value)
      modifies dynamic
      ensures Valid() && State() == old(State()).(table := old(State()).table.Resize(newMaxSize))
    {
      dynamic.SetMaxTableSize(newMaxSize);
    }

    method DecodeStringLiteral(buf: Bytes) returns (r: Result<Text, DecoderError>)
      requires Valid()
      ensures r == DecodeString(huffman, buf)
    {
      var length := DecodeIntegerLoop(buf, 7);
      match length
      case Err(e) => r := Err(IntegerDecoding(e));
      case Ok(Integer(len, consumed)) =>
        DecodedIntegerBound(buf, 7);
        if consumed + len > |buf| {
          return Err(StringNotEnoughOctets);
        }
        var raw := buf[consumed..consumed + len];
        if buf[0] < 128 {
          return Ok(Text(raw, consumed + len));
        }
        r := DecodeHuffmanText(raw, consumed + len);
    }

    method DecodeHuffmanText(raw: Bytes, used: nat) returns (r: Result<Text, DecoderError>)
      requires Valid()
      ensures r == match huffman(raw) case Err(e) => Err(HuffmanDecoding(e)) case Ok(s) => Ok(Text(s, used))
    {
      var decoded := HuffmanCode.DecodeHuffmanString(raw);
      r := match decoded case Err(e) => Err(HuffmanDecoding(e)) case Ok(s) => Ok(Text(s, used));
    }

    /** The first half of `decode_literal`. */
    method DecodeName(buf: Bytes, index: bool) returns (r: Result<Text, DecoderError>)
      requires Valid()
      ensures r == DecodeLiteralName(State(), buf, index)
    {
      var prefix := DecodeIntegerLoop(buf, if index then 6 else 4);
      if prefix.Err? {
        return Err(IntegerDecoding(prefix.error));
      }
      DecodedIntegerBound(buf, if index then 6 else 4);
      var tableIndex, consumed := prefix.value.value, prefix.value.used;
      if tableIndex == 0 {
        var text := DecodeStringLiteral(buf[consumed..]);
        if text.Err? {
          return Err(text.error);
        }
        return Ok(Text(text.value.octets, consumed + text.value.used));
      }
      var entry := HeaderTable(statics, dynamic.table, dynamic.maxSize).Get(tableIndex);
      r := if entry.None? then Err(HeaderIndexOutOfBounds) else Ok(Text(entry.value.name, consumed));
    }

    method DecodeLiteralField(buf: Bytes, index: bool) returns (r: Result<Literal, DecoderError>)
      requires Valid()
      ensures r == DecodeLiteral(State(), buf, index)
    {
      var name := DecodeName(buf, index);
      if name.Err? {
        return Err(name.error);
      }
      var consumed := name.value.used;
      LiteralOf(State(), buf, index, name.value, buf[consumed..]);
      var text := DecodeStringLiteral(buf[consumed..]);
      r := NameAndValue(name.value, text);
    }

    /** One turn of the loop of `decode_with_cb`. */
    method DecodeOne(buf: Bytes) returns (r: Result<(Option<Header>, nat), DecoderError>)
      requires Valid() && buf != []
      modifies dynamic
      ensures Valid()
      ensures match DecodeField(old(State()), buf)
              case Err(e) => r == Err(e) && State() == old(State())
              case Ok(Field(emitted, next, consumed)) => r == Ok((emitted, consumed)) && State() == next
    {
      match Representation(buf[0])
      case Indexed =>
        var index := DecodeIntegerLoop(buf, 7);
        if index.Err? {
          return Err(IntegerDecoding(index.error));
        }
        var entry := HeaderTable(statics, dynamic.table, dynamic.maxSize).Get(index.value.value);
        r := if entry.None? then Err(HeaderIndexOutOfBounds) else Ok((entry, index.value.used));
      case LiteralWithIncrementalIndexing =>
        var field := DecodeLiteralField(buf, true);
        if field.Err? {
          return Err(field.error);
        }
        dynamic.AddHeader(field.value.header);
        r := Ok((Some(field.value.header), field.value.used));
      case SizeUpdate =>
        var size := DecodeIntegerLoop(buf, 5);
        if size.Err? {
          return Err(IntegerDecoding(size.error));
        }
        if maxAllowed.Some? && size.value.value > maxAllowed.value {
          return Err(InvalidMaxDynamicSize);
        }
        dynamic.SetMaxTableSize(size.value.value);
        r := Ok((None, size.value.used));
      case _ =>
        var field := DecodeLiteralField(buf, false);
        if field.Err? {
          return Err(field.error);
        }
        r := Ok((Some(field.value.header), field.value.used));
    }

    /** The same turn, seen from the rest of the block. */
    method DecodeTurn(buf: Bytes, ghost lastWasSizeUpdate: bool)
      returns (added: seq<Header>, consumed: nat, error: Option<DecoderError>)
      requires Valid() && buf != []
      modifies dynamic
      ensures Valid()
      ensures error.Some? ==> DecodeFrom(old(State()), buf, lastWasSizeUpdate) == Decoded([], State(), error)
      ensures error.None? ==>
        && 1 <= consumed <= |buf|
        && DecodeFrom(old(State()), buf, lastWasSizeUpdate)
           == DecodeFrom(State(), buf[consumed..], Representation(buf[0]).SizeUpdate?).After(added)
    {
      var field := DecodeOne(buf);
      if field.Err? {
        return [], 0, Some(field.error);
      }
      added := if field.value.0.Some? then [field.value.0.value] else [];
      consumed, error := field.value.1, None;
    }

    /** `decode_with_cb`, with the headers handed to the callback returned. */
    method DecodeWithCb(buf: Bytes) returns (headers: seq<Header>, error: Option<DecoderError>)
      requires Valid()
      modifies dynamic
      ensures Valid() && Decoded(headers, State(), error) == DecodeBlock(old(State()), buf)
    {
      headers := [];
      var leftover, lastWasSizeUpdate := buf, false;
      ghost var all := DecodeBlock(State(), buf);
      all.AfterTwice([], []);
      while leftover != []
        invariant Valid() && DecodeFrom(State(), leftover, lastWasSizeUpdate).After(headers) == all
        decreases |leftover|
      {
        var added, consumed, failed := DecodeTurn(leftover, lastWasSizeUpdate);
        if failed.Some? {
          assert headers + [] == headers;
          return headers, failed;
        }
        lastWasSizeUpdate := Representation(leftover[0]).SizeUpdate?;
        leftover := leftover[consumed..];
        DecodeFrom(State(), leftover, lastWasSizeUpdate).AfterTwice(headers, added);
        headers := headers + added;
      }
      assert headers + [] == headers;
      error := if lastWasSizeUpdate then Some(SizeUpdateAtEnd) else None;
    }
  }
}
