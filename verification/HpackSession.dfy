/** HPACK sessions: many blocks between one encoder and one decoder, with table
    sizes that change on both sides or on the encoder's side alone. */
module HpackSession {
  import opened Common
  import opened HpackInteger
  import opened HpackTable
  import opened HpackCodec

  /** What happens to a pair of peers: a block is sent, both are told a new table
      size, or the encoder alone is (`set_max_table_size` tells the peer nothing). */
  datatype Exchange = Block(headers: seq<Header>) | Resize(maxSize: nat) | EncoderResize(maxSize: nat)

  function EncoderAfter(ht: HeaderTable, e: Exchange): HeaderTable {
    match e
    case Block(headers) => EncodeBlock(ht, headers).1
    case Resize(n) => ht.Resize(n)
    case EncoderResize(n) => ht.Resize(n)
  }

  function DecoderAfter(d: DecoderState, ht: HeaderTable, e: Exchange): DecoderState {
    match e
    case Block(headers) => DecodeBlock(d, EncodeBlock(ht, headers).0).next
    case Resize(n) => d.(table := d.table.Resize(n))
    case EncoderResize(_) => d
  }

  /** Sizes are below 2^32 and what the decoder allows; an encoder-only size is
      no larger than the decoder's `maxSize` at that point. */
  predicate Legal(session: seq<Exchange>, maxSize: nat, maxAllowed: Option<nat>)
    decreases |session|
  {
    session == [] ||
    match session[0]
    case Block(headers) => HeadersFit(headers) && Legal(session[1..], maxSize, maxAllowed)
    case Resize(n) =>
      n < 0x1_0000_0000 && (maxAllowed.Some? ==> n <= maxAllowed.value) && Legal(session[1..], n, maxAllowed)
    case EncoderResize(n) => n <= maxSize && Legal(session[1..], maxSize, maxAllowed)
  }

  /** Every block decodes, without error, to the list that was encoded, and the
      encoder's table is a prefix of the decoder's before and after every exchange. */
  ghost predicate InStep(ht: HeaderTable, d: DecoderState, session: seq<Exchange>)
    decreases |session|
  {
    && Follows(ht, d.table)
    && (session != [] ==>
          && (session[0].Block? ==>
                var r := DecodeBlock(d, EncodeBlock(ht, session[0].headers).0);
                r.headers == session[0].headers && r.error.None?)
          && InStep(EncoderAfter(ht, session[0]), DecoderAfter(d, ht, session[0]), session[1..]))
  }

  lemma ResizeKeepsFollowing(ht: HeaderTable, decoder: HeaderTable, n: nat)
    requires Follows(ht, decoder) && |decoder.statics| == 61 && decoder.maxSize < 0x1_0000_0000
    ensures n < 0x1_0000_0000 ==> Follows(ht.Resize(n), decoder.Resize(n))
    ensures n <= decoder.maxSize ==> Follows(ht.Resize(n), decoder)
  {
    ht.StaysValid(Header([], []), n);
    decoder.StaysValid(Header([], []), n);
    FitOfPrefix(ht.dynamic, decoder.dynamic, n, n);
    FitIsLongestPrefix(ht.dynamic, n);
  }

  /** Peers in step stay in step over every legal session. */
  lemma {:induction false} SessionStaysInStep(ht: HeaderTable, d: DecoderState, session: seq<Exchange>)
    requires Follows(ht, d.table) && |d.table.statics| == 61 && d.table.maxSize < 0x1_0000_0000
    requires Legal(session, d.table.maxSize, d.maxAllowed)
    ensures InStep(ht, d, session)
    decreases |session|
  {
    if session != [] {
      var ht', d' := EncoderAfter(ht, session[0]), DecoderAfter(d, ht, session[0]);
      match session[0] {
        case Block(headers) =>
          BlockRoundTrip(ht, d, headers);
          EncodeBlockKeepsStatics(ht, headers);
        case Resize(n) => ResizeKeepsFollowing(ht, d.table, n);
        case EncoderResize(n) => ResizeKeepsFollowing(ht, d.table, n);
      }
      SessionStaysInStep(ht', d', session[1..]);
    }
  }

  lemma {:induction false} EncodeBlockKeepsStatics(ht: HeaderTable, headers: seq<Header>)
    ensures EncodeBlock(ht, headers).1.statics == ht.statics
    decreases |headers|
  {
    if headers != [] {
      EncodeBlockKeepsStatics(EncodeHeader(ht, headers[0]).1, headers[1..]);
    }
  }

  /** With no encoder-only size, equal tables are equal again after each exchange. */
  lemma ExchangeKeepsEqual(d: DecoderState, e: Exchange)
    requires Follows(d.table, d.table) && !e.EncoderResize? && (e.Block? ==> HeadersFit(e.headers))
    ensures DecoderAfter(d, d.table, e).table == EncoderAfter(d.table, e)
  {
    if e.Block? {
      BlockRoundTrip(d.table, d, e.headers);
      EqualTablesStayEqual(d.table, e.headers);
    }
  }

  /** The bound on an encoder-only size is needed. When the encoder's table is
      larger than the decoder's, any header of a new name that fits only the encoder's
      is sent a second time as an index the decoder refuses, whatever is in the tables. */
  lemma LargerEncoderTableFails(ht: HeaderTable, d: DecoderState, h: Header)
    requires Addressable(ht) && Addressable(d.table) && ht.statics == d.table.statics
    requires Find(ht.All(), h).None? && HeaderFits(h)
    requires d.table.maxSize < EntrySize(h) <= ht.maxSize
    ensures var (first, ht') := EncodeBlock(ht, [h]);
            var r := DecodeBlock(d, first);
            && r.headers == [h] && r.error.None?
            && DecodeBlock(r.next, EncodeBlock(ht', [h]).0).error == Some(HeaderIndexOutOfBounds)
  {
    FirstSending(ht, d, h);
    BlockOfOne(ht, h);
    ht.StaysValid(h, 0);
    StaticNamesDiffer(ht, h);
    BlockOfOne(ht.Add(h), h);
    SecondSending(ht.Add(h), d.(table := d.table.Add(h)), h);
  }

  /** No entry of the table has the name, so none of the static ones has. */
  lemma StaticNamesDiffer(ht: HeaderTable, h: Header)
    requires Find(ht.All(), h).None?
    ensures forall i :: 0 <= i < |ht.statics| ==> ht.statics[i].name != h.name
    ensures Find(ht.statics, h).None?
  {
    forall i | 0 <= i < |ht.statics|
      ensures ht.statics[i].name != h.name
    {
      assert ht.All()[i] == ht.statics[i];
    }
  }

  /** The first sending is a literal; the decoder's table has no room for it. */
  lemma FirstSending(ht: HeaderTable, d: DecoderState, h: Header)
    requires Addressable(d.table) && ht.statics == d.table.statics
    requires Find(ht.All(), h).None? && HeaderFits(h) && d.table.maxSize < EntrySize(h)
    ensures DecodeBlock(d, EncodeBlock(ht, [h]).0) == Decoded([h], d.(table := d.table.Add(h)), None)
    ensures d.table.Add(h).dynamic == []
  {
    var small := ht.(dynamic := [], maxSize := d.table.maxSize);
    StaticNamesDiffer(ht, h);
    assert small.All() == ht.statics;
    BlockRoundTrip(small, d, [h]);
    BlockOfOne(small, h);
    BlockOfOne(ht, h);
    assert [h][1..] == [];
    assert MirrorBlock(small.Add(h), d.table.Add(h), []) == d.table.Add(h);
  }

  /** Once the encoder has added a header of a new name, it sends the index of the newest
      dynamic entry: the decoder gives its own newest entry for it, or fails without one. */
  lemma SecondSending(ht: HeaderTable, d: DecoderState, h: Header)
    requires Addressable(ht) && ht.statics == d.table.statics && ht.dynamic != [] && ht.dynamic[0] == h
    requires forall i :: 0 <= i < |ht.statics| ==> ht.statics[i].name != h.name
    ensures DecodeBlock(d, EncodeHeader(ht, h).0) ==
            if d.table.dynamic == [] then Decoded([], d, Some(HeaderIndexOutOfBounds)) else Decoded([d.table.dynamic[0]], d, None)
  {
    var index := |ht.statics| + 1;
    FindsOwnEntry(ht, h);
    IndexBound(ht);
    IndexAlone(d, index);
  }

  lemma FindsOwnEntry(ht: HeaderTable, h: Header)
    requires ht.dynamic != [] && ht.dynamic[0] == h && forall i :: 0 <= i < |ht.statics| ==> ht.statics[i].name != h.name
    ensures Find(ht.All(), h) == Some((|ht.statics| + 1, true))
  {
    var found, at := Find(ht.All(), h), |ht.statics|;
    assert ht.All()[at] == h;
    assert forall i :: 0 <= i < at ==> ht.All()[i] == ht.statics[i];
    assert Finds(ht.All(), h, found);
  }

  /** A block of one index. */
  lemma IndexAlone(d: DecoderState, index: nat)
    requires index < 127 + 0x1000_0000
    ensures DecodeBlock(d, EncodeInteger(index, 7, 0x80)) ==
            if d.table.Get(index).None? then Decoded([], d, Some(HeaderIndexOutOfBounds))
            else Decoded([d.table.Get(index).value], d, None)
  {
    var encoded := EncodeInteger(index, 7, 0x80);
    IntegerRoundTrip(index, 7, 0x80, []);
    assert encoded + [] == encoded;
    if d.table.Get(index).Some? {
      assert DecodeIndexed(d.table, encoded) == Ok(Literal(d.table.Get(index).value, |encoded|));
      FieldAlone(d, encoded, d.table.Get(index).value);
    } else {
      assert DecodeIndexed(d.table, encoded) == Err(HeaderIndexOutOfBounds);
    }
  }

  lemma FieldAlone(d: DecoderState, encoded: Bytes, h: Header)
    requires encoded != [] && encoded[0] >= 128 && DecodeIndexed(d.table, encoded) == Ok(Literal(h, |encoded|))
    ensures DecodeBlock(d, encoded) == Decoded([h], d, None)
  {
    assert DecodeField(d, encoded) == Ok(Field(Some(h), d, |encoded|));
    assert encoded[|encoded|..] == [];
    assert DecodeFrom(d, [], false) == Decoded([], d, None);
  }

  lemma BlockOfOne(ht: HeaderTable, h: Header)
    ensures EncodeBlock(ht, [h]) == EncodeHeader(ht, h)
  {
    assert [h][1..] == [];
    var (first, ht') := EncodeHeader(ht, h);
    assert EncodeBlock(ht', []) == ([], ht') && first + [] == first;
  }

  // ---- The encoder's table never holds a name twice ----

  /** No name of the dynamic part occurs elsewhere in the table. */
  ghost predicate NamesOnce(ht: HeaderTable) {
    forall i, j :: 0 <= i < j < |ht.All()| && |ht.statics| <= j ==> ht.All()[i].name != ht.All()[j].name
  }

  lemma AddKeepsNamesOnce(ht: HeaderTable, h: Header)
    requires NamesOnce(ht) && Find(ht.All(), h).None?
    ensures NamesOnce(ht.Add(h))
  {
    var pushed := [h] + ht.dynamic;
    PushThenEvict(ht.dynamic, h, ht.maxSize);
    FitIsLongestPrefix(pushed, ht.maxSize);
    var kept := ht.Add(h).dynamic;
    assert kept <= pushed;
    var n := |ht.statics|;
    forall i, j | 0 <= i < j < n + |kept| && n <= j
      ensures (ht.statics + kept)[i].name != (ht.statics + kept)[j].name
    {
      assert (ht.statics + kept)[j] == pushed[j - n];
      if i >= n {
        assert (ht.statics + kept)[i] == pushed[i - n];
        assert pushed[j - n] == ht.All()[j - 1];
        if i > n {
          assert pushed[i - n] == ht.All()[i - 1];
        }
      } else {
        assert (ht.statics + kept)[i] == ht.All()[i];
        if j > n {
          assert pushed[j - n] == ht.All()[j - 1];
        }
      }
    }
  }

  lemma ResizeKeepsNamesOnce(ht: HeaderTable, n: nat)
    requires NamesOnce(ht)
    ensures NamesOnce(ht.Resize(n))
  {
    FitIsLongestPrefix(ht.dynamic, n);
    assert ht.Resize(n).All() <= ht.All();
  }

  /** What the documentation of the encoder promises of its table, over sessions: a name that
      was added is never added with another value. */
  lemma {:induction false} EncoderNamesOnce(ht: HeaderTable, e: Exchange)
    requires NamesOnce(ht)
    ensures NamesOnce(EncoderAfter(ht, e))
    decreases if e.Block? then |e.headers| else 0
  {
    match e
    case Resize(n) => ResizeKeepsNamesOnce(ht, n);
    case EncoderResize(n) => ResizeKeepsNamesOnce(ht, n);
    case Block(headers) =>
      if headers != [] {
        if Find(ht.All(), headers[0]).None? {
          AddKeepsNamesOnce(ht, headers[0]);
        }
        EncoderNamesOnce(EncodeHeader(ht, headers[0]).1, Block(headers[1..]));
      }
  }
}
