/** A table size that is told to the encoder alone: exactly which sizes every later session
    survives. */
module HpackSizes {
  import opened Common
  import opened HpackTable
  import opened HpackCodec
  import opened HpackSession

  // ---- Sessions of blocks ----

  /** Every block decodes, without error, to the list that was encoded. */
  ghost predicate Decodes(ht: HeaderTable, d: DecoderState, lists: seq<seq<Header>>)
    decreases |lists|
  {
    lists == [] ||
    var (block, ht') := EncodeBlock(ht, lists[0]);
    var r := DecodeBlock(d, block);
    r.headers == lists[0] && r.error.None? && Decodes(ht', r.next, lists[1..])
  }

  ghost predicate AllFit(lists: seq<seq<Header>>) {
    forall i :: 0 <= i < |lists| ==> HeadersFit(lists[i])
  }

  ghost predicate AlwaysDecodes(ht: HeaderTable, d: DecoderState) {
    forall lists :: AllFit(lists) ==> Decodes(ht, d, lists)
  }

  /** Peers in step decode every session. */
  lemma {:induction false} FollowingDecodes(ht: HeaderTable, d: DecoderState, lists: seq<seq<Header>>)
    requires Follows(ht, d.table) && AllFit(lists)
    ensures Decodes(ht, d, lists)
    decreases |lists|
  {
    if lists != [] {
      BlockRoundTrip(ht, d, lists[0]);
      FollowingDecodes(EncodeBlock(ht, lists[0]).1, DecodeBlock(d, EncodeBlock(ht, lists[0]).0).next, lists[1..]);
    }
  }

  // ---- Sizes below one entry ----

  /** Tables too small for any entry encode alike. */
  predicate Alike(a: HeaderTable, b: HeaderTable) {
    a.statics == b.statics && a.dynamic == [] == b.dynamic && a.maxSize < 32 && b.maxSize < 32
  }

  lemma {:induction false} AlikeEncode(a: HeaderTable, b: HeaderTable, headers: seq<Header>)
    requires Alike(a, b)
    ensures EncodeBlock(a, headers).0 == EncodeBlock(b, headers).0
    ensures Alike(EncodeBlock(a, headers).1, EncodeBlock(b, headers).1)
    ensures EncodeBlock(a, headers).1.maxSize == a.maxSize && EncodeBlock(b, headers).1.maxSize == b.maxSize
    decreases |headers|
  {
    if headers != [] {
      AlikeEncode(EncodeHeader(a, headers[0]).1, EncodeHeader(b, headers[0]).1, headers[1..]);
    }
  }

  lemma {:induction false} AlikeDecodes(a: HeaderTable, b: HeaderTable, d: DecoderState, lists: seq<seq<Header>>)
    requires Alike(a, b) && Decodes(b, d, lists)
    ensures Decodes(a, d, lists)
    decreases |lists|
  {
    if lists != [] {
      AlikeEncode(a, b, lists[0]);
      AlikeDecodes(EncodeBlock(a, lists[0]).1, EncodeBlock(b, lists[0]).1,
                   DecodeBlock(d, EncodeBlock(b, lists[0]).0).next, lists[1..]);
    }
  }

  lemma NoEntryBelow32(entries: seq<Header>)
    requires TableSize(entries) < 32
    ensures entries == []
  {
    EntryCount(entries);
  }

  // ---- New names ----

  /** The `i`-th name of four octets. */
  function Name(i: nat): Bytes {
    [i / 0x100_0000 % 256, i / 0x1_0000 % 256, i / 0x100 % 256, i % 256]
  }

  lemma NameDetermines(i: nat)
    requires i < 0x1_0000_0000
    ensures var n := Name(i);
            i == (n[0] as int) * 0x100_0000 + (n[1] as int) * 0x1_0000 + (n[2] as int) * 0x100 + (n[3] as int)
  {
    var a, b, c := i / 0x100, i / 0x1_0000, i / 0x100_0000;
    assert i == a * 0x100 + i % 256 && a == b * 0x100 + a % 256 && b == c * 0x100 + b % 256 && c < 256;
  }

  lemma NamesDiffer(i: nat, j: nat)
    requires i < j < 0x1_0000_0000
    ensures Name(i) != Name(j)
  {
    NameDetermines(i);
    NameDetermines(j);
  }

  function NamesUpTo(n: nat): set<Bytes> {
    set i | 0 <= i < n :: Name(i)
  }

  lemma {:induction false} ManyNames(n: nat)
    requires n <= 0x1_0000_0000
    ensures |NamesUpTo(n)| == n
  {
    if n > 0 {
      ManyNames(n - 1);
      forall i | 0 <= i < n - 1
        ensures Name(i) != Name(n - 1)
      {
        NamesDiffer(i, n - 1);
      }
      assert NamesUpTo(n) == NamesUpTo(n - 1) + {Name(n - 1)};
      assert Name(n - 1) !in NamesUpTo(n - 1);
    }
  }

  function NamesOf(entries: seq<Header>): set<Bytes> {
    set i | 0 <= i < |entries| :: entries[i].name
  }

  lemma {:induction false} FewNames(entries: seq<Header>)
    ensures |NamesOf(entries)| <= |entries|
  {
    if entries != [] {
      var rest := entries[..|entries| - 1];
      FewNames(rest);
      assert NamesOf(entries) == NamesOf(rest) + {entries[|entries| - 1].name};
    }
  }

  lemma {:induction false} SubsetSize(a: set<Bytes>, b: set<Bytes>)
    requires a <= b
    ensures |a| <= |b|
  {
    if a != {} {
      var x :| x in a;
      SubsetSize(a - {x}, b - {x});
    }
  }

  /** A name that no entry has. */
  lemma NewName(entries: seq<Header>) returns (name: Bytes)
    requires |entries| < 0x1_0000_0000
    ensures |name| == 4 && forall i :: 0 <= i < |entries| ==> entries[i].name != name
  {
    var names := NamesUpTo(|entries| + 1);
    ManyNames(|entries| + 1);
    FewNames(entries);
    if names <= NamesOf(entries) {
      SubsetSize(names, NamesOf(entries));
      assert false;
    }
    name :| name in names && name !in NamesOf(entries);
    forall i | 0 <= i < |entries|
      ensures entries[i].name != name
    {
      assert entries[i].name in NamesOf(entries);
    }
  }

  // ---- Filling the larger table ----

  function Literally(h: Header): Bytes {
    [0x40] + EncodeString(h.name) + EncodeString(h.value)
  }

  lemma LiteralDecodes(d: DecoderState, h: Header)
    requires HeaderFits(h)
    ensures DecodeLiteral(d, Literally(h), true) == Ok(Literal(h, |Literally(h)|))
  {
    LiteralNameRoundTrip(d, h.name, EncodeString(h.value) + []);
    ValueRoundTrip(d, [0x40] + EncodeString(h.name), h, [], true);
    assert Literally(h) + [] == Literally(h);
  }

  lemma LiteralField(d: DecoderState, buf: Bytes, h: Header)
    requires buf != [] && buf[0] == 0x40 && DecodeLiteral(d, buf, true) == Ok(Literal(h, |buf|))
    ensures DecodeBlock(d, buf) == Decoded([h], d.(table := d.table.Add(h)), None)
  {
    assert DecodeField(d, buf) == Ok(Field(Some(h), d.(table := d.table.Add(h)), |buf|));
    assert buf[|buf|..] == [];
    assert DecodeFrom(d.(table := d.table.Add(h)), [], false) == Decoded([], d.(table := d.table.Add(h)), None);
    assert [h] + [] == [h];
  }

  /** A header whose name is new is sent as a literal, which any decoder understands. */
  lemma NewHeaderDecodes(ht: HeaderTable, d: DecoderState, h: Header)
    requires Find(ht.All(), h).None? && HeaderFits(h)
    ensures EncodeBlock(ht, [h]).1 == ht.Add(h)
    ensures DecodeBlock(d, EncodeBlock(ht, [h]).0) == Decoded([h], d.(table := d.table.Add(h)), None)
  {
    BlockOfOne(ht, h);
    LiteralDecodes(d, h);
    LiteralField(d, Literally(h), h);
  }

  lemma {:induction false} SizeAppend(a: seq<Header>, b: seq<Header>)
    ensures TableSize(a + b) == TableSize(a) + TableSize(b)
    decreases |a|
  {
    if a == [] {
      assert a + b == b;
    } else {
      assert (a + b)[0] == a[0] && (a + b)[1..] == a[1..] + b;
      SizeAppend(a[1..], b);
    }
  }

  lemma {:induction false} MemberSize(entries: seq<Header>, i: nat)
    requires i < |entries|
    ensures EntrySize(entries[i]) <= TableSize(entries)
  {
    if i > 0 {
      MemberSize(entries[1..], i - 1);
    }
  }

  /** Eviction leaves what is newest and fits. */
  lemma AddKeepsFront(ht: HeaderTable, h: Header, sent: seq<Header>)
    requires sent <= ht.dynamic && TableSize([h] + sent) <= ht.maxSize
    ensures [h] + sent <= ht.Add(h).dynamic
  {
    var all, front := [h] + ht.dynamic, [h] + sent;
    PushThenEvict(ht.dynamic, h, ht.maxSize);
    FitIsLongestPrefix(all, ht.maxSize);
    assert all[..|front|] == front;
  }

  lemma AddIsPrefix(ht: HeaderTable, h: Header, sent: seq<Header>, older: seq<Header>)
    requires ht.dynamic <= sent + older
    ensures ht.Add(h).dynamic <= ([h] + sent) + older && ht.Add(h).Valid()
  {
    PushThenEvict(ht.dynamic, h, ht.maxSize);
    FitIsLongestPrefix([h] + ht.dynamic, ht.maxSize);
    ht.StaysValid(h, 0);
    assert [h] + ht.dynamic <= [h] + (sent + older) == ([h] + sent) + older;
  }

  /** The headers sent so far: no two have one name, and none has the name of a static one. */
  ghost predicate AllNew(sent: seq<Header>, statics: seq<Header>) {
    && (forall i, j :: 0 <= i < j < |sent| ==> sent[i].name != sent[j].name)
    && (forall i, j :: 0 <= i < |sent| && 0 <= j < |statics| ==> sent[i].name != statics[j].name)
  }

  /** What the failing session keeps: the encoder has all that was sent, the decoder only
      what fits its smaller table. */
  ghost predicate Filling(ht: HeaderTable, d: DecoderState, sent: seq<Header>, older: seq<Header>) {
    && ht.Valid() && d.table.Valid() && ht.statics == d.table.statics && |ht.statics| == 61
    && d.table.maxSize < ht.maxSize < 0x1_0000_0000
    && sent <= ht.dynamic && d.table.dynamic <= sent + older && AllNew(sent, ht.statics) && HeadersFit(sent)
  }

  lemma AddKeepsFilling(ht: HeaderTable, d: DecoderState, h: Header, sent: seq<Header>, older: seq<Header>)
    requires Filling(ht, d, sent, older) && Find(ht.All(), h).None? && HeaderFits(h)
    requires TableSize(sent) + EntrySize(h) <= ht.maxSize
    ensures Filling(ht.Add(h), d.(table := d.table.Add(h)), [h] + sent, older)
    ensures TableSize([h] + sent) == TableSize(sent) + EntrySize(h)
  {
    assert ([h] + sent)[1..] == sent;
    AddKeepsFront(ht, h, sent);
    AddIsPrefix(d.table, h, sent, older);
    ht.StaysValid(h, 0);
    NewAmong(ht, h, sent);
  }

  lemma NewAmong(ht: HeaderTable, h: Header, sent: seq<Header>)
    requires sent <= ht.dynamic && AllNew(sent, ht.statics) && Find(ht.All(), h).None?
    ensures AllNew([h] + sent, ht.statics)
  {
    forall j | 0 <= j < |sent|
      ensures sent[j].name != h.name
    {
      assert ht.All()[|ht.statics| + j] == sent[j];
    }
    forall j | 0 <= j < |ht.statics|
      ensures ht.statics[j].name != h.name
    {
      assert ht.All()[j] == ht.statics[j];
    }
  }

  // ---- The session that fails ----

  lemma FullIsExact(ht: HeaderTable, sent: seq<Header>)
    requires ht.Valid() && sent <= ht.dynamic && TableSize(sent) == ht.maxSize
    ensures ht.dynamic == sent
  {
    var older := ht.dynamic[|sent|..];
    assert ht.dynamic == sent + older;
    SizeAppend(sent, older);
    NoEntryBelow32(older);
  }

  lemma LongerIsLarger(entries: seq<Header>, sent: seq<Header>, older: seq<Header>)
    requires entries <= sent + older
    ensures |sent| <= |entries| ==> TableSize(sent) <= TableSize(entries)
  {
    if |sent| <= |entries| {
      SizeAppend(sent, entries[|sent|..]);
      assert entries == sent + entries[|sent|..];
    }
  }

  lemma DecoderHasFewer(d: DecoderState, sent: seq<Header>, older: seq<Header>)
    requires d.table.Valid() && d.table.dynamic <= sent + older && d.table.maxSize < TableSize(sent)
    ensures |d.table.dynamic| < |sent|
  {
    LongerIsLarger(d.table.dynamic, sent, older);
  }

  /** With the encoder's table full of new names, the oldest is sent as an index that the
      decoder does not have. */
  lemma OldestIsRefused(ht: HeaderTable, d: DecoderState, sent: seq<Header>, older: seq<Header>)
    requires Filling(ht, d, sent, older) && sent != [] && TableSize(sent) == ht.maxSize
    ensures DecodeBlock(d, EncodeBlock(ht, [sent[|sent| - 1]]).0).error.Some?
  {
    var h, index := sent[|sent| - 1], 61 + |sent|;
    FullIsExact(ht, sent);
    DecoderHasFewer(d, sent, older);
    BlockOfOne(ht, h);
    OldestIsFound(ht, sent);
    EntryCount(sent);
    IndexAlone(d, index);
  }

  lemma OldestIsFound(ht: HeaderTable, sent: seq<Header>)
    requires ht.dynamic == sent && sent != [] && |ht.statics| == 61 && AllNew(sent, ht.statics)
    ensures Find(ht.All(), sent[|sent| - 1]) == Some((61 + |sent|, true))
  {
    var h := sent[|sent| - 1];
    assert ht.All()[61 + |sent| - 1] == h;
    forall i | 0 <= i < 61 + |sent| - 1
      ensures ht.All()[i].name != h.name
    {
      if i >= 61 {
        assert ht.All()[i] == sent[i - 61];
      }
    }
  }

  /** A new header of a given size. */
  lemma NewHeader(ht: HeaderTable, size: nat) returns (h: Header)
    requires 36 <= size <= 36 + 0x1000_0000 && |ht.All()| < 0x1_0000_0000
    ensures Find(ht.All(), h).None? && HeaderFits(h) && EntrySize(h) == size
  {
    var name := NewName(ht.All());
    h := Header(name, seq(size - 36, i => 0));
  }

  lemma {:induction false} FailingSession(ht: HeaderTable, d: DecoderState, sent: seq<Header>, older: seq<Header>, remaining: nat)
    returns (lists: seq<seq<Header>>)
    requires Filling(ht, d, sent, older) && TableSize(sent) + remaining == ht.maxSize
    requires if remaining == 0 then sent != [] else remaining >= 36
    ensures AllFit(lists) && !Decodes(ht, d, lists)
    decreases remaining
  {
    if remaining == 0 {
      OldestIsRefused(ht, d, sent, older);
      lists := [[sent[|sent| - 1]]];
    } else {
      var size := if remaining <= 36 + 0x1000_0000 then remaining else 0x800_0000;
      EntryCount(ht.dynamic);
      var h := NewHeader(ht, size);
      AddKeepsFilling(ht, d, h, sent, older);
      var rest := FailingSession(ht.Add(h), d.(table := d.table.Add(h)), [h] + sent, older, remaining - size);
      lists := [[h]] + rest;
      FailsLater(ht, d, h, rest);
    }
  }

  lemma FailsLater(ht: HeaderTable, d: DecoderState, h: Header, rest: seq<seq<Header>>)
    requires Find(ht.All(), h).None? && HeaderFits(h) && AllFit(rest)
    requires !Decodes(ht.Add(h), d.(table := d.table.Add(h)), rest)
    ensures AllFit([[h]] + rest) && !Decodes(ht, d, [[h]] + rest)
  {
    var all := [[h]] + rest;
    NewHeaderDecodes(ht, d, h);
    assert all[0] == [h] && all[1..] == rest;
    FirstDecodes(ht, d, all, ht.Add(h), d.(table := d.table.Add(h)));
    FitsInFront([h], rest);
  }

  lemma FirstDecodes(ht: HeaderTable, d: DecoderState, lists: seq<seq<Header>>, ht': HeaderTable, d': DecoderState)
    requires lists != [] && EncodeBlock(ht, lists[0]).1 == ht'
    requires DecodeBlock(d, EncodeBlock(ht, lists[0]).0) == Decoded(lists[0], d', None)
    ensures Decodes(ht, d, lists) <==> Decodes(ht', d', lists[1..])
  {
  }

  lemma FitsInFront(list: seq<Header>, rest: seq<seq<Header>>)
    requires HeadersFit(list) && AllFit(rest)
    ensures AllFit([list] + rest)
  {
  }

  /** A size too small for a name of four octets is filled by one header: its name is longer
      than any in the tables. */
  lemma FailingSmallSession(ht: HeaderTable, d: DecoderState) returns (lists: seq<seq<Header>>)
    requires Filling(ht, d, [], d.table.dynamic) && 32 <= ht.maxSize < 36 && TableSize(ht.dynamic) <= d.table.maxSize
    requires NoZeroName(ht.statics)
    ensures AllFit(lists) && !Decodes(ht, d, lists)
  {
    var h := Header(seq(ht.maxSize - 32, i => 0), []);
    LongNameIsNew(ht, d, h);
    AddKeepsFilling(ht, d, h, [], d.table.dynamic);
    var rest := FailingSession(ht.Add(h), d.(table := d.table.Add(h)), [h] + [], d.table.dynamic, 0);
    lists := [[h]] + rest;
    FailsLater(ht, d, h, rest);
  }

  /** No static name is empty or starts with a zero octet. */
  ghost predicate NoZeroName(statics: seq<Header>) {
    forall i :: 0 <= i < |statics| ==> statics[i].name != [] && statics[i].name[0] != 0
  }

  lemma LongNameIsNew(ht: HeaderTable, d: DecoderState, h: Header)
    requires NoZeroName(ht.statics) && TableSize(ht.dynamic) <= d.table.maxSize < ht.maxSize
    requires 32 <= ht.maxSize && |h.name| == ht.maxSize - 32 && (h.name != [] ==> h.name[0] == 0)
    ensures Find(ht.All(), h).None?
  {
    forall i | 0 <= i < |ht.All()|
      ensures ht.All()[i].name != h.name
    {
      if i >= |ht.statics| {
        MemberSize(ht.dynamic, i - |ht.statics|);
      }
    }
  }

  // ---- Exactly which sizes are safe ----

  /** A size that is told to the encoder alone keeps every later session readable if and only
      if it is no larger than the decoder's, or too small for any entry. */
  lemma EncoderSizeSafeIff(ht: HeaderTable, d: DecoderState, n: nat)
    requires Follows(ht, d.table) && |ht.statics| == 61 && (32 <= n < 36 ==> NoZeroName(ht.statics))
    requires d.table.maxSize < 0x1_0000_0000 && n < 0x1_0000_0000
    ensures AlwaysDecodes(ht.Resize(n), d) <==> n <= d.table.maxSize || n < 32
  {
    if n <= d.table.maxSize {
      SizesUpToDecoders(ht, d, n);
    } else if n < 32 {
      SmallSizeIsSafe(ht, d, n);
    } else {
      LargerSizeFails(ht, d, n);
    }
  }

  lemma SizesUpToDecoders(ht: HeaderTable, d: DecoderState, n: nat)
    requires Follows(ht, d.table) && |ht.statics| == 61 && n <= d.table.maxSize < 0x1_0000_0000
    ensures AlwaysDecodes(ht.Resize(n), d)
  {
    ResizeKeepsFollowing(ht, d.table, n);
    forall lists | AllFit(lists)
      ensures Decodes(ht.Resize(n), d, lists)
    {
      FollowingDecodes(ht.Resize(n), d, lists);
    }
  }

  lemma SmallSizeIsSafe(ht: HeaderTable, d: DecoderState, n: nat)
    requires Follows(ht, d.table) && d.table.maxSize < n < 32
    ensures AlwaysDecodes(ht.Resize(n), d)
  {
    NoEntryBelow32(d.table.dynamic);
    assert ht.dynamic == [] && Fit([], n) == [];
    forall lists | AllFit(lists)
      ensures Decodes(ht.Resize(n), d, lists)
    {
      FollowingDecodes(ht, d, lists);
      AlikeDecodes(ht.Resize(n), ht, d, lists);
    }
  }

  lemma StartsFilling(ht: HeaderTable, d: DecoderState, n: nat)
    requires Follows(ht, d.table) && |ht.statics| == 61 && d.table.maxSize < n < 0x1_0000_0000
    ensures ht.Resize(n).dynamic == ht.dynamic && Filling(ht.Resize(n), d, [], d.table.dynamic)
  {
    assert [] + d.table.dynamic == d.table.dynamic;
  }

  lemma LargerSizeFails(ht: HeaderTable, d: DecoderState, n: nat)
    requires Follows(ht, d.table) && |ht.statics| == 61 && (n < 36 ==> NoZeroName(ht.statics))
    requires d.table.maxSize < n < 0x1_0000_0000 && n >= 32
    ensures !AlwaysDecodes(ht.Resize(n), d)
  {
    var larger := ht.Resize(n);
    StartsFilling(ht, d, n);
    if n < 36 {
      var lists := FailingSmallSession(larger, d);
      assert AllFit(lists) && !Decodes(larger, d, lists);
    } else {
      var lists := FailingSession(larger, d, [], d.table.dynamic, n);
      assert AllFit(lists) && !Decodes(larger, d, lists);
    }
  }

  /** For peers with empty tables of the default size: exactly the sizes up to it. */
  lemma DefaultSizeSafeIff(ht: HeaderTable, d: DecoderState, n: nat)
    requires ht == d.table && ht.dynamic == [] && ht.maxSize == 4096 && |ht.statics| == 61 && n < 0x1_0000_0000
    ensures AlwaysDecodes(ht.Resize(n), d) <==> n <= 4096
  {
    if n <= 4096 {
      SizesUpToDecoders(ht, d, n);
    } else {
      LargerSizeFails(ht, d, n);
    }
  }
}
