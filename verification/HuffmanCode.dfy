/** The HPACK table is a complete prefix code: it is canonical, so the codes of
    one length are consecutive numbers, and the codes of the next length start
    where they ended. */
module HuffmanCode {
  import opened Common
  import opened BitStrings
  import opened Huffman
  import opened HuffmanTable

  /** `HUFFMAN_CODE_TABLE`. */
  function CodesUpTo(last: nat): CodeTable {
    seq(last + 1, (symbol: nat) => Entry(symbol))
  }

  /** A bit string as a code. */
  function AsCode(bits: Bits): Code {
    Code(ValueOf(bits), |bits|)
  }

  function EntryBits(symbol: nat): Bits {
    BitsOf(Entry(symbol).point, Entry(symbol).length)
  }

  lemma LastGroupEnds()
    ensures End(MAX_LENGTH) == Pow2(MAX_LENGTH) && End(0) == 0
  {
    PowerValues();
  }

  lemma {:induction false} GroupFits(length: nat)
    requires length <= MAX_LENGTH
    ensures End(length) <= Pow2(length)
    decreases MAX_LENGTH - length
  {
    if length < MAX_LENGTH {
      GroupFits(length + 1);
      Canonical(length);
    } else {
      LastGroupEnds();
    }
  }

  lemma LengthRange(code: Code)
    requires InGroup(code)
    ensures 5 <= code.length <= MAX_LENGTH
  {
  }

  lemma EntryShape(symbol: nat)
    requires symbol <= EOS
    ensures AsCode(EntryBits(symbol)) == Entry(symbol) && InGroup(Entry(symbol))
    ensures 5 <= Entry(symbol).length <= MAX_LENGTH
    ensures Entry(symbol).point < Pow2(Entry(symbol).length)
  {
    SymbolsLinked(symbol);
    var code := Entry(symbol);
    LengthRange(code);
    GroupFits(code.length);
    BitsValueInverse(code.point, code.length);
  }

  /** A longer string that starts below the end of a group is below the first
      code of its own length. */
  lemma {:induction false} PastCode(bits: Bits, k: nat)
    requires k < |bits| <= MAX_LENGTH && ValueOf(bits[..k]) < End(k)
    ensures ValueOf(bits) < First(|bits|)
    decreases |bits| - k
  {
    Canonical(k);
    assert bits[..k + 1] == bits[..k] + [bits[k]];
    ValueSnoc(bits[..k], bits[k]);
    if k + 1 < |bits| {
      PastCode(bits, k + 1);
    } else {
      assert bits[..k + 1] == bits;
    }
  }

  lemma EntryPrefixFree(a: nat, b: nat)
    requires a <= EOS && b <= EOS && EntryBits(a) <= EntryBits(b)
    ensures a == b
  {
    EntryShape(a);
    EntryShape(b);
    var shorter, longer := EntryBits(a), EntryBits(b);
    assert longer[..|shorter|] == shorter;
    NotPast(longer, |shorter|);
    assert shorter == longer;
    SymbolsLinked(a);
    SymbolsLinked(b);
  }

  lemma NotPast(bits: Bits, k: nat)
    requires k <= |bits| <= MAX_LENGTH && ValueOf(bits[..k]) < End(k) && ValueOf(bits) >= First(|bits|)
    ensures k == |bits|
  {
    if k < |bits| {
      PastCode(bits, k);
    }
  }

  /** Reading on from bits at or past the end of their group, a code is complete
      before the last length, whose group ends at the last number. */
  lemma {:induction false} FindCode(bits: Bits, k: nat) returns (symbol: nat)
    requires k < |bits| == MAX_LENGTH && ValueOf(bits[..k]) >= End(k)
    ensures symbol <= EOS && EntryBits(symbol) <= bits
    decreases |bits| - k
  {
    var next := bits[..k + 1];
    assert next == bits[..k] + [bits[k]];
    ValueSnoc(bits[..k], bits[k]);
    Canonical(k);
    if InGroup(AsCode(next)) {
      CodesLinked(AsCode(next));
      symbol := SymbolOf(AsCode(next));
      ValueBitsInverse(next);
    } else {
      NotLast(next);
      symbol := FindCode(bits, k + 1);
    }
  }

  lemma NotLast(bits: Bits)
    requires |bits| <= MAX_LENGTH && First(|bits|) <= ValueOf(bits) && !InGroup(AsCode(bits))
    ensures |bits| < MAX_LENGTH && ValueOf(bits) >= End(|bits|)
  {
    LastGroupEnds();
    ValueBitsInverse(bits);
  }

  lemma TableBits(symbol: nat)
    requires symbol <= EOS
    ensures CodeBits(CodesUpTo(EOS), symbol) == EntryBits(symbol)
    ensures CodesUpTo(EOS)[symbol] == Entry(symbol)
  {
  }

  lemma TableIsPrefixFree()
    ensures PrefixFree(CodesUpTo(EOS))
  {
    var table := CodesUpTo(EOS);
    forall a, b | 0 <= a < |table| && 0 <= b < |table| && CodeBits(table, a) <= CodeBits(table, b)
      ensures a == b
    {
      TableBits(a);
      TableBits(b);
      EntryPrefixFree(a, b);
    }
  }

  lemma TableIsComplete()
    ensures Complete(CodesUpTo(EOS))
  {
    LastGroupEnds();
    forall bits: Bits | |bits| == MAX_LENGTH
      ensures !NoCode(CodesUpTo(EOS), bits)
    {
      assert bits[..0] == [];
      var symbol := FindCode(bits, 0);
      TableBits(symbol);
    }
  }

  /** Appendix B of RFC 7541 as the source lists it is a complete prefix code of
      257 symbols, with EOS thirty ones: what the decoder relies on. */
  lemma HpackTableIsGood()
    ensures GoodTable(CodesUpTo(EOS))
  {
    TableIsPrefixFree();
    TableIsComplete();
    forall symbol | 0 <= symbol <= EOS
      ensures 1 <= CodesUpTo(EOS)[symbol].length
      ensures CodesUpTo(EOS)[symbol].point < Pow2(CodesUpTo(EOS)[symbol].length)
    {
      TableBits(symbol);
      EntryShape(symbol);
    }
    TableBits(EOS);
    assert Entry(EOS) == Code(0x3fff_ffff, 30);
  }

  function DecodeHpack(buf: Bytes): HuffmanResult {
    assert |CodesUpTo(EOS)| == EOS + 1 && CodesUpTo(EOS)[EOS].length <= 32 by { HpackTableIsGood(); }
    HuffmanDecode(CodesUpTo(EOS), buf)
  }

  /** The decoder of `decode_string`: it returns `s` exactly for the encodings of
      `s` that section 5.2 of RFC 7541 allows. */
  method DecodeHuffmanString(buf: Bytes) returns (r: HuffmanResult)
    ensures r == DecodeHpack(buf)
    ensures forall s :: r == Ok(s) <==>
      exists pad :: 0 <= pad <= 7 && BufferBits(buf) == EncodeBits(CodesUpTo(EOS), s) + Ones(pad)
  {
    HpackTableIsGood();
    var decoder := new HuffmanDecoder.FromTable(CodesUpTo(EOS));
    r := decoder.Decode(buf);
    forall s
      ensures r == Ok(s) <==>
        exists pad :: 0 <= pad <= 7 && BufferBits(buf) == EncodeBits(CodesUpTo(EOS), s) + Ones(pad)
    {
      HuffmanExact(CodesUpTo(EOS), buf, s);
    }
  }
}
