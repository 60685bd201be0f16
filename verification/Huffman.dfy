/** The Huffman decoder of HPACK over a code table, and exactly which inputs it
    accepts (section 5.2 of RFC 7541). */
module Huffman {
  import opened Common
  import opened BitStrings

  const EOS := 256
  const MAX_LENGTH := 30

  /** A code point and its length in bits. */
  datatype Code = Code(point: nat, length: nat)

  /** One code for each octet, then the code of the end-of-string symbol. */
  type CodeTable = seq<Code>

  datatype HuffmanError = PaddingTooLarge | InvalidPadding | EosInString

  type HuffmanResult = Result<Bytes, HuffmanError>

  // ---- Complete prefix codes ----

  function CodeBits(table: CodeTable, symbol: nat): Bits
    requires symbol < |table|
  {
    BitsOf(table[symbol].point, table[symbol].length)
  }

  ghost predicate PrefixFree(table: CodeTable) {
    forall a, b | 0 <= a < |table| && 0 <= b < |table| && CodeBits(table, a) <= CodeBits(table, b) :: a == b
  }

  /** Bits that start with no code. */
  ghost predicate NoCode(table: CodeTable, bits: Bits) {
    forall symbol | 0 <= symbol < |table| :: !(CodeBits(table, symbol) <= bits)
  }

  /** Any thirty bits start with a code. */
  ghost predicate Complete(table: CodeTable) {
    forall bits: Bits | |bits| == MAX_LENGTH :: !NoCode(table, bits)
  }

  ghost predicate Fits(table: CodeTable) {
    forall symbol | 0 <= symbol < |table| :: 1 <= table[symbol].length && table[symbol].point < Pow2(table[symbol].length)
  }

  /** What the decoder relies on. EOS is thirty ones, as appendix B of RFC 7541 has it. */
  ghost predicate GoodTable(table: CodeTable) {
    && |table| == EOS + 1
    && table[EOS] == Code(0x3fff_ffff, 30)
    && Fits(table)
    && PrefixFree(table)
    && Complete(table)
  }

  /** At most one code starts a string. */
  lemma SamePrefix(table: CodeTable, a: nat, b: nat, bits: Bits)
    requires PrefixFree(table) && a < |table| && b < |table|
    requires CodeBits(table, a) <= bits && CodeBits(table, b) <= bits
    ensures a == b
  {
    PrefixesCompare(CodeBits(table, a), CodeBits(table, b), bits);
  }

  lemma PrefixesCompare(a: Bits, b: Bits, bits: Bits)
    requires a <= bits && b <= bits
    ensures a <= b || b <= a
  {
  }

  // ---- The decoder's nested map ----

  /** The symbol a code was last inserted for. */
  function Lookup(table: CodeTable, point: nat, length: nat): (found: Option<nat>)
    ensures found.Some? ==> found.value < |table| && table[found.value] == Code(point, length)
    ensures found.None? ==> Code(point, length) !in table
  {
    var last := |table| - 1;
    if table == [] then None
    else if table[last] == Code(point, length) then Some(last)
    else Lookup(table[..last], point, length)
  }

  /** Looking up a bit string finds the symbol whose code it is, and nothing else. */
  lemma LookupExact(table: CodeTable, bits: Bits, symbol: nat)
    requires Fits(table) && PrefixFree(table) && symbol < |table|
    ensures Lookup(table, ValueOf(bits), |bits|) == Some(symbol) <==> bits == CodeBits(table, symbol)
  {
    ValueBitsInverse(bits);
    var code := table[symbol];
    BitsValueInverse(code.point, code.length);
    var found := Lookup(table, ValueOf(bits), |bits|);
    if bits == CodeBits(table, symbol) {
      assert Code(ValueOf(bits), |bits|) == code;
      assert CodeBits(table, found.value) <= CodeBits(table, symbol);
    }
  }

  /** One more bit completes a code or leaves bits that start with none; and
      before thirty bits are read a code is complete. */
  lemma OneMoreBit(table: CodeTable, bits: Bits, b: bool)
    requires GoodTable(table) && NoCode(table, bits) && |bits| < MAX_LENGTH
    ensures Lookup(table, ValueOf(bits + [b]), |bits| + 1).None? ==>
              NoCode(table, bits + [b]) && |bits| + 1 < MAX_LENGTH
  {
    var next := bits + [b];
    if Lookup(table, ValueOf(next), |next|).None? {
      forall symbol | 0 <= symbol < |table|
        ensures !(CodeBits(table, symbol) <= next)
      {
        LookupExact(table, next, symbol);
        PrefixOfSnoc(CodeBits(table, symbol), bits, b);
      }
    }
  }

  lemma NothingStartsEmpty(table: CodeTable)
    requires GoodTable(table)
    ensures NoCode(table, []) && ValueOf([]) == 0
  {
  }

  // ---- What a decoder is asked to invert ----

  function EncodeBits(table: CodeTable, s: Bytes): Bits
    requires |table| == EOS + 1
  {
    if s == [] then [] else CodeBits(table, s[0]) + EncodeBits(table, s[1..])
  }

  function BufferBits(buf: Bytes): Bits {
    if buf == [] then [] else BitsOf(buf[0], 8) + BufferBits(buf[1..])
  }

  // ---- The decoder ----

  /** The padding check: at most 7 bits, and equal to the top bits of EOS, both
      aligned to the top of a 32-bit word. */
  function CheckPadding(eos: Code, current: nat, length: nat, decoded: Bytes): HuffmanResult
    requires eos.length <= 32
  {
    if length > 7 then Err(PaddingTooLarge)
    else
      var alignedCurrent := if length == 0 then 0 else current * Pow2(32 - length);
      var alignedEos := eos.point * Pow2(32 - eos.length);
      var eosMask := if length == 0 then 0 else alignedEos / Pow2(32 - length) * Pow2(32 - length);
      if eosMask != alignedCurrent then Err(InvalidPadding) else Ok(decoded)
  }

  function DecodeBits(table: CodeTable, bits: Bits, current: nat, length: nat, decoded: Bytes): HuffmanResult
    requires |table| == EOS + 1 && table[EOS].length <= 32
    decreases |bits|
  {
    if bits == [] then CheckPadding(table[EOS], current, length, decoded)
    else
      var current' := 2 * current + if bits[0] then 1 else 0;
      match Lookup(table, current', length + 1)
      case None => DecodeBits(table, bits[1..], current', length + 1, decoded)
      case Some(symbol) =>
        if symbol == EOS then Err(EosInString) else DecodeBits(table, bits[1..], 0, 0, decoded + [symbol])
  }

  function HuffmanDecode(table: CodeTable, buf: Bytes): HuffmanResult
    requires |table| == EOS + 1 && table[EOS].length <= 32
  {
    DecodeBits(table, BufferBits(buf), 0, 0, [])
  }

  // ---- Exactness ----

  lemma PaddingIsOnes(bits: Bits, decoded: Bytes)
    ensures CheckPadding(Code(0x3fff_ffff, 30), ValueOf(bits), |bits|, decoded) ==
            if |bits| > 7 then Err(PaddingTooLarge)
            else if bits == Ones(|bits|) then Ok(decoded) else Err(InvalidPadding)
  {
    OnesValue(bits);
    ValueBitsInverse(bits);
    PaddingArithmetic(ValueOf(bits), |bits|, decoded);
  }

  lemma PaddingArithmetic(current: nat, length: nat, decoded: Bytes)
    requires current < Pow2(length)
    ensures CheckPadding(Code(0x3fff_ffff, 30), current, length, decoded) ==
            if length > 7 then Err(PaddingTooLarge)
            else if current == Pow2(length) - 1 then Ok(decoded) else Err(InvalidPadding)
  {
    PowerValues();
    if 0 < length <= 7 {
      TopOnes(length);
      MulCancel(Pow2(length) - 1, current, Pow2(32 - length));
    }
  }

  /** The top bits of EOS are ones. */
  lemma TopOnes(length: nat)
    requires 0 < length <= 7
    ensures 0xFFFF_FFFC / Pow2(32 - length) == Pow2(length) - 1
  {
    PowerValues();
  }

  lemma MulCancel(a: nat, b: nat, unit: nat)
    requires unit >= 1
    ensures a * unit == b * unit <==> a == b
  {
    MulSign(a - b, unit);
  }

  /** The result read off a split of the input into the codes of `t` and a rest. */
  ghost predicate ReadsOff(table: CodeTable, r: HuffmanResult, decoded: Bytes, t: Bytes, rest: Bits)
    requires GoodTable(table)
  {
    || (CodeBits(table, EOS) <= rest && r == Err(EosInString))
    || (&& NoCode(table, rest) && |rest| < MAX_LENGTH
        && r == CheckPadding(table[EOS], ValueOf(rest), |rest|, decoded + t))
  }

  /** Every input splits so, from any point of a decoding. */
  lemma {:induction false} Splits(table: CodeTable, bits: Bits, current: Bits, decoded: Bytes) returns (t: Bytes, rest: Bits)
    requires GoodTable(table) && NoCode(table, current) && |current| < MAX_LENGTH
    ensures current + bits == EncodeBits(table, t) + rest
    ensures ReadsOff(table, DecodeBits(table, bits, ValueOf(current), |current|, decoded), decoded, t, rest)
    decreases |bits|
  {
    if bits == [] {
      t, rest := [], current;
      assert current + bits == current && decoded + t == decoded;
    } else {
      var next := current + [bits[0]];
      ReadBit(table, bits, current, decoded);
      OneMoreBit(table, current, bits[0]);
      var found := Lookup(table, ValueOf(next), |next|);
      if found.None? {
        t, rest := Splits(table, bits[1..], next, decoded);
      } else {
        LookupExact(table, next, found.value);
        if found.value == EOS {
          t, rest := [], current + bits;
          assert [] + rest == rest;
        } else {
          var symbol: Byte := found.value;
          NothingStartsEmpty(table);
          t, rest := Splits(table, bits[1..], [], decoded + [symbol]);
          Prepend(table, symbol, t, rest, bits[1..], decoded, DecodeBits(table, bits[1..], 0, 0, decoded + [symbol]));
          t := [symbol] + t;
        }
      }
    }
  }

  /** A symbol in front of a split. */
  lemma Prepend(table: CodeTable, symbol: Byte, t: Bytes, rest: Bits, bits: Bits, decoded: Bytes, r: HuffmanResult)
    requires GoodTable(table) && [] + bits == EncodeBits(table, t) + rest && ReadsOff(table, r, decoded + [symbol], t, rest)
    ensures CodeBits(table, symbol) + bits == EncodeBits(table, [symbol] + t) + rest
    ensures ReadsOff(table, r, decoded, [symbol] + t, rest)
  {
    assert ([symbol] + t)[1..] == t;
    assert [] + bits == bits;
    Reassociate(CodeBits(table, symbol), EncodeBits(table, t), rest);
    Reassociate(decoded, [symbol], t);
  }

  /** One bit is read, with the bits of the current code kept as bits. */
  lemma ReadBit(table: CodeTable, bits: Bits, current: Bits, decoded: Bytes)
    requires GoodTable(table) && bits != []
    ensures var next := current + [bits[0]];
            && current + bits == next + bits[1..] && |next| == |current| + 1
            && DecodeBits(table, bits, ValueOf(current), |current|, decoded) ==
               match Lookup(table, ValueOf(next), |next|)
               case None => DecodeBits(table, bits[1..], ValueOf(next), |next|, decoded)
               case Some(symbol) =>
                 if symbol == EOS then Err(EosInString) else DecodeBits(table, bits[1..], 0, 0, decoded + [symbol])
  {
    ValueSnoc(current, bits[0]);
  }

  /** At most seven ones decode to nothing more. */
  lemma {:induction false} AcceptsOnes(table: CodeTable, bits: Bits, current: Bits, decoded: Bytes, pad: nat)
    requires GoodTable(table) && pad <= 7 && current + bits == Ones(pad)
    ensures DecodeBits(table, bits, ValueOf(current), |current|, decoded) == Ok(decoded)
    decreases |bits|
  {
    if bits == [] {
      assert current == Ones(pad);
      PaddingIsOnes(current, decoded);
    } else {
      var next := current + [bits[0]];
      ReadBit(table, bits, current, decoded);
      NoShortOnes(table, next, pad, bits[1..]);
      AcceptsOnes(table, bits[1..], next, decoded, pad);
    }
  }

  lemma SomeBitsLeft(table: CodeTable, bits: Bits, current: Bits, t: Bytes, pad: nat)
    requires GoodTable(table) && t != [] && current + bits == EncodeBits(table, t) + Ones(pad)
    requires |current| < |CodeBits(table, t[0])|
    ensures bits != []
  {
    assert |current + bits| >= |EncodeBits(table, t)| >= |CodeBits(table, t[0])|;
  }

  /** Bits that are the codes of `t` and then at most seven ones decode to `t`. */
  lemma {:induction false} Accepts(table: CodeTable, bits: Bits, current: Bits, decoded: Bytes, t: Bytes, pad: nat)
    requires GoodTable(table) && pad <= 7 && current + bits == EncodeBits(table, t) + Ones(pad)
    requires t != [] ==> |current| < |CodeBits(table, t[0])|
    ensures DecodeBits(table, bits, ValueOf(current), |current|, decoded) == Ok(decoded + t)
    decreases |bits|
  {
    if t == [] {
      assert EncodeBits(table, t) + Ones(pad) == Ones(pad) && decoded + t == decoded;
      AcceptsOnes(table, bits, current, decoded, pad);
    } else {
      SomeBitsLeft(table, bits, current, t, pad);
      var next := current + [bits[0]];
      ReadBit(table, bits, current, decoded);
      FirstCode(table, next, bits[1..], t, pad);
      if Lookup(table, ValueOf(next), |next|).None? {
        Accepts(table, bits[1..], next, decoded, t, pad);
      } else {
        Accepts(table, bits[1..], [], decoded + [t[0]], t[1..], pad);
        assert decoded + [t[0]] + t[1..] == decoded + t;
      }
    }
  }

  /** Reading towards the first code of `t`: the look-up succeeds when that code
      is complete, not before, and then it gives that symbol. */
  lemma FirstCode(table: CodeTable, next: Bits, more: Bits, t: Bytes, pad: nat)
    requires GoodTable(table) && t != [] && next + more == EncodeBits(table, t) + Ones(pad)
    requires |next| <= |CodeBits(table, t[0])|
    ensures match Lookup(table, ValueOf(next), |next|)
            case None => |next| < |CodeBits(table, t[0])|
            case Some(symbol) =>
              && symbol == t[0]
              && [] + more == EncodeBits(table, t[1..]) + Ones(pad)
              && (t[1..] != [] ==> |CodeBits(table, t[1..][0])| >= 1)
  {
    var all, code := next + more, CodeBits(table, t[0]);
    LookupExact(table, next, t[0]);
    var found := Lookup(table, ValueOf(next), |next|);
    Reassociate(code, EncodeBits(table, t[1..]), Ones(pad));
    SplitPoint(next, more, code, EncodeBits(table, t[1..]) + Ones(pad));
    if found.Some? {
      LookupExact(table, next, found.value);
      SamePrefix(table, found.value, t[0], all);
      assert [] + more == more;
    }
  }

  /** Two splits of the same string. */
  lemma SplitPoint(a: Bits, b: Bits, c: Bits, d: Bits)
    requires a + b == c + d && |a| <= |c|
    ensures a <= a + b && c <= a + b && (|a| == |c| ==> a == c) && (a == c ==> b == d)
  {
    assert a == (a + b)[..|a|] && c == (c + d)[..|c|];
    assert b == (a + b)[|a|..] && d == (c + d)[|c|..];
  }

  /** EOS is thirty ones, so no code is made of seven ones or fewer. */
  lemma NoShortOnes(table: CodeTable, bits: Bits, pad: nat, more: Bits)
    requires GoodTable(table) && pad <= 7 && bits + more == Ones(pad)
    ensures Lookup(table, ValueOf(bits), |bits|).None?
  {
    EosIsOnes(table);
    forall i | 0 <= i < |bits|
      ensures bits[i]
    {
      assert (bits + more)[i] == bits[i];
    }
    assert bits <= CodeBits(table, EOS);
    forall symbol | 0 <= symbol < |table|
      ensures Lookup(table, ValueOf(bits), |bits|) != Some(symbol)
    {
      LookupExact(table, bits, symbol);
    }
  }

  lemma EosIsOnes(table: CodeTable)
    requires GoodTable(table)
    ensures CodeBits(table, EOS) == Ones(MAX_LENGTH)
  {
    PowerValues();
    BitsValueInverse(0x3fff_ffff, 30);
    OnesValue(CodeBits(table, EOS));
  }

  /** A buffer decodes to `s` exactly when its bits are the codes of `s` followed
      by at most seven one-bits. */
  lemma HuffmanExact(table: CodeTable, buf: Bytes, s: Bytes)
    requires GoodTable(table)
    ensures HuffmanDecode(table, buf) == Ok(s) <==>
            exists pad :: 0 <= pad <= 7 && BufferBits(buf) == EncodeBits(table, s) + Ones(pad)
  {
    var bits := BufferBits(buf);
    assert [] + bits == bits && [] + s == s;
    NothingStartsEmpty(table);
    if HuffmanDecode(table, buf) == Ok(s) {
      var t, rest := Splits(table, bits, [], []);
      PaddingIsOnes(rest, [] + t);
      assert [] + t == t;
      assert bits == EncodeBits(table, s) + Ones(|rest|);
    }
    forall pad | 0 <= pad <= 7 && bits == EncodeBits(table, s) + Ones(pad)
      ensures HuffmanDecode(table, buf) == Ok(s)
    {
      Accepts(table, bits, [], [], s, pad);
    }
  }

  /** Every buffer: its bits are the codes of some `t` and a rest. The rest starts
      with EOS and is refused for that; or no code starts it, it is shorter than
      thirty bits, and it is refused as padding unless it is at most seven ones. */
  lemma HuffmanClassifies(table: CodeTable, buf: Bytes) returns (t: Bytes, rest: Bits)
    requires GoodTable(table)
    ensures BufferBits(buf) == EncodeBits(table, t) + rest
    ensures || (CodeBits(table, EOS) <= rest && HuffmanDecode(table, buf) == Err(EosInString))
            || (&& NoCode(table, rest) && |rest| < MAX_LENGTH
                && HuffmanDecode(table, buf) == if |rest| > 7 then Err(PaddingTooLarge)
                                         else if rest == Ones(|rest|) then Ok(t) else Err(InvalidPadding))
  {
    var bits := BufferBits(buf);
    NothingStartsEmpty(table);
    t, rest := Splits(table, bits, [], []);
    assert [] + bits == bits && [] + t == t;
    PaddingIsOnes(rest, t);
  }

  // ---- The decoder as it runs ----

  /** `BitIterator`: the bits of a buffer, from the top bit of each byte down. */
  class BitIterator {
    const buf: Bytes
    var consumed: nat
    var currentByte: Option<Byte>
    var pos: nat

    ghost predicate Valid()
      reads this
    {
      consumed <= |buf| && pos <= 7
    }

    ghost function Remaining(): Bits
      requires Valid()
      reads this
    {
      (if currentByte.Some? then BitsOf(currentByte.value, pos + 1) else []) + BufferBits(buf[consumed..])
    }

    constructor (buf: Bytes)
      ensures Valid() && this.buf == buf && Remaining() == BufferBits(buf)
    {
      this.buf := buf;
      consumed, currentByte, pos := 0, None, 7;
      new;
      assert buf[0..] == buf;
    }

    method Next() returns (bit: Option<bool>)
      requires Valid()
      modifies this
      ensures Valid()
      ensures bit.None? ==> old(Remaining()) == [] == Remaining()
      ensures bit.Some? ==> old(Remaining()) == [bit.value] + Remaining()
    {
      if currentByte.None? {
        if consumed < |buf| {
          assert buf[consumed..][1..] == buf[consumed + 1..];
          currentByte := Some(buf[consumed]);
          consumed := consumed + 1;
        }
        pos := 7;
      }
      if currentByte.None? {
        return None;
      }
      var isSet := TakeTop();
      bit := Some(isSet);
    }

    /** The top bit of what is left of the current byte. */
    method TakeTop() returns (isSet: bool)
      requires Valid() && currentByte.Some?
      modifies this`currentByte, this`pos
      ensures Valid() && old(Remaining()) == [isSet] + Remaining()
    {
      TopBit(currentByte.value, pos);
      isSet := currentByte.value / Pow2(pos) % 2 == 1;
      if pos == 0 {
        currentByte := None;
      } else {
        pos := pos - 1;
      }
    }
  }

  /** Of the low `pos + 1` bits, the first is bit `pos`. */
  lemma {:induction false} TopBit(value: nat, pos: nat)
    ensures BitsOf(value, pos + 1) == [value / Pow2(pos) % 2 == 1] + BitsOf(value, pos)
  {
    if pos > 0 {
      TopBit(value / 2, pos - 1);
      assert BitsOf(value, pos + 1) == BitsOf(value / 2, pos) + [value % 2 == 1];
      assert value / 2 / Pow2(pos - 1) == value / Pow2(pos) by { DivTwice(value, Pow2(pos - 1)); }
    } else {
      assert BitsOf(value, 1) == BitsOf(value / 2, 0) + [value % 2 == 1];
    }
  }

  lemma DivTwice(value: nat, d: nat)
    requires d >= 1
    ensures value / 2 / d == value / (2 * d)
  {
    var half := value / 2;
    var q, r := half / d, half % d;
    assert value == 2 * (q * d + r) + value % 2;
    assert value == q * (2 * d) + (2 * r + value % 2);
    DivModUnique(q, 2 * r + value % 2, 2 * d);
  }

  /** What the nested map holds for a code. */
  function Found(map2: map<nat, map<nat, nat>>, point: nat, length: nat): Option<nat> {
    if length in map2 && point in map2[length] then Some(map2[length][point]) else None
  }

  class HuffmanDecoder {
    var table: map<nat, map<nat, nat>>
    var eosCodepoint: Code
    ghost const codes: CodeTable

    ghost predicate Valid()
      reads this
    {
      && |codes| == EOS + 1 && eosCodepoint == codes[EOS]
      && forall point, length :: Found(table, point, length) == Lookup(codes, point, length)
    }

    /** `from_table`, which panics unless there are 257 codes. */
    constructor FromTable(codes: CodeTable)
      requires |codes| == EOS + 1
      ensures Valid() && this.codes == codes
    {
      var decoderTable: map<nat, map<nat, nat>> := map[];
      for symbol := 0 to |codes|
        invariant forall point, length ::
          Found(decoderTable, point, length) == Lookup(codes[..symbol], point, length)
      {
        var Code(point, length) := codes[symbol];
        var subtable := if length in decoderTable then decoderTable[length] else map[];
        decoderTable := decoderTable[length := subtable[point := symbol]];
        assert codes[..symbol + 1][..symbol] == codes[..symbol];
      }
      assert codes[..|codes|] == codes;
      table := decoderTable;
      eosCodepoint := codes[EOS];
      this.codes := codes;
    }

    /** The accumulator holds `read`, which starts with no code. */
    ghost predicate Accumulated(read: Bits, current: nat, currentLen: nat) {
      && NoCode(codes, read) && currentLen == |read| < MAX_LENGTH
      && current == ValueOf(read) && current < 0x4000_0000
    }

    /** `decode`. With a good table the 32-bit accumulator holds at most 29 bits
        between look-ups, so no shift loses a bit. */
    method Decode(buf: Bytes) returns (r: HuffmanResult)
      requires Valid() && GoodTable(codes)
      ensures r == HuffmanDecode(codes, buf)
    {
      var current: nat, currentLen: nat := 0, 0;
      var result: Bytes := [];
      ghost var read: Bits := [];
      NothingStartsEmpty(codes);
      var bits := new BitIterator(buf);
      ghost var todo := bits.Remaining();
      var bit := bits.Next();
      while bit.Some?
        invariant bits.Valid() && fresh(bits)
        invariant bit.Some? ==> todo == [bit.value] + bits.Remaining()
        invariant bit.None? ==> todo == []
        invariant Accumulated(read, current, currentLen)
        invariant DecodeBits(codes, todo, current, currentLen, result) == HuffmanDecode(codes, buf)
        decreases |todo|
      {
        var isEos;
        todo := bits.Remaining();
        current, currentLen, result, isEos, read := TakeBit(bit.value, current, currentLen, result, read, todo);
        if isEos {
          return Err(EosInString);
        }
        bit := bits.Next();
      }
      r := CheckPadding(eosCodepoint, current, currentLen, result);
    }

    /** One turn of the loop of `decode`. */
    method TakeBit(bit: bool, current: nat, currentLen: nat, result: Bytes, ghost read: Bits, ghost todo: Bits)
      returns (current': nat, currentLen': nat, result': Bytes, isEos: bool, ghost read': Bits)
      requires Valid() && GoodTable(codes) && Accumulated(read, current, currentLen)
      ensures isEos ==> DecodeBits(codes, [bit] + todo, current, currentLen, result) == Err(EosInString)
      ensures !isEos ==>
        && Accumulated(read', current', currentLen')
        && DecodeBits(codes, [bit] + todo, current, currentLen, result) == DecodeBits(codes, todo, current', currentLen', result')
    {
      assert ([bit] + todo)[1..] == todo;
      ValueSnoc(read, bit);
      OneMoreBit(codes, read, bit);
      read', result', isEos := read + [bit], result, false;
      currentLen' := currentLen + 1;
      current' := 2 * current;
      if bit {
        current' := current' + 1;
      }
      var found := Found(table, current', currentLen');
      if found.Some? {
        if found.value == EOS {
          isEos := true;
        } else {
          NothingStartsEmpty(codes);
          result' := result + [found.value];
          current', currentLen', read' := 0, 0, [];
        }
      } else {
        AccumulatorFits(read');
      }
    }
  }

  lemma AccumulatorFits(bits: Bits)
    requires |bits| < MAX_LENGTH
    ensures ValueOf(bits) < 0x4000_0000
  {
    ValueBitsInverse(bits);
    PowerValues();
    Pow2Monotone(|bits|, MAX_LENGTH);
  }
}
