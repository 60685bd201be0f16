/** HPACK integers (section 5.1 of RFC 7541): `encode_integer_into` and `decode_integer`. */
module HpackInteger {
  import opened Common

  datatype IntegerError = TooManyOctets | NotEnoughOctets | InvalidPrefix

  /** What `decode_integer` returns: the value and the number of octets used. */
  datatype Integer = Integer(value: nat, used: nat)

  type IntegerResult = Result<Integer, IntegerError>

  /** The values of the low `prefixSize` bits of an octet: one more than the mask. */
  function PrefixRange(prefixSize: nat): (d: nat)
    ensures 1 <= d <= 256
  {
    if prefixSize == 0 then 1 else if prefixSize == 1 then 2 else if prefixSize == 2 then 4
    else if prefixSize == 3 then 8 else if prefixSize == 4 then 16 else if prefixSize == 5 then 32
    else if prefixSize == 6 then 64 else if prefixSize == 7 then 128 else 256
  }

  /** Octets after the prefix: seven bits each, least significant first, the top
      bit set on all but the last. */
  function EncodeTail(value: nat): Bytes {
    if value < 128 then [value] else [value % 128 + 128] + EncodeTail(value / 128)
  }

  /** `leading_bits & !mask` keeps the bits above the prefix; `|` with a number
      below `PrefixRange` adds it. */
  function FirstOctet(leadingBits: Byte, prefixSize: nat, low: nat): Byte
    requires low < PrefixRange(prefixSize)
  {
    var d := PrefixRange(prefixSize);
    assert leadingBits / d * d + low < 256 by { FirstOctetFits(leadingBits, prefixSize, low); }
    leadingBits / d * d + low
  }

  lemma FirstOctetFits(leadingBits: Byte, prefixSize: nat, low: nat)
    requires low < PrefixRange(prefixSize)
    ensures leadingBits / PrefixRange(prefixSize) * PrefixRange(prefixSize) + low < 256
  {
  }

  function EncodeInteger(value: nat, prefixSize: nat, leadingBits: Byte): Bytes {
    var mask := PrefixRange(prefixSize) - 1;
    if value < mask then [FirstOctet(leadingBits, prefixSize, value)]
    else [FirstOctet(leadingBits, prefixSize, mask)] + EncodeTail(value - mask)
  }

  /** `encode_integer_into`, with the written octets returned. */
  method EncodeIntegerInto(value: nat, prefixSize: nat, leadingBits: Byte) returns (written: Bytes)
    ensures written == EncodeInteger(value, prefixSize, leadingBits)
  {
    var mask := PrefixRange(prefixSize) - 1;
    if value < mask {
      return [FirstOctet(leadingBits, prefixSize, value)];
    }
    written := [FirstOctet(leadingBits, prefixSize, mask)];
    var rest := value - mask;
    while rest >= 128
      invariant rest >= 0 && written + EncodeTail(rest) == EncodeInteger(value, prefixSize, leadingBits)
    {
      written := written + [rest % 128 + 128];
      rest := rest / 128;
    }
    written := written + [rest];
  }

  const OCTET_LIMIT := 5

  /** The octets after the prefix: `total` octets were used, and the next seven
      bits weigh `weight`. */
  function DecodeTail(buf: Bytes, total: nat, value: nat, weight: nat): IntegerResult
    requires 1 <= total < OCTET_LIMIT
    decreases OCTET_LIMIT - total
  {
    if buf == [] then Err(NotEnoughOctets)
    else
      var value' := value + buf[0] % 128 * weight;
      if buf[0] < 128 then Ok(Integer(value', total + 1))
      else if total + 1 == OCTET_LIMIT then Err(TooManyOctets)
      else DecodeTail(buf[1..], total + 1, value', weight * 128)
  }

  function DecodeInteger(buf: Bytes, prefixSize: nat): IntegerResult {
    if !(1 <= prefixSize <= 8) then Err(InvalidPrefix)
    else if buf == [] then Err(NotEnoughOctets)
    else
      var mask := PrefixRange(prefixSize) - 1;
      var value := buf[0] % (mask + 1);
      if value < mask then Ok(Integer(value, 1)) else DecodeTail(buf[1..], 1, value, 1)
  }

  /** `decode_integer` as the source runs it: one pass with a running weight. */
  method DecodeIntegerLoop(buf: Bytes, prefixSize: nat) returns (r: IntegerResult)
    ensures r == DecodeInteger(buf, prefixSize)
  {
    if !(1 <= prefixSize <= 8) {
      return Err(InvalidPrefix);
    }
    if buf == [] {
      return Err(NotEnoughOctets);
    }
    var mask := PrefixRange(prefixSize) - 1;
    var value := buf[0] % (mask + 1);
    if value < mask {
      return Ok(Integer(value, 1));
    }
    r := DecodeTailLoop(buf, value);
  }

  method DecodeTailLoop(buf: Bytes, prefix: nat) returns (r: IntegerResult)
    requires buf != []
    ensures r == DecodeTail(buf[1..], 1, prefix, 1)
  {
    var value, total, weight: nat := prefix, 1, 1;
    while total < |buf|
      invariant 1 <= total < OCTET_LIMIT && total <= |buf| && value >= 0
      invariant DecodeTail(buf[1..], 1, prefix, 1) == DecodeTail(buf[total..], total, value, weight)
    {
      var b := buf[total];
      assert buf[total..][1..] == buf[total + 1..];
      total := total + 1;
      value := value + b % 128 * weight;
      weight := weight * 128;
      if b < 128 {
        return Ok(Integer(value, total));
      }
      if total == OCTET_LIMIT {
        return Err(TooManyOctets);
      }
    }
    r := Err(NotEnoughOctets);
  }

  /** Values that still fit when `total` octets are used: 128^(5 - total). */
  function TailLimit(total: nat): nat
    requires 1 <= total < OCTET_LIMIT
  {
    if total == 4 then 128 else if total == 3 then 16384 else if total == 2 then 2097152 else 268435456
  }

  lemma {:induction false} TailRoundTrip(v: nat, suffix: Bytes, total: nat, value: nat, weight: nat)
    requires 1 <= total < OCTET_LIMIT
    ensures DecodeTail(EncodeTail(v) + suffix, total, value, weight) ==
            if v < TailLimit(total) then Ok(Integer(value + v * weight, total + |EncodeTail(v)|))
            else Err(TooManyOctets)
    decreases v
  {
    var all := EncodeTail(v) + suffix;
    if v >= 128 && total < 4 {
      assert all[1..] == EncodeTail(v / 128) + suffix;
      assert all[0] % 128 == v % 128;
      TailRoundTrip(v / 128, suffix, total + 1, value + v % 128 * weight, weight * 128);
      assert v * weight == v % 128 * weight + v / 128 * (weight * 128) by {
        assert v == v / 128 * 128 + v % 128;
        Distribute(v / 128, v % 128, weight);
      }
    }
  }

  lemma Distribute(q: nat, r: nat, w: nat)
    ensures (q * 128 + r) * w == r * w + q * (w * 128)
  {
  }

  /** The prefix octet keeps the leading bits above and the number below. */
  lemma FirstOctetParts(leadingBits: Byte, prefixSize: nat, low: nat)
    requires low < PrefixRange(prefixSize)
    ensures FirstOctet(leadingBits, prefixSize, low) % PrefixRange(prefixSize) == low
    ensures FirstOctet(leadingBits, prefixSize, low) / PrefixRange(prefixSize) == leadingBits / PrefixRange(prefixSize)
  {
    var d := PrefixRange(prefixSize);
    DivModUnique(leadingBits / d, low, d);
  }

  /** Decoding undoes encoding whatever follows and whatever the leading bits
      are, exactly for the values below 2^prefix - 1 + 2^28; any other value is
      refused as too long. */
  lemma IntegerRoundTrip(value: nat, prefixSize: nat, leadingBits: Byte, suffix: Bytes)
    requires 1 <= prefixSize <= 8
    ensures var encoded := EncodeInteger(value, prefixSize, leadingBits);
            DecodeInteger(encoded + suffix, prefixSize) ==
            if value < PrefixRange(prefixSize) - 1 + 0x1000_0000 then Ok(Integer(value, |encoded|))
            else Err(TooManyOctets)
    ensures var encoded := EncodeInteger(value, prefixSize, leadingBits);
            encoded != [] && encoded[0] / PrefixRange(prefixSize) == leadingBits / PrefixRange(prefixSize)
  {
    var mask := PrefixRange(prefixSize) - 1;
    var all := EncodeInteger(value, prefixSize, leadingBits) + suffix;
    FirstOctetParts(leadingBits, prefixSize, if value < mask then value else mask);
    if value >= mask {
      assert all[1..] == EncodeTail(value - mask) + suffix;
      TailRoundTrip(value - mask, suffix, 1, mask, 1);
    }
  }

  lemma DigitBound(c: nat, w: nat, limit: nat)
    requires c < 128 && limit >= 128
    ensures c * w <= 127 * w && 128 * w <= limit * w
  {
  }

  /** The octets still to come add less than `weight * TailLimit(total)`. */
  lemma {:induction false} TailBoundTight(buf: Bytes, total: nat, value: nat, weight: nat)
    requires 1 <= total < OCTET_LIMIT && weight >= 1
    ensures var r := DecodeTail(buf, total, value, weight);
            r.Ok? ==> value <= r.value.value <= value + weight * TailLimit(total) - weight
                      && total < r.value.used <= OCTET_LIMIT && r.value.used - total <= |buf|
    decreases OCTET_LIMIT - total
  {
    if buf != [] {
      var c := buf[0] % 128;
      DigitBound(c, weight, TailLimit(total));
      if buf[0] >= 128 && total + 1 < OCTET_LIMIT {
        TailBoundTight(buf[1..], total + 1, value + c * weight, weight * 128);
        assert weight * 128 * TailLimit(total + 1) == weight * TailLimit(total);
      }
    }
  }

  /** Whatever the input, an accepted integer is below 2^prefix - 1 + 2^28 and
      took between one and five octets of it. */
  lemma DecodedIntegerBound(buf: Bytes, prefixSize: nat)
    ensures var r := DecodeInteger(buf, prefixSize);
            r.Ok? ==> r.value.value < PrefixRange(prefixSize) - 1 + 0x1000_0000
                      && 1 <= r.value.used <= OCTET_LIMIT && r.value.used <= |buf|
  {
    if 1 <= prefixSize <= 8 && buf != [] {
      var mask := PrefixRange(prefixSize) - 1;
      TailBoundTight(buf[1..], 1, buf[0] % (mask + 1), 1);
    }
  }
  // ---- What any octets mean ----

  /** Seven bits from each octet, least significant first. */
  function Weighted(tail: Bytes): nat {
    if tail == [] then 0 else tail[0] % 128 + 128 * Weighted(tail[1..])
  }

  /** All octets but the last have their top bit set. */
  predicate IsTail(tail: Bytes) {
    tail != [] && tail[|tail| - 1] < 128 && forall i :: 0 <= i < |tail| - 1 ==> tail[i] >= 128
  }

  lemma Weigh(a: nat, b: nat, weight: nat)
    ensures a * weight + b * (weight * 128) == (a + 128 * b) * weight
  {
  }

  lemma {:induction false} TailMeans(tail: Bytes, rest: Bytes, total: nat, value: nat, weight: nat)
    requires IsTail(tail) && 1 <= total && total + |tail| <= OCTET_LIMIT
    ensures DecodeTail(tail + rest, total, value, weight) == Ok(Integer(value + Weighted(tail) * weight, total + |tail|))
    decreases |tail|
  {
    var all := tail + rest;
    assert all[0] == tail[0] && all[1..] == tail[1..] + rest;
    Weigh(tail[0] % 128, Weighted(tail[1..]), weight);
    if |tail| > 1 {
      TailMeans(tail[1..], rest, total + 1, value + tail[0] % 128 * weight, weight * 128);
    } else {
      assert tail[1..] == [];
    }
  }

  lemma {:induction false} TailBreaksOff(octets: Bytes, total: nat, value: nat, weight: nat)
    requires 1 <= total < OCTET_LIMIT && forall i :: 0 <= i < |octets| ==> octets[i] >= 128
    ensures DecodeTail(octets, total, value, weight) ==
            Err(if total + |octets| < OCTET_LIMIT then NotEnoughOctets else TooManyOctets)
    decreases |octets|
  {
    if octets != [] && total + 1 < OCTET_LIMIT {
      TailBreaksOff(octets[1..], total + 1, value + octets[0] % 128 * weight, weight * 128);
    }
  }

  /** A prefix that is not full is the number. */
  lemma ShortInteger(first: Byte, rest: Bytes, prefixSize: nat)
    requires 1 <= prefixSize <= 8 && first % PrefixRange(prefixSize) < PrefixRange(prefixSize) - 1
    ensures DecodeInteger([first] + rest, prefixSize) == Ok(Integer(first % PrefixRange(prefixSize), 1))
  {
  }

  lemma FullPrefix(buf: Bytes, prefixSize: nat)
    requires 1 <= prefixSize <= 8 && buf != [] && buf[0] % PrefixRange(prefixSize) == PrefixRange(prefixSize) - 1
    ensures DecodeInteger(buf, prefixSize) == DecodeTail(buf[1..], 1, PrefixRange(prefixSize) - 1, 1)
  {
  }

  /** Whatever a peer writes after a full prefix, shortest or not: the octets up to the first
      without the top bit are the rest of the number, least significant first. */
  lemma LongInteger(first: Byte, tail: Bytes, rest: Bytes, prefixSize: nat)
    requires 1 <= prefixSize <= 8 && first % PrefixRange(prefixSize) == PrefixRange(prefixSize) - 1
    requires IsTail(tail) && |tail| < OCTET_LIMIT
    ensures DecodeInteger([first] + (tail + rest), prefixSize) ==
            Ok(Integer(PrefixRange(prefixSize) - 1 + Weighted(tail), 1 + |tail|))
  {
    var buf := [first] + (tail + rest);
    assert buf[1..] == tail + rest;
    FullPrefix(buf, prefixSize);
    TailMeans(tail, rest, 1, PrefixRange(prefixSize) - 1, 1);
  }

  /** Five octets with the top bit set are too many, and fewer are not enough. */
  lemma BrokenInteger(first: Byte, tail: Bytes, prefixSize: nat)
    requires 1 <= prefixSize <= 8 && first % PrefixRange(prefixSize) == PrefixRange(prefixSize) - 1
    requires forall i :: 0 <= i < |tail| ==> tail[i] >= 128
    ensures DecodeInteger([first] + tail, prefixSize) ==
            Err(if 1 + |tail| < OCTET_LIMIT then NotEnoughOctets else TooManyOctets)
  {
    var buf := [first] + tail;
    assert buf[1..] == tail;
    FullPrefix(buf, prefixSize);
    TailBreaksOff(tail, 1, PrefixRange(prefixSize) - 1, 1);
  }
}
