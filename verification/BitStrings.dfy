/** Numbers as bit strings, most significant bit first. */
module BitStrings {
  type Bits = seq<bool>

  function Pow2(n: nat): (p: nat)
    ensures p >= 1
  {
    if n == 0 then 1 else 2 * Pow2(n - 1)
  }

  function BitsOf(value: nat, length: nat): (bits: Bits)
    ensures |bits| == length
  {
    if length == 0 then [] else BitsOf(value / 2, length - 1) + [value % 2 == 1]
  }

  function ValueOf(bits: Bits): nat {
    if bits == [] then 0
    else 2 * ValueOf(bits[..|bits| - 1]) + if bits[|bits| - 1] then 1 else 0
  }

  /** A bit string is recovered from its value and its length. */
  lemma {:induction false} ValueBitsInverse(bits: Bits)
    ensures BitsOf(ValueOf(bits), |bits|) == bits
    ensures ValueOf(bits) < Pow2(|bits|)
  {
    if bits != [] {
      ValueBitsInverse(bits[..|bits| - 1]);
      assert bits == bits[..|bits| - 1] + [bits[|bits| - 1]];
    }
  }

  /** A number that fits is recovered from its bits. */
  lemma {:induction false} BitsValueInverse(value: nat, length: nat)
    requires value < Pow2(length)
    ensures ValueOf(BitsOf(value, length)) == value
  {
    if length > 0 {
      BitsValueInverse(value / 2, length - 1);
      var bits := BitsOf(value, length);
      assert bits[..|bits| - 1] == BitsOf(value / 2, length - 1);
    }
  }

  lemma ValueSnoc(bits: Bits, b: bool)
    ensures ValueOf(bits + [b]) == 2 * ValueOf(bits) + if b then 1 else 0
  {
    assert (bits + [b])[..|bits|] == bits;
  }

  function Ones(n: nat): Bits {
    seq(n, i => true)
  }

  lemma {:induction false} OnesValue(bits: Bits)
    ensures ValueOf(bits) == Pow2(|bits|) - 1 <==> bits == Ones(|bits|)
  {
    if bits != [] {
      var front := bits[..|bits| - 1];
      OnesValue(front);
      ValueBitsInverse(front);
      assert bits == front + [bits[|bits| - 1]];
      if bits[|bits| - 1] && front == Ones(|front|) {
        assert bits == Ones(|bits|);
      }
      if bits == Ones(|bits|) {
        assert front == Ones(|front|);
      }
    }
  }

  lemma {:induction false} Pow2Sum(m: nat, n: nat)
    ensures Pow2(m + n) == Pow2(m) * Pow2(n)
  {
    if n > 0 {
      Pow2Sum(m, n - 1);
      assert Pow2(m) * (2 * Pow2(n - 1)) == 2 * (Pow2(m) * Pow2(n - 1));
    }
  }

  lemma {:induction false} Pow2Monotone(m: nat, n: nat)
    requires m <= n
    ensures Pow2(m) <= Pow2(n)
  {
    if m < n {
      Pow2Monotone(m, n - 1);
    }
  }

  lemma PrefixOfSnoc(a: Bits, bits: Bits, b: bool)
    ensures a <= bits + [b] ==> a == bits + [b] || a <= bits
  {
    if a <= bits + [b] && |a| <= |bits| {
      assert a == (bits + [b])[..|a|] == bits[..|a|];
    }
  }

  lemma PowerValues()
    ensures Pow2(0) == 1 && Pow2(1) == 2 && Pow2(2) == 4 && Pow2(3) == 8 && Pow2(4) == 16 && Pow2(5) == 32
    ensures Pow2(6) == 64 && Pow2(7) == 128
    ensures Pow2(25) == 0x200_0000 && Pow2(26) == 0x400_0000 && Pow2(27) == 0x800_0000 && Pow2(28) == 0x1000_0000
    ensures Pow2(29) == 0x2000_0000 && Pow2(30) == 0x4000_0000 && Pow2(31) == 0x8000_0000
  {
    assert Pow2(8) == 256;
    Pow2Sum(8, 8);
    Pow2Sum(16, 8);
    assert Pow2(25) == 2 * Pow2(24);
  }
}
