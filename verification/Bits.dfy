/**
  Numbers as sequences of bits, most significant bit first.

  The source computes with JavaScript's bitwise operators on integers that stay below 2^31, where
  they are the operators defined here bit by bit.
*/
module Bits {
  type Bits = seq<bool>

  type Byte = b: nat | b <= 0xff

  /** The lowest `n` bits of a number. */
  function BitsOf(x: nat, n: nat): (bits: Bits)
    ensures |bits| == n
  {
    if n == 0 then [] else BitsOf(x / 2, n - 1) + [x % 2 == 1]
  }

  function Flatten(bytes: seq<Byte>): (bits: Bits)
    ensures |bits| == 8 * |bytes|
  {
    if bytes == [] then [] else Flatten(bytes[..|bytes| - 1]) + BitsOf(bytes[|bytes| - 1], 8)
  }

  lemma FlattenPush(bytes: seq<Byte>, b: Byte)
    ensures Flatten(bytes + [b]) == Flatten(bytes) + BitsOf(b, 8)
  {
    assert (bytes + [b])[..|bytes|] == bytes;
  }

  /** The value of a bit sequence as a number. */
  function Value(bits: Bits): (v: nat) {
    if bits == [] then 0 else 2 * Value(bits[..|bits| - 1]) + (if bits[|bits| - 1] then 1 else 0)
  }

  function Pow2(n: nat): (p: nat)
    ensures p > 0
  {
    if n == 0 then 1 else 2 * Pow2(n - 1)
  }

  lemma TimesTwo(x: nat, y: nat)
    ensures x * (2 * y) == 2 * (x * y)
  {
  }

  lemma Powers()
    ensures Pow2(4) == 16 && Pow2(5) == 32 && Pow2(8) == 0x100 && Pow2(15) == 0x8000 && Pow2(16) == 0x10000
  {
    assert Pow2(4) == 16;
    assert Pow2(8) == 256;
    assert Pow2(12) == 4096;
  }

  function Scaled(v: nat, n: nat): (p: nat) {
    v * Pow2(n)
  }

  lemma ScaledStep(v: nat, n: nat)
    ensures Scaled(v, n + 1) == 2 * Scaled(v, n)
  {
    TimesTwo(v, Pow2(n));
  }

  lemma {:induction false} ValueConcat(a: Bits, b: Bits)
    ensures Value(a + b) == Scaled(Value(a), |b|) + Value(b)
  {
    if b == [] {
      assert a + b == a;
    } else {
      var rest := b[..|b| - 1];
      ValueConcat(a, rest);
      assert (a + b)[..|a + b| - 1] == a + rest;
      ScaledStep(Value(a), |rest|);
    }
  }

  function FromBit(b: bool): nat {
    if b then 1 else 0
  }

  lemma {:induction false} ValueOfBits(x: nat, n: nat)
    requires x < Pow2(n)
    ensures Value(BitsOf(x, n)) == x
  {
    if n > 0 {
      ValueOfBits(x / 2, n - 1);
    }
  }

  lemma {:induction false} BitsOfValue(bits: Bits)
    ensures Value(bits) < Pow2(|bits|) && BitsOf(Value(bits), |bits|) == bits
  {
    if bits != [] {
      BitsOfValue(bits[..|bits| - 1]);
      assert bits == bits[..|bits| - 1] + [bits[|bits| - 1]];
    }
  }

  lemma {:induction false} FlattenInjective(a: seq<Byte>, b: seq<Byte>)
    requires Flatten(a) == Flatten(b)
    ensures a == b
  {
    assert |a| == |b|;
    if a != [] {
      var n := |a| - 1;
      var x, y := Flatten(a[..n]), Flatten(b[..n]);
      assert Flatten(a)[..8 * n] == x && Flatten(b)[..8 * n] == y;
      assert Flatten(a)[8 * n..] == BitsOf(a[n], 8) && Flatten(b)[8 * n..] == BitsOf(b[n], 8);
      FlattenInjective(a[..n], b[..n]);
      Powers();
      ValueOfBits(a[n], 8);
      ValueOfBits(b[n], 8);
      assert a == a[..n] + [a[n]] && b == b[..n] + [b[n]];
    }
  }

  function Zeros(n: nat): (bits: Bits)
    ensures |bits| == n
  {
    seq(n, _ => false)
  }

  lemma {:induction false} BitsOfZero(n: nat)
    ensures BitsOf(0, n) == Zeros(n)
  {
    if n > 0 {
      BitsOfZero(n - 1);
    }
  }

  // ---------------------------------------------------------------------------------------
  // The bitwise operators

  function Xor(x: nat, y: nat): nat
    decreases x + y
  {
    if x == 0 && y == 0 then 0 else 2 * Xor(x / 2, y / 2) + FromBit((x % 2 == 1) != (y % 2 == 1))
  }

  function Or(x: nat, y: nat): nat
    decreases x + y
  {
    if x == 0 && y == 0 then 0 else 2 * Or(x / 2, y / 2) + FromBit(x % 2 == 1 || y % 2 == 1)
  }

  function And(x: nat, y: nat): (z: nat)
    ensures z <= y
    decreases x + y
  {
    if x == 0 && y == 0 then 0 else 2 * And(x / 2, y / 2) + FromBit(x % 2 == 1 && y % 2 == 1)
  }

  function Shl(x: nat, k: nat): (z: nat)
    ensures x > 0 ==> z > 0
  {
    if k == 0 then x else 2 * Shl(x, k - 1)
  }

  function Shr(x: nat, k: nat): nat {
    if k == 0 then x else Shr(x / 2, k - 1)
  }

  function XorBits(a: Bits, b: Bits): (d: Bits)
    requires |a| == |b|
    ensures |d| == |a|
  {
    seq(|a|, i requires 0 <= i < |a| => a[i] != b[i])
  }

  lemma {:induction false} BitsOfXor(x: nat, y: nat, n: nat)
    ensures BitsOf(Xor(x, y), n) == XorBits(BitsOf(x, n), BitsOf(y, n))
  {
    if n > 0 {
      BitsOfXor(x / 2, y / 2, n - 1);
      assert Xor(x, y) / 2 == Xor(x / 2, y / 2);
    }
  }

  lemma {:induction false} BitsOfOr(x: nat, y: nat, n: nat)
    ensures forall i :: 0 <= i < n ==> BitsOf(Or(x, y), n)[i] == (BitsOf(x, n)[i] || BitsOf(y, n)[i])
  {
    if n > 0 {
      BitsOfOr(x / 2, y / 2, n - 1);
      assert Or(x, y) / 2 == Or(x / 2, y / 2);
    }
  }

  lemma {:induction false} BitsOfAnd(x: nat, y: nat, n: nat)
    ensures forall i :: 0 <= i < n ==> BitsOf(And(x, y), n)[i] == (BitsOf(x, n)[i] && BitsOf(y, n)[i])
  {
    if n > 0 {
      BitsOfAnd(x / 2, y / 2, n - 1);
      assert And(x, y) / 2 == And(x / 2, y / 2);
    }
  }

  lemma {:induction false} BitsOfShl(x: nat, n: nat, k: nat)
    ensures BitsOf(Shl(x, k), n + k) == BitsOf(x, n) + Zeros(k)
  {
    if k > 0 {
      BitsOfShl(x, n, k - 1);
      assert Zeros(k) == Zeros(k - 1) + [false];
    }
  }

  /** A number's low bits follow its shifted-out high bits. */
  lemma {:induction false} BitsOfShr(x: nat, n: nat, k: nat)
    ensures BitsOf(x, n + k) == BitsOf(Shr(x, k), n) + BitsOf(x, k)
  {
    if k > 0 {
      BitsOfShr(x / 2, n, k - 1);
    }
  }

  lemma {:induction false} ShlIsPow2(k: nat)
    ensures Shl(1, k) == Pow2(k)
  {
    if k > 0 {
      ShlIsPow2(k - 1);
    }
  }

  lemma {:induction false} ShrSmall(x: nat, k: nat)
    requires x < Pow2(k)
    ensures Shr(x, k) == 0
  {
    if k > 0 {
      ShrSmall(x / 2, k - 1);
    }
  }

  lemma {:induction false} BitsOfOnes(k: nat)
    ensures BitsOf(Pow2(k) - 1, k) == seq(k, _ => true)
  {
    if k > 0 {
      BitsOfOnes(k - 1);
      assert (Pow2(k) - 1) / 2 == Pow2(k - 1) - 1;
      assert (Pow2(k) - 1) % 2 == 1;
    }
  }

  /** Masking with `2^k - 1` keeps the low `k` bits and leaves a number below `2^k`. */
  lemma MaskKeeps(x: nat, k: nat)
    ensures BitsOf(And(x, Pow2(k) - 1), k) == BitsOf(x, k) && And(x, Pow2(k) - 1) < Pow2(k)
  {
    BitsOfAnd(x, Pow2(k) - 1, k);
    BitsOfOnes(k);
  }

  lemma {:induction false} OrBound(x: nat, y: nat, k: nat)
    requires x < Pow2(k) && y < Pow2(k)
    ensures Or(x, y) < Pow2(k)
  {
    if k > 0 && x + y > 0 {
      OrBound(x / 2, y / 2, k - 1);
    }
  }

  lemma {:induction false} ShlBound(x: nat, n: nat, k: nat)
    requires x < Pow2(n)
    ensures Shl(x, k) < Pow2(n + k)
  {
    if k > 0 {
      ShlBound(x, n, k - 1);
    }
  }

  lemma {:induction false} Pow2Monotone(n: nat, k: nat)
    ensures Pow2(n) <= Pow2(n + k)
  {
    if k > 0 {
      Pow2Monotone(n, k - 1);
    }
  }

  lemma PushDigitBound(x: nat, d: nat, n: nat)
    requires x < Pow2(n) && d < Pow2(5)
    ensures Or(Shl(x, 5), d) < Pow2(n + 5)
  {
    ShlBound(x, n, 5);
    Pow2Monotone(5, n);
    OrBound(Shl(x, 5), d, n + 5);
  }

  /** Shifting five places and inserting a digit appends the digit's bits. */
  lemma PushDigit(x: nat, d: nat, n: nat)
    requires d < 32
    ensures BitsOf(Or(Shl(x, 5), d), n + 5) == BitsOf(x, n) + BitsOf(d, 5)
    ensures x < Pow2(n) ==> Or(Shl(x, 5), d) < Pow2(n + 5)
  {
    Powers();
    if x < Pow2(n) {
      PushDigitBound(x, d, n);
    }
    BitsOfOr(Shl(x, 5), d, n + 5);
    BitsOfShl(x, n, 5);
    BitsOfShr(d, n, 5);
    ShrSmall(d, 5);
    BitsOfZero(n);
  }

  /** Taking the upper eight bits out of the buffer and masking the rest splits it. */
  lemma SplitBuffer(x: nat, m: nat)
    ensures BitsOf(x, 8 + m) == BitsOf(And(Shr(x, m), 0xff), 8) + BitsOf(And(x, Shl(1, m) - 1), m)
    ensures And(x, Shl(1, m) - 1) < Pow2(m)
  {
    assert Pow2(8) == 256;
    BitsOfShr(x, 8, m);
    MaskKeeps(Shr(x, m), 8);
    ShlIsPow2(m);
    MaskKeeps(x, m);
  }

  /** Below `2^n`, a number is zero exactly if its `n` bits are. */
  lemma ZeroByBits(x: nat, n: nat)
    requires x < Pow2(n)
    ensures x == 0 <==> BitsOf(x, n) == Zeros(n)
  {
    BitsOfZero(n);
    ValueOfBits(x, n);
    ValueOfBits(0, n);
  }
}
