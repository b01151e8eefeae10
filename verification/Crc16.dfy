/**
  The bitwise CRC-16/XMODEM of src/actions/payment-prep-action.ts, and its algebra over GF(2).

  The method computes with the bitwise operators of the source; its specification works on a
  register of sixteen bits, most significant first.  There the register update is linear and, on zero
  input, invertible, so the checksum of a difference is the difference of the checksums.
*/
module Crc16 {
  import opened Bits

  type Register = r: Bits | |r| == 16 witness seq(16, _ => false)

  const Zero: Register := [false, false, false, false, false, false, false, false,
                           false, false, false, false, false, false, false, false]

  /** Where the generator polynomial 0x1021 has a one. */
  predicate Poly(i: nat) {
    i == 3 || i == 10 || i == 15
  }

  function ShiftReg(r: Register): Register {
    seq(16, i requires 0 <= i < 16 => (i < 15 && r[i + 1]) != (r[0] && Poly(i)))
  }

  /** The register after one more message bit. */
  function CrcBit(r: Register, b: bool): Register {
    ShiftReg(r[0 := r[0] != b])
  }

  /** The register after a bit sequence, started from `r`. */
  function Crc(bits: Bits, r: Register): Register {
    if bits == [] then r else CrcBit(Crc(bits[..|bits| - 1], r), bits[|bits| - 1])
  }

  lemma CrcPush(bits: Bits, b: bool, r: Register)
    ensures Crc(bits + [b], r) == CrcBit(Crc(bits, r), b)
  {
    assert (bits + [b])[..|bits|] == bits;
  }

  lemma {:induction false} CrcConcat(a: Bits, b: Bits, r: Register)
    ensures Crc(a + b, r) == Crc(b, Crc(a, r))
  {
    if b == [] {
      assert a + b == a;
    } else {
      CrcConcat(a, b[..|b| - 1], r);
      assert (a + b)[..|a + b| - 1] == a + b[..|b| - 1];
    }
  }

  // ---------------------------------------------------------------------------------------
  // Linearity, invertibility and bursts

  predicate AllZero(bits: Bits) {
    forall i :: 0 <= i < |bits| ==> !bits[i]
  }

  lemma ShiftLinear(r: Register, s: Register)
    ensures ShiftReg(XorBits(r, s)) == XorBits(ShiftReg(r), ShiftReg(s))
  {
  }

  /** The update is linear over GF(2) in the register and the message bit together. */
  lemma CrcBitLinear(r: Register, s: Register, a: bool, b: bool)
    ensures CrcBit(XorBits(r, s), a != b) == XorBits(CrcBit(r, a), CrcBit(s, b))
  {
    var r', s' := r[0 := r[0] != a], s[0 := s[0] != b];
    ShiftLinear(r', s');
    assert XorBits(r, s)[0 := XorBits(r, s)[0] != (a != b)] == XorBits(r', s');
  }

  lemma {:induction false} CrcLinear(a: Bits, b: Bits, r: Register, s: Register)
    requires |a| == |b|
    ensures Crc(XorBits(a, b), XorBits(r, s)) == XorBits(Crc(a, r), Crc(b, s))
  {
    if a != [] {
      var n := |a| - 1;
      CrcLinear(a[..n], b[..n], r, s);
      assert XorBits(a, b)[..n] == XorBits(a[..n], b[..n]);
      CrcBitLinear(Crc(a[..n], r), Crc(b[..n], s), a[n], b[n]);
    }
  }

  lemma ShiftZero(r: Register)
    ensures AllZero(ShiftReg(r)) <==> AllZero(r)
  {
    var s := ShiftReg(r);
    if AllZero(s) {
      assert s[15] == r[0];
      forall i | 0 < i < 16 ensures !r[i] {
        assert !s[i - 1];
      }
    }
  }

  /** Zero bits neither create nor erase a difference: the update is invertible. */
  lemma {:induction false} ZerosKeepZero(bits: Bits, r: Register)
    requires AllZero(bits)
    ensures AllZero(Crc(bits, r)) <==> AllZero(r)
  {
    if bits != [] {
      var rest := bits[..|bits| - 1];
      ZerosKeepZero(rest, r);
      var s := Crc(rest, r);
      assert s[0 := s[0] != false] == s;
      ShiftZero(s);
    }
  }

  predicate TailZero(r: Register, m: nat)
    requires m <= 16
  {
    forall i :: 16 - m <= i < 16 ==> !r[i]
  }

  lemma TailStep(r: Register, b: bool, m: nat)
    requires 1 <= m <= 16 && TailZero(CrcBit(r, b), m)
    ensures r[0] == b && TailZero(r, m - 1)
    ensures forall i :: 1 <= i < 16 ==> r[i] == CrcBit(r, b)[i - 1]
  {
    var s := CrcBit(r, b);
    assert !s[15];
    forall i | 17 - m <= i < 16 ensures !r[i] {
      assert s[i - 1] == r[i];
    }
  }

  /** A message of at most sixteen bits leaves a register with as many zeros at its end only if it is zero. */
  lemma {:induction false} BurstLeavesTrace(bits: Bits, m: nat)
    requires |bits| <= m <= 16 && TailZero(Crc(bits, Zero), m)
    ensures AllZero(bits) && AllZero(Crc(bits, Zero))
  {
    if bits != [] {
      var rest := bits[..|bits| - 1];
      TailStep(Crc(rest, Zero), bits[|bits| - 1], m);
      BurstLeavesTrace(rest, m - 1);
      ZerosKeepZero(bits, Zero);
    }
  }

  /** A zero tail means that the last steps only shifted. */
  lemma {:induction false} TailShifts(bits: Bits, m: nat)
    requires m <= |bits| && m <= 16 && TailZero(Crc(bits, Zero), m)
    ensures Crc(bits[..|bits| - m], Zero)[m..] == Crc(bits, Zero)[..16 - m]
  {
    if m == 0 {
      assert bits[..|bits|] == bits;
    } else {
      var rest := bits[..|bits| - 1];
      TailStep(Crc(rest, Zero), bits[|bits| - 1], m);
      TailShifts(rest, m - 1);
      assert rest[..|rest| - (m - 1)] == bits[..|bits| - m];
      var before, mid, after := Crc(bits[..|bits| - m], Zero), Crc(rest, Zero), Crc(bits, Zero);
      assert before[m - 1..] == mid[..17 - m];
      forall i | m <= i < 16 ensures before[i] == after[i - m] {
        assert before[i] == before[m - 1..][i - (m - 1)];
        assert mid[i - (m - 1)] == mid[..17 - m][i - (m - 1)];
      }
    }
  }

  lemma CrcLast(bits: Bits, n: nat, r: Register)
    requires 0 < n <= |bits|
    ensures Crc(bits[..n], r) == CrcBit(Crc(bits[..n - 1], r), bits[n - 1])
  {
    assert bits[..n][..n - 1] == bits[..n - 1];
  }

  lemma TwoBits(bits: Bits)
    requires |bits| == 2
    ensures Crc(bits, Zero)[9] == bits[0] && Crc(bits, Zero)[10] == bits[1]
  {
    CrcLast(bits, 1, Zero);
    CrcLast(bits, 2, Zero);
    assert bits[..0] == [] && bits[..2] == bits;
    var r1 := CrcBit(Zero, bits[0]);
    assert r1[10] == bits[0] && !r1[0] && !r1[11];
  }

  /** Nine message bits never leave a register whose only one is in place 8. */
  lemma NineBitBurst(bits: Bits)
    requires |bits| == 9
    requires forall i :: 0 <= i < 16 && i != 8 ==> !Crc(bits, Zero)[i]
    ensures AllZero(bits) && AllZero(Crc(bits, Zero))
  {
    var r, first := Crc(bits, Zero), Crc(bits[..2], Zero);
    TailShifts(bits, 7);
    TwoBits(bits[..2]);
    assert first[7..] == r[..9];
    assert first[9] == first[7..][2] && first[10] == first[7..][3] && first[15] == first[7..][8];
    assert AllZero(bits[..2]);
    ZerosKeepZero(bits[..2], Zero);
    assert first[15] == r[8];
    BurstLeavesTrace(bits, 16);
  }

  /** As long as the front is zero, the first places shift and place 3 takes the new bit. */
  lemma FrontAfter(r: Register, b: bool)
    requires !r[0]
    ensures var r' := CrcBit(r, b);
            && r'[0] == r[1] && r'[1] == r[2] && r'[2] == r[3] && r'[3] == (r[4] != b)
            && r'[4] == r[5] && r'[5] == r[6] && r'[6] == r[7]
  {
  }

  /** Four message bits never leave a register whose only ones are in places 8 to 13. */
  lemma ShortBurst(bits: Bits)
    requires |bits| == 4
    requires var r := Crc(bits, Zero); forall i :: 0 <= i < 8 || 14 <= i < 16 ==> !r[i]
    ensures AllZero(bits)
  {
    assert bits[..0] == [] && bits[..4] == bits;
    CrcLast(bits, 1, Zero);
    FrontAfter(Zero, bits[0]);
    CrcLast(bits, 2, Zero);
    FrontAfter(Crc(bits[..1], Zero), bits[1]);
    CrcLast(bits, 3, Zero);
    FrontAfter(Crc(bits[..2], Zero), bits[2]);
    CrcLast(bits, 4, Zero);
    FrontAfter(Crc(bits[..3], Zero), bits[3]);
    var r := Crc(bits, Zero);
    assert !r[0] && !r[1] && !r[2] && !r[3];
  }

  // ---------------------------------------------------------------------------------------
  // Division with remainder: bit sequences as polynomials over GF(2), highest power first

  /** x^16 + x^12 + x^5 + 1 */
  function Generator(): (g: Bits)
    ensures |g| == 17
  {
    seq(17, i requires 0 <= i < 17 => 16 - i in {16, 12, 5, 0})
  }

  /** Schoolbook multiplication of `q` with the generator. */
  function Product(q: Bits): (p: Bits)
    ensures |p| == |q| + 16
  {
    if q == [] then Zeros(16)
    else
      var n := |q| - 1;
      XorBits(Product(q[..n]) + [false], Zeros(n) + if q[n] then Generator() else Zeros(17))
  }

  /** One more quotient bit. */
  lemma ProductStep(bits: Bits, r: Register, f: bool, front: Bits)
    requires front == bits + r
    ensures XorBits(front + [false], Zeros(|bits|) + if f then Generator() else Zeros(17)) ==
            bits + [r[0] != f] + CrcBit(r, r[0] != f)
  {
    var n, b := |bits|, r[0] != f;
    var left, right := XorBits(front + [false], Zeros(n) + if f then Generator() else Zeros(17)), bits + [b] + CrcBit(r, b);
    var addend := if f then Generator() else Zeros(17);
    forall i | 0 <= i < n + 17 ensures left[i] == right[i] {
      assert (Zeros(n) + addend)[i] == if i < n then false else addend[i - n];
      assert right[i] == if i < n then bits[i] else if i == n then b else CrcBit(r, b)[i - n - 1];
    }
  }

  function Quotient(bits: Bits): (q: Bits)
    ensures |q| == |bits|
  {
    if bits == [] then []
    else
      var n := |bits| - 1;
      Quotient(bits[..n]) + [Crc(bits[..n], Zero)[0] != bits[n]]
  }

  lemma ProductPush(q: Bits, f: bool, bits: Bits, r: Register)
    requires |q| == |bits| && Product(q) == bits + r
    ensures Product(q + [f]) == bits + [r[0] != f] + CrcBit(r, r[0] != f)
  {
    var longer := q + [f];
    assert longer[..|q|] == q && longer[|q|] == f;
    ProductStep(bits, r, f, Product(q));
  }

  /** The message followed by its checksum is a multiple of the generator. */
  lemma {:induction false} ChecksumDivides(bits: Bits)
    ensures bits + Crc(bits, Zero) == Product(Quotient(bits))
  {
    if bits == [] {
      assert Zeros(16) == Zero;
    } else {
      var front, b := bits[..|bits| - 1], bits[|bits| - 1];
      var r := Crc(front, Zero);
      ChecksumDivides(front);
      ProductPush(Quotient(front), r[0] != b, front, r);
      assert front + [b] == bits && (r[0] != (r[0] != b)) == b;
    }
  }

  /** There is no other remainder. */
  lemma {:induction false} RemainderIsChecksum(bits: Bits, r: Register, q: Bits)
    requires |q| == |bits| && bits + r == Product(q)
    ensures r == Crc(bits, Zero)
  {
    if bits == [] {
      assert Zeros(16) == Zero && bits + r == r;
    } else {
      var n := |bits| - 1;
      var front := Product(q[..n]);
      var r': Register := front[n..];
      assert front == front[..n] + r';
      ProductStep(front[..n], r', q[n], front);
      assert bits + r == front[..n] + [r'[0] != q[n]] + CrcBit(r', r'[0] != q[n]);
      SameParts(bits, r, front[..n] + [r'[0] != q[n]], CrcBit(r', r'[0] != q[n]));
      assert bits[..n] == front[..n];
      RemainderIsChecksum(bits[..n], r', q[..n]);
    }
  }

  lemma SameParts(a: Bits, b: Bits, c: Bits, d: Bits)
    requires |a| == |c| && a + b == c + d
    ensures a == c && b == d
  {
    assert a == (a + b)[..|a|] && b == (a + b)[|a|..];
    assert c == (c + d)[..|c|] && d == (c + d)[|c|..];
  }

  /** The checksum is the remainder of the message times x^16 on division by x^16 + x^12 + x^5 + 1, and nothing else is. */
  lemma ChecksumIsRemainder(bits: Bits, r: Register)
    ensures r == Crc(bits, Zero) <==> exists q: Bits :: |q| == |bits| && bits + r == Product(q)
  {
    ChecksumDivides(bits);
    if q: Bits :| |q| == |bits| && bits + r == Product(q) {
      RemainderIsChecksum(bits, r, q);
    }
  }

  // ---------------------------------------------------------------------------------------
  // The loop of the source

  /** One turn of the inner loop. */
  function Turn(x: nat): nat {
    if And(x, 0x8000) != 0 then And(Xor(Shl(x, 1), 0x1021), 0xffff) else And(Shl(x, 1), 0xffff)
  }

  const PolyBits: Register := [false, false, false, true, false, false, false, false,
                               false, false, true, false, false, false, false, true]

  lemma PolyPlaces(i: nat)
    requires i < 16
    ensures PolyBits[i] == Poly(i)
  {
  }

  lemma FourBits(h: nat, b3: bool, b2: bool, b1: bool, b0: bool, n: nat)
    ensures BitsOf(16 * h + 8 * FromBit(b3) + 4 * FromBit(b2) + 2 * FromBit(b1) + FromBit(b0), n + 4) ==
            BitsOf(h, n) + [b3, b2, b1, b0]
  {
    var x3 := 2 * h + FromBit(b3);
    var x2 := 2 * x3 + FromBit(b2);
    var x1 := 2 * x2 + FromBit(b1);
    var x0 := 2 * x1 + FromBit(b0);
    assert x0 / 2 == x1 && x1 / 2 == x2 && x2 / 2 == x3 && x3 / 2 == h;
    assert BitsOf(x0, n + 4) == BitsOf(x1, n + 3) + [b0];
    assert BitsOf(x1, n + 3) == BitsOf(x2, n + 2) + [b1];
    assert BitsOf(x2, n + 2) == BitsOf(x3, n + 1) + [b2];
    assert BitsOf(x3, n + 1) == BitsOf(h, n) + [b3];
  }

  /** The lowest hexadecimal digit of a number. */
  lemma LastDigit(x: nat, h: nat, b3: bool, b2: bool, b1: bool, b0: bool, n: nat)
    requires x == 16 * h + 8 * FromBit(b3) + 4 * FromBit(b2) + 2 * FromBit(b1) + FromBit(b0)
    ensures BitsOf(x, n + 4) == BitsOf(h, n) + [b3, b2, b1, b0]
  {
    FourBits(h, b3, b2, b1, b0, n);
  }

  lemma PolyDigits(x: nat, y: nat, z: nat, o: nat)
    requires o == 1 && z == 16 * o && y == 16 * z + 2 && x == 16 * y + 1
    ensures BitsOf(x, 16) == PolyBits
  {
    LastDigit(x, y, false, false, false, true, 12);
    LastDigit(y, z, false, false, true, false, 8);
    LastDigit(z, o, false, false, false, false, 4);
    LastDigit(o, 0, false, false, false, true, 0);
  }

  lemma Poly1021()
    ensures BitsOf(0x1021, 16) == PolyBits
  {
    PolyDigits(0x1021, 0x102, 0x10, 1);
  }

  lemma Top8000()
    ensures BitsOf(0x8000, 16) == [true] + Zeros(15)
  {
    Powers();
    ShlIsPow2(15);
    BitsOfShl(1, 1, 15);
    assert BitsOf(1, 1) == [true];
  }

  lemma TopBit(x: nat)
    ensures And(x, 0x8000) != 0 <==> BitsOf(x, 16)[0]
  {
    var m := And(x, 0x8000);
    Powers();
    ZeroByBits(m, 16);
    BitsOfAnd(x, 0x8000, 16);
    Top8000();
  }

  lemma DoubleBits(x: nat)
    ensures BitsOf(And(Shl(x, 1), 0xffff), 16) == BitsOf(x, 16)[1..] + [false]
    ensures BitsOf(Shl(x, 1), 16) == BitsOf(x, 16)[1..] + [false]
  {
    Powers();
    MaskKeeps(Shl(x, 1), 16);
    BitsOfShl(x, 15, 1);
    BitsOfShr(x, 1, 15);
    assert BitsOf(x, 16)[1..] == BitsOf(x, 15);
  }

  lemma ReducedBits(x: nat)
    ensures BitsOf(And(Xor(Shl(x, 1), 0x1021), 0xffff), 16) == XorBits(BitsOf(x, 16)[1..] + [false], PolyBits)
  {
    Powers();
    DoubleBits(x);
    MaskKeeps(Xor(Shl(x, 1), 0x1021), 16);
    BitsOfXor(Shl(x, 1), 0x1021, 16);
    Poly1021();
  }

  lemma ShiftRegCases(r: Register)
    ensures ShiftReg(r) == if r[0] then XorBits(r[1..] + [false], PolyBits) else r[1..] + [false]
  {
    forall i | 0 <= i < 16 ensures PolyBits[i] == Poly(i) {
      PolyPlaces(i);
    }
  }

  lemma TurnIsShift(x: nat)
    ensures BitsOf(Turn(x), 16) == ShiftReg(BitsOf(x, 16))
  {
    TopBit(x);
    ShiftRegCases(BitsOf(x, 16));
    if And(x, 0x8000) != 0 {
      ReducedBits(x);
    } else {
      DoubleBits(x);
    }
  }

  /** The part of a byte not yet fed in sits at the top of the register. */
  function Remaining(bits: Bits, j: nat): Register
    requires |bits| == 8 && j <= 8
  {
    seq(16, i requires 0 <= i < 16 => i + j < 8 && bits[i + j])
  }

  lemma StartOfByte(c: nat, b: Byte)
    ensures BitsOf(Xor(c, Shl(b, 8)), 16) == XorBits(BitsOf(c, 16), Remaining(BitsOf(b, 8), 0))
  {
    BitsOfXor(c, Shl(b, 8), 16);
    BitsOfShl(b, 8, 8);
  }

  /** The source XORs the whole byte in first; each turn then feeds one of its bits. */
  lemma ByteTurn(r: Register, bits: Bits, j: nat)
    requires |bits| == 8 && j < 8
    ensures ShiftReg(XorBits(Crc(bits[..j], r), Remaining(bits, j))) ==
            XorBits(Crc(bits[..j + 1], r), Remaining(bits, j + 1))
  {
    var s := Crc(bits[..j], r);
    var rest := Remaining(bits, j);
    assert bits[..j + 1] == bits[..j] + [bits[j]];
    CrcPush(bits[..j], bits[j], r);
    var s', rest' := s[0 := s[0] != bits[j]], rest[0 := false];
    assert XorBits(s, rest) == XorBits(s', rest');
    ShiftLinear(s', rest');
    assert ShiftReg(rest') == Remaining(bits, j + 1);
  }

  lemma EndOfByte(bytes: seq<Byte>, i: nat, start: Register, r: Register)
    requires i < |bytes| && start == Crc(Flatten(bytes[..i]), Zero)
    requires var bits := BitsOf(bytes[i], 8); r == XorBits(Crc(bits[..8], start), Remaining(bits, 8))
    ensures r == Crc(Flatten(bytes[..i + 1]), Zero)
  {
    var bits := BitsOf(bytes[i], 8);
    assert bits[..8] == bits;
    CrcConcat(Flatten(bytes[..i]), bits, Zero);
    FlattenPush(bytes[..i], bytes[i]);
    assert bytes[..i + 1] == bytes[..i] + [bytes[i]];
  }

  /** The source's loop computes the CRC of the bytes' bits, most significant bit first. */
  method Crc16Xmodem(bytes: seq<Byte>) returns (checksum: nat)
    ensures checksum <= 0xffff && BitsOf(checksum, 16) == Crc(Flatten(bytes), Zero)
  {
    checksum := 0;
    BitsOfZero(16);
    assert BitsOf(checksum, 16) == Zero;
    for i := 0 to |bytes|
      invariant checksum <= 0xffff
      invariant BitsOf(checksum, 16) == Crc(Flatten(bytes[..i]), Zero)
    {
      ghost var start, bits := BitsOf(checksum, 16), BitsOf(bytes[i], 8);
      StartOfByte(checksum, bytes[i]);
      assert bits[..0] == [];
      checksum := Xor(checksum, Shl(bytes[i], 8));
      for bit := 0 to 8
        invariant bit > 0 ==> checksum <= 0xffff
        invariant BitsOf(checksum, 16) == XorBits(Crc(bits[..bit], start), Remaining(bits, bit))
      {
        TurnIsShift(checksum);
        ByteTurn(start, bits, bit);
        checksum := if And(checksum, 0x8000) != 0 then And(Xor(Shl(checksum, 1), 0x1021), 0xffff)
                    else And(Shl(checksum, 1), 0xffff);
      }
      EndOfByte(bytes, i, start, BitsOf(checksum, 16));
    }
    assert bytes[..|bytes|] == bytes;
  }
}
