/**
  Stellar account ids (src/actions/payment-prep-action.ts:109-178): base-32 decoding and the
  checksum test of SEP-23, and why no id can be mistaken for another by one character or by two
  adjacent ones.
*/
module StellarAccount {
  import opened Common
  import opened Bits
  import opened Crc16

  // ---------------------------------------------------------------------------------------
  // Base 32

  const BASE32_ALPHABET := "ABCDEFGHIJKLMNOPQRSTUVWXYZ234567"

  predicate InAlphabet(c: char) {
    'A' <= c <= 'Z' || '2' <= c <= '7'
  }

  /** BASE32_ALPHABET.indexOf of a character of the alphabet; see DigitIsIndexOf. */
  function Digit(c: char): (d: nat)
    requires InAlphabet(c)
    ensures d < 32
  {
    if c >= 'A' then c as int - 'A' as int else c as int - '2' as int + 26
  }

  function Letter(d: nat): (c: char)
    requires d < 32
    ensures InAlphabet(c) && Digit(c) == d
  {
    if d < 26 then ('A' as int + d) as char else ('2' as int + (d - 26)) as char
  }

  /** The digit of a character is its place in the alphabet, and no other character has a place. */
  lemma DigitIsIndexOf(c: char)
    ensures InAlphabet(c) <==> c in BASE32_ALPHABET
    ensures forall d :: 0 <= d < 32 ==> (BASE32_ALPHABET[d] == c <==> InAlphabet(c) && Digit(c) == d)
  {
    forall d | 0 <= d < 32 ensures BASE32_ALPHABET[d] == Letter(d) {
      AlphabetAt(d);
    }
    if InAlphabet(c) {
      assert BASE32_ALPHABET[Digit(c)] == c;
    }
  }

  lemma AlphabetAt(d: nat)
    requires d < 32
    ensures BASE32_ALPHABET[d] == Letter(d)
  {
  }

  predicate IsBase32(value: string) {
    forall i :: 0 <= i < |value| ==> InAlphabet(value[i])
  }

  /** The bits a base-32 string stands for: five per character. */
  function DigitBits(value: string): (bits: Bits)
    requires IsBase32(value)
    ensures |bits| == 5 * |value|
  {
    if value == [] then [] else DigitBits(value[..|value| - 1]) + BitsOf(Digit(value[|value| - 1]), 5)
  }

  /** What has been written and what is left in the buffer are together the bits read so far. */
  predicate Regrouped(output: seq<Byte>, bitBuffer: nat, bitCount: nat, bits: Bits) {
    bitBuffer < Pow2(bitCount) && Flatten(output) + BitsOf(bitBuffer, bitCount) == bits
  }

  lemma DigitBitsPush(value: string, i: nat)
    requires i < |value| && IsBase32(value[..i]) && InAlphabet(value[i])
    ensures IsBase32(value[..i + 1])
    ensures DigitBits(value[..i + 1]) == DigitBits(value[..i]) + BitsOf(Digit(value[i]), 5)
  {
    assert value[..i + 1][..i] == value[..i];
  }

  lemma ReadDigit(output: seq<Byte>, bitBuffer: nat, bitCount: nat, bits: Bits, d: nat)
    requires Regrouped(output, bitBuffer, bitCount, bits) && d < 32
    ensures Regrouped(output, Or(Shl(bitBuffer, 5), d), bitCount + 5, bits + BitsOf(d, 5))
  {
    PushDigit(bitBuffer, d, bitCount);
  }

  lemma WriteByte(output: seq<Byte>, bitBuffer: nat, bitCount: nat, bits: Bits)
    requires bitCount >= 8 && Regrouped(output, bitBuffer, bitCount, bits)
    ensures var m := bitCount - 8;
            var rest := if m == 0 then 0 else And(bitBuffer, Shl(1, m) - 1);
            Regrouped(output + [And(Shr(bitBuffer, m), 0xff)], rest, m, bits)
  {
    var m := bitCount - 8;
    SplitBuffer(bitBuffer, m);
    FlattenPush(output, And(Shr(bitBuffer, m), 0xff));
  }

  /** Decoding succeeds exactly on base-32 strings whose left-over bits are zero, and regroups the rest into bytes. */
  predicate Decodes(value: string, out: Option<seq<Byte>>) {
    if IsBase32(value) then Packs(DigitBits(value), |DigitBits(value)| % 8, out) else out == None
  }

  predicate Packs(bits: Bits, left: nat, out: Option<seq<Byte>>)
    requires left <= |bits|
  {
    if bits[|bits| - left..] == Zeros(left) then out.Some? && Flatten(out.value) == bits[..|bits| - left]
    else out == None
  }

  lemma LeftOver(n: nat, k: nat, total: nat)
    requires k < 8 && total == 8 * n + k
    ensures total % 8 == k
  {
  }

  lemma Finish(value: string, output: seq<Byte>, bitBuffer: nat, bitCount: nat)
    requires IsBase32(value) && Regrouped(output, bitBuffer, bitCount, DigitBits(value))
    requires bitCount < 8
    ensures Decodes(value, if bitCount != 0 && bitBuffer != 0 then None else Some(output))
  {
    var bits := DigitBits(value);
    LeftOver(|output|, bitCount, |bits|);
    assert bits[|bits| - bitCount..] == BitsOf(bitBuffer, bitCount);
    assert bits[..|bits| - bitCount] == Flatten(output);
    ZeroByBits(bitBuffer, bitCount);
  }

  /** One character: its digit enters the buffer, and a full byte leaves it. */
  method ReadCharacter(output: seq<Byte>, bitBuffer: nat, bitCount: nat, digit: nat, ghost bits: Bits)
    returns (output': seq<Byte>, bitBuffer': nat, bitCount': nat)
    requires digit < 32 && bitCount < 8 && Regrouped(output, bitBuffer, bitCount, bits)
    ensures bitCount' < 8 && Regrouped(output', bitBuffer', bitCount', bits + BitsOf(digit, 5))
  {
    ghost var target := bits + BitsOf(digit, 5);
    ReadDigit(output, bitBuffer, bitCount, bits, digit);
    output', bitBuffer', bitCount' := output, Or(Shl(bitBuffer, 5), digit), bitCount + 5;
    while bitCount' >= 8
      invariant Regrouped(output', bitBuffer', bitCount', target)
    {
      WriteByte(output', bitBuffer', bitCount', target);
      var m := bitCount' - 8;
      var byte: Byte := And(Shr(bitBuffer', m), 0xff);
      var rest := if m == 0 then 0 else And(bitBuffer', Shl(1, m) - 1);
      output', bitBuffer', bitCount' := output' + [byte], rest, m;
    }
  }

  method DecodeBase32(value: string) returns (out: Option<seq<Byte>>)
    ensures Decodes(value, out)
  {
    var bitCount: nat, bitBuffer: nat := 0, 0;
    var output: seq<Byte> := [];
    for i := 0 to |value|
      invariant bitCount < 8
      invariant IsBase32(value[..i]) && Regrouped(output, bitBuffer, bitCount, DigitBits(value[..i]))
    {
      if !InAlphabet(value[i]) {
        return None;
      }
      DigitBitsPush(value, i);
      output, bitBuffer, bitCount :=
        ReadCharacter(output, bitBuffer, bitCount, Digit(value[i]), DigitBits(value[..i]));
    }
    assert value[..|value|] == value;
    Finish(value, output, bitBuffer, bitCount);
    if bitCount != 0 && bitBuffer != 0 {
      return None;
    }
    return Some(output);
  }

  // ---------------------------------------------------------------------------------------
  // Decoding is a change of base

  function DigitsValue(value: string): nat
    requires IsBase32(value)
  {
    if value == [] then 0 else 32 * DigitsValue(value[..|value| - 1]) + Digit(value[|value| - 1])
  }

  lemma {:induction false} DigitsValueIsBits(value: string)
    requires IsBase32(value)
    ensures Value(DigitBits(value)) == DigitsValue(value)
  {
    if value != [] {
      var rest, d := value[..|value| - 1], Digit(value[|value| - 1]);
      DigitsValueIsBits(rest);
      ValueConcat(DigitBits(rest), BitsOf(d, 5));
      Powers();
      ValueOfBits(d, 5);
    }
  }

  /** After every character: the bytes' value times 2^bitCount plus the buffer is the digits' value. */
  lemma LoopIsBaseChange(value: string, output: seq<Byte>, bitBuffer: nat, bitCount: nat)
    requires IsBase32(value) && Regrouped(output, bitBuffer, bitCount, DigitBits(value))
    ensures Scaled(Value(Flatten(output)), bitCount) + bitBuffer == DigitsValue(value) && bitBuffer < Pow2(bitCount)
  {
    DigitsValueIsBits(value);
    ValueConcat(Flatten(output), BitsOf(bitBuffer, bitCount));
    ValueOfBits(bitBuffer, bitCount);
  }

  /** Encoding: one letter for every five bits. */
  function Letters(bits: Bits, n: nat): (value: string)
    requires |bits| == 5 * n
    ensures |value| == n
  {
    if n == 0 then []
    else Letters(bits[..5 * (n - 1)], n - 1) + [Letter(FiveBits(bits[5 * (n - 1)..]))]
  }

  function FiveBits(bits: Bits): (d: nat)
    requires |bits| == 5
    ensures d < 32 && BitsOf(d, 5) == bits
  {
    BitsOfValue(bits);
    Powers();
    Value(bits)
  }

  /** RFC 4648 encoding of a multiple of five bytes, which needs no padding. */
  function EncodeBase32(bytes: seq<Byte>): string
    requires |bytes| % 5 == 0
  {
    Letters(Flatten(bytes), 8 * (|bytes| / 5))
  }

  lemma {:induction false} LettersDecode(bits: Bits, n: nat)
    requires |bits| == 5 * n
    ensures IsBase32(Letters(bits, n)) && DigitBits(Letters(bits, n)) == bits
  {
    if n > 0 {
      var front, back := bits[..5 * (n - 1)], bits[5 * (n - 1)..];
      LettersDecode(front, n - 1);
      var value, rest := Letters(bits, n), Letters(front, n - 1);
      assert value[..|value| - 1] == rest;
      assert bits == front + back;
    }
  }

  lemma {:induction false} DigitsEncode(value: string)
    requires IsBase32(value)
    ensures Letters(DigitBits(value), |value|) == value
  {
    if value != [] {
      var n := |value| - 1;
      var rest, d := value[..n], Digit(value[n]);
      var bits := DigitBits(value);
      DigitsEncode(rest);
      assert bits[5 * n..] == BitsOf(d, 5) && bits[..5 * n] == DigitBits(rest);
      SameDigit(FiveBits(bits[5 * n..]), d);
      LetterOfDigit(value[n]);
      assert value == rest + [value[n]];
    }
  }

  lemma SameDigit(d: nat, e: nat)
    requires d < 32 && e < 32 && BitsOf(d, 5) == BitsOf(e, 5)
    ensures d == e
  {
    Powers();
    ValueOfBits(d, 5);
    ValueOfBits(e, 5);
  }

  lemma LetterOfDigit(c: char)
    requires InAlphabet(c)
    ensures Letter(Digit(c)) == c
  {
  }

  /** When the bits fill whole bytes, decoding succeeds and nothing is left over. */
  lemma NothingLeft(value: string, bytes: nat, out: Option<seq<Byte>>)
    requires IsBase32(value) && 5 * |value| == 8 * bytes && Decodes(value, out)
    ensures out.Some? && Flatten(out.value) == DigitBits(value)
  {
    var bits := DigitBits(value);
    LeftOver(bytes, 0, |bits|);
    assert bits[|bits|..] == Zeros(0);
    assert bits[..|bits|] == bits;
  }

  lemma Blocks(n: nat, size: nat) returns (q: nat)
    requires size > 0 && n % size == 0
    ensures n == size * q && q == n / size
  {
    q := n / size;
  }

  lemma MultipleOfFive(n: nat, k: nat)
    requires n == 5 * k
    ensures n % 5 == 0 && n / 5 == k
  {
  }

  /** On lengths divisible by eight, decoding succeeds and encoding gives the string back. */
  lemma DecodeThenEncode(value: string, out: Option<seq<Byte>>)
    requires IsBase32(value) && |value| % 8 == 0 && Decodes(value, out)
    ensures out.Some? && |out.value| % 5 == 0 && EncodeBase32(out.value) == value
  {
    var k := Blocks(|value|, 8);
    NothingLeft(value, 5 * k, out);
    MultipleOfFive(|out.value|, k);
    DigitsEncode(value);
  }

  /** Decoding what was encoded gives the bytes back. */
  lemma EncodeThenDecode(bytes: seq<Byte>, out: Option<seq<Byte>>)
    requires |bytes| % 5 == 0 && Decodes(EncodeBase32(bytes), out)
    ensures out == Some(bytes)
  {
    var k := Blocks(|bytes|, 5);
    var value := Letters(Flatten(bytes), 8 * k);
    LettersDecode(Flatten(bytes), 8 * k);
    NothingLeft(value, |bytes|, out);
    FlattenInjective(bytes, out.value);
  }
}
