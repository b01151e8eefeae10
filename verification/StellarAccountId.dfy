/**
  The account-id check of src/actions/payment-prep-action.ts:151-178 (SEP-23), and what its checksum
  buys: no two accepted ids differ only within two adjacent characters.
*/
module StellarAccountId {
  import opened Bits
  import opened Crc16
  import opened StellarAccount

  const VERSION_BYTE: Byte := 48
  const DECODED_BYTES := 35
  const PAYLOAD_BYTES := 33

  /** STELLAR_ACCOUNT_ID_RE: a G and 55 more characters of the alphabet. */
  predicate MatchesPattern(value: string) {
    |value| == 56 && value[0] == 'G' && IsBase32(value)
  }

  /** The last two bytes are the CRC of the first 33, low byte first. */
  predicate Codeword(bits: Bits)
    requires |bits| == 280
  {
    Crc(bits[..264], Zero) == bits[272..] + bits[264..272]
  }

  predicate Accepted(value: string) {
    MatchesPattern(value) && DigitBits(value)[..8] == BitsOf(VERSION_BYTE, 8) && Codeword(DigitBits(value))
  }

  lemma SameByte(a: Byte, b: Byte)
    ensures BitsOf(a, 8) == BitsOf(b, 8) <==> a == b
  {
    Powers();
    ValueOfBits(a, 8);
    ValueOfBits(b, 8);
  }

  lemma Pieces(a: Bits, b: Bits, c: Bits)
    ensures var s, m, n := a + b + c, |a|, |a| + |b|;
            s[..m] == a && s[m..n] == b && s[n..] == c
  {
  }

  /** Byte `i` is bits 8i to 8i + 7, and the bytes before it are the bits before them. */
  lemma {:induction false} FlattenSplit(bytes: seq<Byte>, i: nat, m: nat)
    requires i < |bytes| && m == 8 * i
    ensures Flatten(bytes)[..m] == Flatten(bytes[..i])
    ensures Flatten(bytes)[m..m + 8] == BitsOf(bytes[i], 8)
  {
    var n := |bytes| - 1;
    var rest, last := Flatten(bytes[..n]), BitsOf(bytes[n], 8);
    assert Flatten(bytes) == rest + last;
    if i == n {
      Pieces(rest, last, []);
    } else {
      FlattenSplit(bytes[..n], i, m);
      assert bytes[..n][..i] == bytes[..i];
      assert (rest + last)[..m] == rest[..m];
      assert (rest + last)[m..m + 8] == rest[m..m + 8];
    }
  }

  lemma SmallByte(low: Byte)
    ensures BitsOf(low, 16) == Zeros(8) + BitsOf(low, 8)
  {
    Powers();
    BitsOfShr(low, 8, 8);
    ShrSmall(low, 8);
    BitsOfZero(8);
  }

  lemma StoredBound(low: Byte, high: Byte)
    ensures Or(low, Shl(high, 8)) <= 0xffff
  {
    Powers();
    ShlBound(high, 8, 8);
    OrBound(low, Shl(high, 8), 16);
  }

  lemma EitherByte(low: Bits, high: Bits, either: Bits)
    requires |low| == 8 && |high| == 8 && |either| == 16
    requires forall i :: 0 <= i < 16 ==> either[i] == ((Zeros(8) + low)[i] || (high + Zeros(8))[i])
    ensures either == high + low
  {
    forall i | 0 <= i < 16 ensures either[i] == (high + low)[i] {
      assert (Zeros(8) + low)[i] == (i >= 8 && low[i - 8]);
      assert (high + Zeros(8))[i] == (i < 8 && high[i]);
    }
  }

  /** The stored checksum, as a number, has the two bytes' bits with the high byte first. */
  lemma StoredChecksum(low: Byte, high: Byte)
    ensures Or(low, Shl(high, 8)) <= 0xffff
    ensures BitsOf(Or(low, Shl(high, 8)), 16) == BitsOf(high, 8) + BitsOf(low, 8)
  {
    StoredBound(low, high);
    SmallByte(low);
    BitsOfShl(high, 8, 8);
    BitsOfOr(low, Shl(high, 8), 16);
    EitherByte(BitsOf(low, 8), BitsOf(high, 8), BitsOf(Or(low, Shl(high, 8)), 16));
  }

  lemma SameChecksum(x: nat, y: nat)
    requires x <= 0xffff && y <= 0xffff
    ensures BitsOf(x, 16) == BitsOf(y, 16) <==> x == y
  {
    Powers();
    ValueOfBits(x, 16);
    ValueOfBits(y, 16);
  }

  lemma DecodedParts(decoded: seq<Byte>, bits: Bits)
    requires |decoded| == DECODED_BYTES && Flatten(decoded) == bits
    ensures bits[..8] == BitsOf(decoded[0], 8)
    ensures bits[..264] == Flatten(decoded[..PAYLOAD_BYTES])
    ensures bits[264..272] == BitsOf(decoded[PAYLOAD_BYTES], 8)
    ensures bits[272..] == BitsOf(decoded[PAYLOAD_BYTES + 1], 8)
  {
    FlattenSplit(decoded, 0, 0);
    FlattenSplit(decoded, 33, 264);
    FlattenSplit(decoded, 34, 272);
    assert bits[272..] == bits[272..280];
  }

  // ---------------------------------------------------------------------------------------
  // The accepted strings are the encoded keys

  /** The bytes a bit sequence spells. */
  function Bytes(bits: Bits, n: nat): (bytes: seq<Byte>)
    requires |bits| == 8 * n
    ensures |bytes| == n && Flatten(bytes) == bits
  {
    if n == 0 then []
    else
      var front, last := bits[..8 * (n - 1)], bits[8 * (n - 1)..];
      BitsOfValue(last);
      Powers();
      assert bits == front + last;
      var before := Bytes(front, n - 1);
      FlattenPush(before, Value(last));
      before + [Value(last)]
  }

  /** Version byte 6 * 8, the key, and the checksum of both with its low byte first. */
  function AccountBytes(key: seq<Byte>): (bytes: seq<Byte>)
    requires |key| == 32
    ensures |bytes| == 35
  {
    var payload := [6 * 8] + key;
    var checksum := Value(Crc(Flatten(payload), Zero));
    BitsOfValue(Crc(Flatten(payload), Zero));
    Powers();
    payload + [checksum % 256, checksum / 256]
  }

  /** The account id of a public key. */
  function IdOf(key: seq<Byte>): string
    requires |key| == 32
  {
    EncodeBase32(AccountBytes(key))
  }

  lemma TwoBytes(n: nat)
    requires n < 0x10000
    ensures BitsOf(n, 16) == BitsOf(n / 256, 8) + BitsOf(n % 256, 8)
  {
    var high, low := BitsOf(n / 256, 8), BitsOf(n % 256, 8);
    Powers();
    ValueOfBits(n / 256, 8);
    ValueOfBits(n % 256, 8);
    ValueConcat(high, low);
    assert Scaled(n / 256, 8) == n / 256 * 256;
    BitsOfValue(high + low);
  }

  /** The bits of an account's bytes. */
  lemma AccountBits(key: seq<Byte>)
    requires |key| == 32
    ensures var bits := Flatten(AccountBytes(key));
            && bits[..8] == BitsOf(48, 8) && bits[..264] == Flatten([48] + key) && Codeword(bits)
  {
    var bytes := AccountBytes(key);
    var payload := [6 * 8] + key;
    var crc := Crc(Flatten(payload), Zero);
    DecodedParts(bytes, Flatten(bytes));
    assert bytes[..33] == payload && bytes[0] == 48;
    BitsOfValue(crc);
    Powers();
    TwoBytes(Value(crc));
  }

  lemma FirstCharacter(value: string)
    requires |value| == 56 && IsBase32(value) && DigitBits(value)[..8] == BitsOf(48, 8)
    ensures value[0] == 'G'
  {
    assert value == value[..1] + value[1..];
    DigitBitsConcat(value[..1], value[1..]);
    assert DigitBits(value[..1]) == [] + BitsOf(Digit(value[0]), 5);
    assert DigitBits(value)[..5] == DigitBits(value)[..8][..5];
    BitsOfShr(48, 5, 3);
    assert Shr(48, 3) == 6;
    SameDigit(Digit(value[0]), 6);
  }

  /** The check accepts the id of every key, */
  lemma EveryKeyHasAnAcceptedId(key: seq<Byte>)
    requires |key| == 32
    ensures Accepted(IdOf(key))
  {
    var value := IdOf(key);
    AccountBits(key);
    LettersDecode(Flatten(AccountBytes(key)), 56);
    FirstCharacter(value);
  }

  /** and what it accepts is the id of the key it decodes to. */
  lemma AcceptedIsIdOfItsKey(value: string)
    requires Accepted(value)
    ensures value == IdOf(Bytes(DigitBits(value)[8..264], 32))
  {
    var bits := DigitBits(value);
    var bytes, key := Bytes(bits, 35), Bytes(bits[8..264], 32);
    DecodedParts(bytes, bits);
    SameByte(bytes[0], VERSION_BYTE);
    PayloadBytes(bits, bytes, key);
    ChecksumBytes(bytes);
    assert bytes == AccountBytes(key);
    DigitsEncode(value);
  }

  lemma PayloadBytes(bits: Bits, bytes: seq<Byte>, key: seq<Byte>)
    requires |bits| == 280 && |bytes| == 35 && Flatten(bytes) == bits && |key| == 32 && Flatten(key) == bits[8..264]
    requires bits[..8] == BitsOf(bytes[0], 8) && bits[..264] == Flatten(bytes[..33])
    ensures bytes[..33] == [bytes[0]] + key
  {
    FlattenPrepend(bytes[0], key);
    assert bits[..264] == bits[..8] + bits[8..264];
    FlattenInjective(bytes[..33], [bytes[0]] + key);
  }

  lemma {:induction false} FlattenPrepend(b: Byte, rest: seq<Byte>)
    ensures Flatten([b] + rest) == BitsOf(b, 8) + Flatten(rest)
  {
    if rest == [] {
      FlattenPush([], b);
      assert [] + [b] == [b] + rest;
    } else {
      var n := |rest| - 1;
      FlattenPrepend(b, rest[..n]);
      assert ([b] + rest)[..n + 1] == [b] + rest[..n];
    }
  }

  /** The checksum bytes of a codeword are those that the encoder writes. */
  lemma ChecksumBytes(bytes: seq<Byte>)
    requires |bytes| == 35 && Codeword(Flatten(bytes))
    ensures var checksum := Value(Crc(Flatten(bytes[..33]), Zero));
            bytes[33] == checksum % 256 && bytes[34] == checksum / 256
  {
    var crc := Crc(Flatten(bytes[..33]), Zero);
    DecodedParts(bytes, Flatten(bytes));
    BitsOfValue(crc);
    Powers();
    TwoBytes(Value(crc));
    SameParts(BitsOf(Value(crc) / 256, 8), BitsOf(Value(crc) % 256, 8), BitsOf(bytes[34], 8), BitsOf(bytes[33], 8));
    SameByte(Value(crc) / 256, bytes[34]);
    SameByte(Value(crc) % 256, bytes[33]);
  }

  lemma SameIdSameKey(a: seq<Byte>, b: seq<Byte>)
    requires |a| == 32 && |b| == 32 && IdOf(a) == IdOf(b)
    ensures a == b
  {
    LettersDecode(Flatten(AccountBytes(a)), 56);
    LettersDecode(Flatten(AccountBytes(b)), 56);
    FlattenInjective(AccountBytes(a), AccountBytes(b));
    assert a == AccountBytes(a)[1..33] && b == AccountBytes(b)[1..33];
  }

  ghost predicate IsIdOfSomeKey(value: string) {
    exists key: seq<Byte> :: |key| == 32 && value == IdOf(key)
  }

  /** The accepted strings are exactly the ids of keys, each of one key only. */
  lemma AcceptedAreIdsOfKeys(value: string)
    ensures Accepted(value) <==> IsIdOfSomeKey(value)
    ensures forall a: seq<Byte>, b: seq<Byte> :: |a| == 32 && |b| == 32 && IdOf(a) == IdOf(b) ==> a == b
  {
    if Accepted(value) {
      AcceptedIsIdOfItsKey(value);
    }
    if key: seq<Byte> :| |key| == 32 && value == IdOf(key) {
      EveryKeyHasAnAcceptedId(key);
    }
    forall a: seq<Byte>, b: seq<Byte> | |a| == 32 && |b| == 32 && IdOf(a) == IdOf(b) ensures a == b {
      SameIdSameKey(a, b);
    }
  }

  method IsValidStellarAccountId(value: string) returns (valid: bool)
    ensures valid <==> Accepted(value)
    ensures valid <==> IsIdOfSomeKey(value)
  {
    AcceptedAreIdsOfKeys(value);
    if !MatchesPattern(value) {
      return false;
    }
    var result := DecodeBase32(value);
    NothingLeft(value, 35, result);
    var decoded := result.value;
    DecodedParts(decoded, DigitBits(value));
    SameByte(decoded[0], VERSION_BYTE);
    if result.None? || |decoded| != DECODED_BYTES || decoded[0] != VERSION_BYTE {
      return false;
    }
    var checksumLow, checksumHigh := decoded[PAYLOAD_BYTES], decoded[PAYLOAD_BYTES + 1];
    var expected := Or(checksumLow, Shl(checksumHigh, 8));
    var actual := Crc16Xmodem(decoded[..PAYLOAD_BYTES]);
    StoredChecksum(checksumLow, checksumHigh);
    SameChecksum(actual, expected);
    return actual == expected;
  }

  // ---------------------------------------------------------------------------------------
  // Differences

  lemma ZeroRegister(r: Register)
    requires AllZero(r)
    ensures r == Zero
  {
  }

  lemma SameIfNoDifference(a: Bits, b: Bits)
    requires |a| == |b| && AllZero(XorBits(a, b))
    ensures a == b
  {
    forall i | 0 <= i < |a| ensures a[i] == b[i] {
      assert !XorBits(a, b)[i];
    }
  }

  /** The difference of two codewords is a codeword. */
  lemma DifferenceIsCodeword(a: Bits, b: Bits)
    requires |a| == |b| == 280 && Codeword(a) && Codeword(b)
    ensures Codeword(XorBits(a, b))
  {
    var d := XorBits(a, b);
    CrcLinear(a[..264], b[..264], Zero, Zero);
    assert XorBits(a[..264], b[..264]) == d[..264];
    assert XorBits(Zero, Zero) == Zero;
    assert XorBits(a[272..] + a[264..272], b[272..] + b[264..272]) == d[272..] + d[264..272];
  }

  /** Every one of the difference lies in a window. */
  predicate OnlyWithin(bits: Bits, lo: nat, hi: nat) {
    forall i :: 0 <= i < |bits| && !(lo <= i < hi) ==> !bits[i]
  }

  lemma {:induction false} ThreeParts(front: Bits, burst: Bits, back: Bits)
    requires AllZero(front) && AllZero(back)
    ensures AllZero(Crc(front + burst + back, Zero)) <==> AllZero(Crc(burst, Zero))
    ensures back == [] ==> Crc(front + burst + back, Zero) == Crc(burst, Zero)
  {
    CrcConcat(front + burst, back, Zero);
    CrcConcat(front, burst, Zero);
    ZerosKeepZero(front, Zero);
    ZeroRegister(Crc(front, Zero));
    ZerosKeepZero(back, Crc(burst, Zero));
  }

  lemma CutInThree(bits: Bits, lo: nat, hi: nat)
    requires lo <= hi <= |bits|
    ensures bits == bits[..lo] + bits[lo..hi] + bits[hi..]
  {
  }

  lemma ZeroOutside(bits: Bits, lo: nat, hi: nat)
    requires lo <= hi <= |bits| && OnlyWithin(bits, lo, hi)
    ensures AllZero(bits[..lo]) && AllZero(bits[hi..])
  {
  }

  /** Zeros before a burst leave no trace and zeros after it do not erase one. */
  lemma BurstInZeros(bits: Bits, lo: nat, hi: nat)
    requires lo <= hi <= |bits| && OnlyWithin(bits, lo, hi)
    ensures AllZero(Crc(bits, Zero)) <==> AllZero(Crc(bits[lo..hi], Zero))
    ensures hi == |bits| ==> Crc(bits, Zero) == Crc(bits[lo..hi], Zero)
  {
    ZeroOutside(bits, lo, hi);
    ThreeParts(bits[..lo], bits[lo..hi], bits[hi..]);
    CutInThree(bits, lo, hi);
  }

  lemma InsidePayload(d: Bits, w: nat)
    requires |d| == 280 && Codeword(d) && w + 10 <= 264 && OnlyWithin(d, w, w + 10)
    ensures AllZero(d)
  {
    var r := Crc(d[..264], Zero);
    assert AllZero(r);
    BurstInZeros(d[..264], w, w + 10);
    var burst := d[..264][w..w + 10];
    BurstLeavesTrace(burst, 16);
    forall i | w <= i < w + 10 ensures !d[i] {
      assert d[i] == burst[i - w];
    }
  }

  /** Nine bits of the payload and the top bit of the low checksum byte. */
  lemma StraddlingNine(d: Bits)
    requires |d| == 280 && Codeword(d) && OnlyWithin(d, 255, 265)
    ensures AllZero(d)
  {
    var r := Crc(d[..264], Zero);
    var burst := d[..264][255..264];
    BurstInZeros(d[..264], 255, 264);
    assert d[264] == r[8];
    NineBitBurst(burst);
    forall i | 255 <= i < 264 ensures !d[i] {
      assert d[i] == burst[i - 255];
    }
  }

  /** Four bits of the payload and the top six of the low checksum byte. */
  lemma StraddlingFour(d: Bits)
    requires |d| == 280 && Codeword(d) && OnlyWithin(d, 260, 270)
    ensures AllZero(d)
  {
    var r := Crc(d[..264], Zero);
    var burst := d[..264][260..264];
    BurstInZeros(d[..264], 260, 264);
    ShortBurst(burst);
    forall i | 260 <= i < 264 ensures !d[i] {
      assert d[i] == burst[i - 260];
    }
    ZerosKeepZero(burst, Zero);
    forall i | 264 <= i < 270 ensures !d[i] {
      assert d[i] == r[8 + (i - 264)];
    }
  }

  lemma InsideChecksum(d: Bits, w: nat)
    requires |d| == 280 && Codeword(d) && w >= 264 && OnlyWithin(d, w, w + 10)
    ensures AllZero(d)
  {
    var r := Crc(d[..264], Zero);
    ZerosKeepZero(d[..264], Zero);
    forall i | 264 <= i < 280 ensures !d[i] {
      assert d[i] == if i < 272 then r[8 + (i - 264)] else r[i - 272];
    }
  }

  lemma NoSmallDifference(d: Bits, k: nat)
    requires |d| == 280 && Codeword(d) && k + 1 < 56 && OnlyWithin(d, 5 * k, 5 * k + 10)
    ensures AllZero(d)
  {
    if k <= 50 {
      InsidePayload(d, 5 * k);
    } else if k == 51 {
      StraddlingNine(d);
    } else if k == 52 {
      StraddlingFour(d);
    } else {
      InsideChecksum(d, 5 * k);
    }
  }

  lemma LastCharacter(value: string, c: char)
    requires IsBase32(value) && InAlphabet(c)
    ensures IsBase32(value + [c]) && DigitBits(value + [c]) == DigitBits(value) + BitsOf(Digit(c), 5)
  {
    assert (value + [c])[..|value|] == value;
  }

  lemma {:induction false} DigitBitsConcat(a: string, b: string)
    requires IsBase32(a) && IsBase32(b)
    ensures IsBase32(a + b) && DigitBits(a + b) == DigitBits(a) + DigitBits(b)
  {
    if b == [] {
      assert a + b == a;
    } else {
      var n := |b| - 1;
      DigitBitsConcat(a, b[..n]);
      LastCharacter(a + b[..n], b[n]);
      LastCharacter(b[..n], b[n]);
      assert a + b == a + b[..n] + [b[n]] && b == b[..n] + [b[n]];
      Associative(DigitBits(a), DigitBits(b[..n]), BitsOf(Digit(b[n]), 5));
    }
  }

  lemma Associative(x: Bits, y: Bits, z: Bits)
    ensures x + y + z == x + (y + z)
  {
  }

  lemma SplitAround(a: string, front: string, mid: string, back: string)
    requires IsBase32(a) && a == front + mid + back
    requires IsBase32(front) && IsBase32(mid) && IsBase32(back)
    ensures DigitBits(a) == DigitBits(front) + DigitBits(mid) + DigitBits(back)
  {
    DigitBitsConcat(front, mid);
    DigitBitsConcat(front + mid, back);
  }

  lemma SameOutside(front: Bits, x: Bits, y: Bits, back: Bits, hi: nat)
    requires |x| == |y| && hi == |front| + |x|
    ensures OnlyWithin(XorBits(front + x + back, front + y + back), |front|, hi)
  {
    var a, b := front + x + back, front + y + back;
    forall i | 0 <= i < |a| && !(|front| <= i < hi) ensures a[i] == b[i] {
      if i < |front| {
        assert a[i] == front[i];
      } else {
        assert a[i] == back[i - hi];
      }
    }
  }

  lemma DifferenceWithin(a: string, b: string, k: nat)
    requires IsBase32(a) && IsBase32(b) && |a| == |b| == 56 && k + 1 < 56
    requires a[..k] == b[..k] && a[k + 2..] == b[k + 2..]
    ensures OnlyWithin(XorBits(DigitBits(a), DigitBits(b)), 5 * k, 5 * k + 10)
  {
    var front, x, y, back := a[..k], a[k..k + 2], b[k..k + 2], a[k + 2..];
    assert a == front + x + back && b == front + y + back;
    assert IsBase32(front) && IsBase32(x) && IsBase32(y) && IsBase32(back);
    SplitAround(a, front, x, back);
    SplitAround(b, front, y, back);
    assert |DigitBits(front)| == 5 * k && |DigitBits(x)| == 10 && |DigitBits(y)| == 10;
    SameOutside(DigitBits(front), DigitBits(x), DigitBits(y), DigitBits(back), 5 * k + 10);
  }

  lemma SameBitsSameText(a: string, b: string)
    requires IsBase32(a) && IsBase32(b) && |a| == |b| && DigitBits(a) == DigitBits(b)
    ensures a == b
  {
    DigitsEncode(a);
    DigitsEncode(b);
  }

  /** Two accepted ids that agree outside two adjacent places are the same id. */
  lemma AdjacentErrorsDetected(a: string, b: string, k: nat)
    requires Accepted(a) && Accepted(b) && k + 1 < 56
    requires a[..k] == b[..k] && a[k + 2..] == b[k + 2..]
    ensures a == b
  {
    var d := XorBits(DigitBits(a), DigitBits(b));
    DifferenceIsCodeword(DigitBits(a), DigitBits(b));
    DifferenceWithin(a, b, k);
    NoSmallDifference(d, k);
    SameIfNoDifference(DigitBits(a), DigitBits(b));
    SameBitsSameText(a, b);
  }

  /** Changing one character of an accepted id makes it unacceptable. */
  lemma OneCharacterErrorDetected(a: string, k: nat, c: char)
    requires Accepted(a) && k < 56 && Accepted(a[k := c])
    ensures a[k] == c
  {
    var b, j := a[k := c], if k < 55 then k else 54;
    assert a[..j] == b[..j] && a[j + 2..] == b[j + 2..];
    AdjacentErrorsDetected(a, b, j);
    assert b[k] == c;
  }

  /** So does swapping two different neighbours. */
  lemma TranspositionDetected(a: string, k: nat)
    requires Accepted(a) && k + 1 < 56 && Accepted(a[k := a[k + 1]][k + 1 := a[k]])
    ensures a[k] == a[k + 1]
  {
    var b := a[k := a[k + 1]][k + 1 := a[k]];
    assert a[..k] == b[..k] && a[k + 2..] == b[k + 2..];
    AdjacentErrorsDetected(a, b, k);
    assert b[k] == a[k + 1];
  }
}
