/**
  JavaScript strings: sequences of 16-bit code units, which may hold unpaired surrogates.  Decimal
  numerals and hexadecimal digits over them.
*/
module Texts {
  type Unit = u: nat | u < 0x10000

  type Text = seq<Unit>

  /** A literal of the source, all of whose characters are below U+10000. */
  function Units(s: string): (t: Text)
    ensures |t| == |s|
  {
    seq(|s|, i requires 0 <= i < |s| => if s[i] as int < 0x10000 then s[i] as int else 0xfffd)
  }

  const NEWLINE: Unit := 10

  predicate IsHighSurrogate(u: Unit) {
    0xd800 <= u <= 0xdbff
  }

  predicate IsLowSurrogate(u: Unit) {
    0xdc00 <= u <= 0xdfff
  }

  predicate StartsWithPair(t: Text) {
    |t| > 1 && IsHighSurrogate(t[0]) && IsLowSurrogate(t[1])
  }

  /** Buffer.byteLength(t, "utf8"); an unpaired surrogate is written as U+FFFD. */
  function Utf8Length(t: Text): (n: nat)
    ensures n >= |t|
  {
    if t == [] then 0
    else if StartsWithPair(t) then 4 + Utf8Length(t[2..])
    else (if t[0] < 0x80 then 1 else if t[0] < 0x800 then 2 else 3) + Utf8Length(t[1..])
  }

  /** The bytes of a text in UTF-8 (RFC 3629 section 3); an unpaired surrogate becomes U+FFFD. */
  function Utf8(t: Text): (bytes: seq<nat>)
    ensures forall i :: 0 <= i < |bytes| ==> bytes[i] < 0x100
  {
    if t == [] then []
    else if StartsWithPair(t) then
      var high: nat, low: nat := t[0], t[1];
      var c: nat := 0x10000 + (high - 0xd800) * 0x400 + (low - 0xdc00);
      [0xf0 + c / 0x40000, 0x80 + c / 0x1000 % 0x40, 0x80 + c / 0x40 % 0x40, 0x80 + c % 0x40] + Utf8(t[2..])
    else if t[0] < 0x80 then [t[0]] + Utf8(t[1..])
    else if t[0] < 0x800 then [0xc0 + t[0] / 0x40, 0x80 + t[0] % 0x40] + Utf8(t[1..])
    else
      var u := if IsHighSurrogate(t[0]) || IsLowSurrogate(t[0]) then 0xfffd else t[0];
      [0xe0 + u / 0x1000, 0x80 + u / 0x40 % 0x40, 0x80 + u % 0x40] + Utf8(t[1..])
  }

  /** Buffer.byteLength counts the bytes of the encoding. */
  lemma {:induction false} Utf8LengthCountsBytes(t: Text)
    ensures |Utf8(t)| == Utf8Length(t)
  {
    if t != [] {
      Utf8LengthCountsBytes(t[1..]);
      if StartsWithPair(t) {
        Utf8LengthCountsBytes(t[2..]);
      }
    }
  }

  lemma Regroup(a: Text, b: Text, c: Text)
    ensures a + b + c == a + (b + c)
  {
  }

  lemma RegroupFour(a: Text, b: Text, c: Text, d: Text)
    ensures a + b + c + d == a + (b + (c + d))
  {
    Regroup(a + b, c, d);
    Regroup(a, b, c + d);
  }

  // ---------------------------------------------------------------------------------------
  // Splitting

  /** t.split(separator) for a separator of one unit. */
  function Split(t: Text, separator: Unit): (parts: seq<Text>)
    ensures parts != []
  {
    if t == [] then [[]]
    else
      var rest := Split(t[1..], separator);
      if t[0] == separator then [[]] + rest else [[t[0]] + rest[0]] + rest[1..]
  }

  lemma {:induction false} SplitNone(t: Text, separator: Unit)
    requires separator !in t
    ensures Split(t, separator) == [t]
  {
    if t != [] {
      SplitNone(t[1..], separator);
      assert t == [t[0]] + t[1..];
    }
  }

  lemma {:induction false} SplitFirst(t: Text, separator: Unit, rest: Text)
    requires separator !in t
    ensures Split(t + [separator] + rest, separator) == [t] + Split(rest, separator)
  {
    var whole := t + [separator] + rest;
    if t == [] {
      assert whole[1..] == rest;
    } else {
      SplitFirst(t[1..], separator, rest);
      assert whole[1..] == t[1..] + [separator] + rest;
      assert t == [t[0]] + t[1..];
    }
  }

  // ---------------------------------------------------------------------------------------
  // Order by code unit, as Array.prototype.sort compares strings

  predicate Before(a: Text, b: Text) {
    b != [] && (a == [] || a[0] < b[0] || (a[0] == b[0] && Before(a[1..], b[1..])))
  }

  lemma {:induction false} BeforeIsStrict(a: Text, b: Text)
    requires Before(a, b)
    ensures a != b && !Before(b, a)
  {
    if a != [] && a[0] == b[0] {
      BeforeIsStrict(a[1..], b[1..]);
    }
  }

  lemma {:induction false} BeforeIsTotal(a: Text, b: Text)
    ensures a == b || Before(a, b) || Before(b, a)
  {
    if a != [] && b != [] && a[0] == b[0] {
      BeforeIsTotal(a[1..], b[1..]);
      assert a == [a[0]] + a[1..] && b == [b[0]] + b[1..];
    }
  }

  lemma {:induction false} BeforeIsTransitive(a: Text, b: Text, c: Text)
    requires Before(a, b) && Before(b, c)
    ensures Before(a, c)
  {
    if a != [] && a[0] == b[0] && b[0] == c[0] {
      BeforeIsTransitive(a[1..], b[1..], c[1..]);
    }
  }

  // ---------------------------------------------------------------------------------------
  // Numerals

  predicate IsDigit(u: Unit) {
    48 <= u <= 57
  }

  predicate AllDigits(t: Text) {
    forall i :: 0 <= i < |t| ==> IsDigit(t[i])
  }

  /** BigInt(t) of a run of digits; zero for the empty run. */
  function NumeralValue(t: Text): nat
    requires AllDigits(t)
  {
    if t == [] then 0 else 10 * NumeralValue(t[..|t| - 1]) + (t[|t| - 1] - 48)
  }

  /** The decimal numeral of a natural number, as BigInt.prototype.toString writes it. */
  function Numeral(n: nat): (t: Text)
    ensures t != [] && AllDigits(t)
  {
    if n < 10 then [48 + n] else Numeral(n / 10) + [48 + n % 10]
  }

  lemma {:induction false} NumeralRoundTrip(n: nat)
    ensures NumeralValue(Numeral(n)) == n
  {
    var t := Numeral(n);
    if n < 10 {
      assert t[..0] == [];
    } else {
      NumeralRoundTrip(n / 10);
      assert t[..|t| - 1] == Numeral(n / 10);
    }
  }

  lemma {:induction false} NumeralLeadingZero(n: nat)
    ensures Numeral(n)[0] == 48 ==> n == 0 && Numeral(n) == [48]
  {
    if n >= 10 {
      NumeralLeadingZero(n / 10);
    }
  }

  /** How many digits a text starts with. */
  function DigitRun(t: Text): (k: nat)
    ensures k <= |t| && AllDigits(t[..k])
    ensures k < |t| ==> !IsDigit(t[k])
  {
    if t == [] || !IsDigit(t[0]) then 0 else 1 + DigitRun(t[1..])
  }

  lemma {:induction false} DigitRunOf(digits: Text, rest: Text)
    requires AllDigits(digits) && (rest == [] || !IsDigit(rest[0]))
    ensures DigitRun(digits + rest) == |digits|
  {
    if digits == [] {
      assert digits + rest == rest;
    } else {
      DigitRunOf(digits[1..], rest);
      assert (digits + rest)[1..] == digits[1..] + rest;
    }
  }

  // ---------------------------------------------------------------------------------------
  // Hexadecimal

  function HexDigit(d: nat): (u: Unit)
    requires d < 16
    ensures u >= 0x20 && u < 0x80
  {
    if d < 10 then 48 + d else 97 + (d - 10)
  }

  /** Upper and lower case digits are both read; 16 stands for no digit. */
  function HexValue(u: Unit): (d: nat)
    ensures d <= 16
  {
    if 48 <= u <= 57 then u - 48 else if 97 <= u <= 102 then u - 87 else if 65 <= u <= 70 then u - 55 else 16
  }

  function Hex4(u: Unit): (t: Text)
    ensures |t| == 4
  {
    [HexDigit(u / 16 / 16 / 16), HexDigit(u / 16 / 16 % 16), HexDigit(u / 16 % 16), HexDigit(u % 16)]
  }

  predicate IsHex4(t: Text) {
    |t| == 4 && HexValue(t[0]) < 16 && HexValue(t[1]) < 16 && HexValue(t[2]) < 16 && HexValue(t[3]) < 16
  }

  function Hex4Value(t: Text): Unit
    requires IsHex4(t)
  {
    16 * (16 * (16 * HexValue(t[0]) + HexValue(t[1])) + HexValue(t[2])) + HexValue(t[3])
  }

  lemma HexDigitValue(d: nat)
    requires d < 16
    ensures HexValue(HexDigit(d)) == d
  {
  }

  lemma Hex4RoundTrip(u: Unit)
    ensures IsHex4(Hex4(u)) && Hex4Value(Hex4(u)) == u
  {
    var v := u / 16;
    var w := v / 16;
    HexDigitValue(w / 16);
    HexDigitValue(w % 16);
    HexDigitValue(v % 16);
    HexDigitValue(u % 16);
  }
}
