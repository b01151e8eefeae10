/**
  Exact amounts: the string form of src/actions/payment-prep-action.ts:84-107, parsed again in the
  same way by src/policies/payment-intent-policy.ts:67-96.
*/
module StellarAmount {
  import opened Common
  import opened Texts

  const POINT: Unit := 46
  const STROOPS_PER_UNIT: nat := 10_000_000
  const MAX_STELLAR_AMOUNT_STROOPS: nat := 9_223_372_036_854_775_807

  /** DECIMAL_AMOUNT_RE: digits, and perhaps a point with one to seven digits after it. */
  predicate IsDecimal(value: Text) {
    var k := DigitRun(value);
    k > 0 && (k < |value| ==> value[k] == POINT && AllDigits(value[k + 1..]) && 1 <= |value[k + 1..]| <= 7)
  }

  function WholePart(value: Text): (t: Text)
    ensures AllDigits(t)
  {
    value[..DigitRun(value)]
  }

  function FractionPart(value: Text): (t: Text)
    requires IsDecimal(value)
    ensures AllDigits(t) && |t| <= 7
  {
    var k := DigitRun(value);
    if k < |value| then value[k + 1..] else []
  }

  lemma SplitDecimal(value: Text)
    requires IsDecimal(value)
    ensures var parts := Split(value, POINT);
            parts[0] == WholePart(value) && (if |parts| > 1 then parts[1] else []) == FractionPart(value)
  {
    var whole, fraction := WholePart(value), FractionPart(value);
    assert POINT !in whole && POINT !in fraction;
    if DigitRun(value) < |value| {
      assert value == whole + [POINT] + fraction;
      SplitFirst(whole, POINT, fraction);
      SplitNone(fraction, POINT);
    } else {
      assert value == whole;
      SplitNone(whole, POINT);
    }
  }

  /** t.padEnd(n, "0") */
  function PadEnd(t: Text, n: nat): (r: Text)
    requires |t| <= n
    ensures |r| == n && (AllDigits(t) ==> AllDigits(r))
  {
    t + seq(n - |t|, _ => 48)
  }

  /** The policy's parser (src/policies/payment-intent-policy.ts:67-83). */
  function ParseExactStroops(value: Text): (stroops: Option<nat>) {
    if !IsDecimal(value) then None
    else
      SplitDecimal(value);
      var parts := Split(value, POINT);
      var fraction := if |parts| > 1 then parts[1] else [];
      var stroops := NumeralValue(parts[0]) * STROOPS_PER_UNIT + NumeralValue(PadEnd(fraction, 7));
      if stroops <= 0 || stroops > MAX_STELLAR_AMOUNT_STROOPS then None else Some(stroops)
  }

  /** The tool's parser (src/actions/payment-prep-action.ts:84-107): it keeps the text beside the stroops. */
  function NormalizeStellarAmount(amount: Text): Option<(Text, nat)> {
    if !IsDecimal(amount) then None
    else
      SplitDecimal(amount);
      var parts := Split(amount, POINT);
      var wholePart, fractionalPart := parts[0], if |parts| > 1 then parts[1] else [];
      var stroops := NumeralValue(wholePart) * STROOPS_PER_UNIT + NumeralValue(PadEnd(fractionalPart, 7));
      if stroops <= 0 || stroops > MAX_STELLAR_AMOUNT_STROOPS then None else Some((amount, stroops))
  }

  // ---------------------------------------------------------------------------------------
  // The number a decimal denotes

  /** Digits after the point: each counts a tenth of the one before. */
  function Fraction(digits: Text): real
    requires AllDigits(digits)
  {
    if digits == [] then 0.0 else ((digits[0] - 48) as real + Fraction(digits[1..])) / 10.0
  }

  function Denotes(value: Text): real
    requires IsDecimal(value)
  {
    NumeralValue(WholePart(value)) as real + Fraction(FractionPart(value))
  }

  function Pow10(n: nat): (p: nat)
    ensures p > 0
  {
    if n == 0 then 1 else 10 * Pow10(n - 1)
  }

  /** A numeral's first digit counts by the length of the rest. */
  lemma {:induction false} FirstDigit(t: Text)
    requires t != [] && AllDigits(t)
    ensures NumeralValue(t) == (t[0] - 48) * Pow10(|t| - 1) + NumeralValue(t[1..])
  {
    var n := |t| - 1;
    if n == 0 {
      assert t[..0] == [] && t[1..] == [];
    } else {
      FirstDigit(t[..n]);
      assert t[..n][1..] == t[1..][..n - 1];
      Shift(t[0] - 48, Pow10(n - 1));
    }
  }

  lemma Shift(d: int, p: nat)
    ensures 10 * (d * p) == d * (10 * p)
  {
  }

  lemma {:induction false} ZerosAreNothing(n: nat)
    ensures NumeralValue(seq(n, _ => 48)) == 0
  {
    var t: Text := seq(n, _ => 48);
    if n > 0 {
      ZerosAreNothing(n - 1);
      var front: Text := seq(n - 1, _ => 48);
      assert t[..n - 1] == front;
    }
  }

  /** `f` is `n` hundreds, thousands and so on below the point. */
  predicate ScalesTo(f: real, p: nat, n: nat) {
    f * p as real == n as real
  }

  lemma NothingScales(p: nat)
    ensures ScalesTo(0.0, p, 0)
  {
  }

  lemma Scale(d: nat, f: real, p: nat, rest: nat, g: real, n: nat)
    requires ScalesTo(f, p, rest)
    requires g == (d as real + f) / 10.0 && n == d * p + rest
    ensures ScalesTo(g, 10 * p, n)
  {
    var q := p as real;
    assert (10 * p) as real == 10.0 * q;
    assert g * (10.0 * q) == (d as real + f) * q;
    assert (d * p) as real == d as real * q;
  }

  lemma PaddedDigits(digits: Text, n: nat)
    requires digits != [] && AllDigits(digits) && |digits| <= n
    ensures NumeralValue(PadEnd(digits, n)) ==
            (digits[0] - 48) * Pow10(n - 1) + NumeralValue(PadEnd(digits[1..], n - 1))
  {
    var padded := PadEnd(digits, n);
    assert padded[1..] == PadEnd(digits[1..], n - 1);
    FirstDigit(padded);
  }

  /** Padding a fraction with zeros and reading it as a numeral multiplies it by a power of ten. */
  lemma {:induction false} PaddedFraction(digits: Text, n: nat)
    requires AllDigits(digits) && |digits| <= n
    ensures ScalesTo(Fraction(digits), Pow10(n), NumeralValue(PadEnd(digits, n)))
  {
    if digits == [] {
      ZerosAreNothing(n);
      assert PadEnd(digits, n) == seq(n, _ => 48);
      NothingScales(Pow10(n));
    } else {
      PaddedFraction(digits[1..], n - 1);
      PaddedDigits(digits, n);
      PaddedStep(digits[0] - 48, Fraction(digits[1..]), n, NumeralValue(PadEnd(digits[1..], n - 1)));
    }
  }

  lemma PaddedStep(d: nat, f: real, n: nat, rest: nat)
    requires n > 0 && ScalesTo(f, Pow10(n - 1), rest)
    ensures ScalesTo((d as real + f) / 10.0, Pow10(n), d * Pow10(n - 1) + rest)
  {
    Scale(d, f, Pow10(n - 1), rest, (d as real + f) / 10.0, d * Pow10(n - 1) + rest);
  }

  lemma TenMillion()
    ensures Pow10(7) == STROOPS_PER_UNIT
  {
    assert Pow10(3) == 1000;
  }

  lemma Whole(w: nat, f: real, p: nat, n: nat)
    requires ScalesTo(f, p, n)
    ensures (w as real + f) * p as real == (w * p + n) as real
  {
  }

  /** The decimal's number in stroops, whatever its size. */
  lemma StroopsAreExact(value: Text)
    requires IsDecimal(value)
    ensures var n := NumeralValue(WholePart(value)) * STROOPS_PER_UNIT + NumeralValue(PadEnd(FractionPart(value), 7));
            Denotes(value) * STROOPS_PER_UNIT as real == n as real
  {
    TenMillion();
    PaddedFraction(FractionPart(value), 7);
    Whole(NumeralValue(WholePart(value)), Fraction(FractionPart(value)), STROOPS_PER_UNIT,
          NumeralValue(PadEnd(FractionPart(value), 7)));
  }

  /** At least one stroop and at most 2^63 - 1. */
  predicate InRange(stroops: real) {
    1.0 <= stroops <= 9_223_372_036_854_775_807.0
  }

  /** Accepted are exactly the decimals of at least one stroop and at most 2^63 - 1, and no digit is lost. */
  lemma ParseIsExact(value: Text)
    ensures var r := ParseExactStroops(value);
            && (r.Some? <==> (IsDecimal(value) && InRange(Denotes(value) * STROOPS_PER_UNIT as real)))
            && (r.Some? ==> r.value as real == Denotes(value) * STROOPS_PER_UNIT as real)
  {
    if IsDecimal(value) {
      SplitDecimal(value);
      StroopsAreExact(value);
    }
  }

  /** The tool accepts the same amounts as exactly, and keeps their text. */
  lemma NormalizeIsExact(amount: Text)
    ensures var r := NormalizeStellarAmount(amount);
            && (r.Some? <==> (IsDecimal(amount) && InRange(Denotes(amount) * STROOPS_PER_UNIT as real)))
            && (r.Some? ==> r.value.0 == amount && r.value.1 as real == Denotes(amount) * STROOPS_PER_UNIT as real)
  {
    if IsDecimal(amount) {
      SplitDecimal(amount);
      StroopsAreExact(amount);
    }
  }

  /** Digits, a point, and one to seven digits. */
  predicate IsPointed(value: Text, whole: Text, fraction: Text) {
    whole != [] && AllDigits(whole) && AllDigits(fraction) && 1 <= |fraction| <= 7 && value == whole + [POINT] + fraction
  }

  lemma DecimalIsPlainOrPointed(value: Text)
    requires IsDecimal(value)
    ensures AllDigits(value) || exists whole: Text, fraction: Text :: IsPointed(value, whole, fraction)
  {
    var k := DigitRun(value);
    if k < |value| {
      assert value == WholePart(value) + [POINT] + FractionPart(value);
      assert IsPointed(value, WholePart(value), FractionPart(value));
    } else {
      assert value == WholePart(value);
    }
  }

  lemma PlainIsDecimal(value: Text)
    requires value != [] && AllDigits(value)
    ensures IsDecimal(value)
  {
    DigitRunOf(value, []);
    assert value + [] == value;
  }

  lemma PointedIsDecimal(value: Text, whole: Text, fraction: Text)
    requires IsPointed(value, whole, fraction)
    ensures IsDecimal(value)
  {
    DigitRunOf(whole, [POINT] + fraction);
    assert value == whole + ([POINT] + fraction);
    assert value[|whole| + 1..] == fraction;
  }

  /** Decimals are one or more digits, and perhaps a point followed by one to seven digits; nothing else. */
  lemma DecimalsAreExactly(value: Text)
    ensures IsDecimal(value) <==>
            (value != [] && AllDigits(value)) || exists whole: Text, fraction: Text :: IsPointed(value, whole, fraction)
  {
    if IsDecimal(value) {
      DecimalIsPlainOrPointed(value);
    }
    if value != [] && AllDigits(value) {
      PlainIsDecimal(value);
    }
    if whole: Text, fraction: Text :| IsPointed(value, whole, fraction) {
      PointedIsDecimal(value, whole, fraction);
    }
  }

  lemma ScaledOrder(x: real, y: real, p: real)
    requires p > 0.0
    ensures x < y <==> x * p < y * p
  {
    if x < y {
      assert (y - x) * p > 0.0;
    } else {
      assert (x - y) * p >= 0.0;
    }
  }

  /** Stroops compare as the decimals do, so different spellings of one number are one amount. */
  lemma StroopsCompareAsNumbers(a: Text, b: Text)
    requires ParseExactStroops(a).Some? && ParseExactStroops(b).Some?
    ensures ParseExactStroops(a) == ParseExactStroops(b) <==> Denotes(a) == Denotes(b)
    ensures ParseExactStroops(a).value < ParseExactStroops(b).value <==> Denotes(a) < Denotes(b)
  {
    ParseIsExact(a);
    ParseIsExact(b);
    ScaledOrder(Denotes(a), Denotes(b), STROOPS_PER_UNIT as real);
    ScaledOrder(Denotes(b), Denotes(a), STROOPS_PER_UNIT as real);
  }

  // ---------------------------------------------------------------------------------------
  // The policy's limit

  /** The amount clause of StellarPaymentIntentPolicy.evaluate; `None` is no configured maximum. */
  function WithinLimit(maxStroops: Option<nat>, prepared: Text): bool {
    match maxStroops
    case None => true
    case Some(limit) =>
      match ParseExactStroops(prepared)
      case None => false
      case Some(stroops) => stroops <= limit
  }

  /**
    What the tool prepared never fails to parse again; without a configured maximum it passes, and with
    one exactly if it is at most that number.
  */
  lemma LimitIsExact(amount: Text, maxAmount: Text)
    requires NormalizeStellarAmount(amount).Some? && ParseExactStroops(maxAmount).Some?
    ensures var (prepared, stroops) := NormalizeStellarAmount(amount).value;
            && ParseExactStroops(prepared) == Some(stroops)
            && WithinLimit(None, prepared)
            && (WithinLimit(ParseExactStroops(maxAmount), prepared) <==> Denotes(amount) <= Denotes(maxAmount))
  {
    StroopsCompareAsNumbers(maxAmount, amount);
  }
}
