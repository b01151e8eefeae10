/**
  String literals of JSON: what JSON.stringify writes and what JSON.parse reads (RFC 8259 section 7,
  with the escapes of well-formed JSON.stringify for unpaired surrogates).
*/
module JsonStrings {
  import opened Common
  import opened Texts

  const QUOTE: Unit := 34
  const BACKSLASH: Unit := 92

  /** The letter after the backslash of a short escape; 0 stands for no short escape. */
  function ShortEscape(u: Unit): (c: Unit)
    ensures c < 0x80 && c != 117
  {
    if u == QUOTE || u == BACKSLASH then u
    else if u == 8 then 98 else if u == 9 then 116 else if u == 10 then 110
    else if u == 12 then 102 else if u == 13 then 114 else 0
  }

  predicate IsSurrogate(u: Unit) {
    0xd800 <= u <= 0xdfff
  }

  /** A code unit outside a surrogate pair. */
  function EscapeUnit(u: Unit): (t: Text)
    ensures t != []
  {
    if ShortEscape(u) != 0 then [BACKSLASH, ShortEscape(u)]
    else if u < 0x20 || IsSurrogate(u) then [BACKSLASH, 117] + Hex4(u)
    else [u]
  }

  function QuoteBody(s: Text): (t: Text)
    ensures |t| >= |s|
  {
    if s == [] then []
    else if StartsWithPair(s) then s[..2] + QuoteBody(s[2..])
    else EscapeUnit(s[0]) + QuoteBody(s[1..])
  }

  /** JSON.stringify of a string. */
  function Quote(s: Text): (t: Text)
    ensures |t| >= 2 && t[0] == QUOTE
  {
    [QUOTE] + QuoteBody(s) + [QUOTE]
  }

  /** The escapes of JSON.stringify, one by one. */
  lemma EscapesAreStandard()
    ensures EscapeUnit(8) == Units("\\b") && EscapeUnit(9) == Units("\\t") && EscapeUnit(10) == Units("\\n")
    ensures EscapeUnit(12) == Units("\\f") && EscapeUnit(13) == Units("\\r")
    ensures EscapeUnit(34) == Units("\\\"") && EscapeUnit(92) == Units("\\\\")
    ensures EscapeUnit(0) == Units("\\u0000") && EscapeUnit(0x1f) == Units("\\u001f") && EscapeUnit(0xd800) == Units("\\ud800")
    ensures EscapeUnit(47) == Units("/") && EscapeUnit(0x7f) == [0x7f] && EscapeUnit(0x20ac) == [0x20ac]
  {
    assert Hex4(0) == [48, 48, 48, 48] && Hex4(0x1f) == [48, 48, 49, 102] && Hex4(0xd800) == [100, 56, 48, 48];
  }

  /** What a short escape stands for; `None` if the letter is no short escape. */
  function ReadShort(c: Unit): Option<Unit> {
    if c == QUOTE || c == BACKSLASH || c == 47 then Some(c)
    else if c == 98 then Some(8) else if c == 116 then Some(9) else if c == 110 then Some(10)
    else if c == 102 then Some(12) else if c == 114 then Some(13) else None
  }

  /** Reads one code unit of a literal's body and says how many units it took. */
  function ReadUnit(t: Text): (r: Option<(Unit, nat)>)
    requires t != []
    ensures r.Some? ==> 0 < r.value.1 <= |t|
  {
    if t[0] < 0x20 || t[0] == QUOTE then None
    else if t[0] != BACKSLASH then Some((t[0], 1))
    else if |t| < 2 then None
    else if t[1] == 117 then
      if |t| >= 6 && IsHex4(t[2..6]) then Some((Hex4Value(t[2..6]), 6)) else None
    else if ReadShort(t[1]).Some? then Some((ReadShort(t[1]).value, 2))
    else None
  }

  /** Reads the body of a literal up to its closing quote; the second part is what follows. */
  function ReadString(t: Text): (r: Option<(Text, Text)>)
    ensures r.Some? ==> |r.value.1| < |t|
    decreases |t|
  {
    if t == [] then None
    else if t[0] == QUOTE then Some(([], t[1..]))
    else if ReadUnit(t).None? then None
    else
      var (u, n) := ReadUnit(t).value;
      var tail := ReadString(t[n..]);
      if tail.None? then None else Some(([u] + tail.value.0, tail.value.1))
  }

  lemma EscapedUnitIsRead(u: Unit, more: Text)
    ensures var t := EscapeUnit(u) + more;
            t[0] != QUOTE && ReadUnit(t) == Some((u, |EscapeUnit(u)|)) && t[|EscapeUnit(u)|..] == more
  {
    var t := EscapeUnit(u) + more;
    if ShortEscape(u) == 0 && (u < 0x20 || IsSurrogate(u)) {
      assert t[2..6] == Hex4(u);
      Hex4RoundTrip(u);
    }
  }

  lemma RawUnitIsRead(u: Unit, more: Text, rest: Text, s: Text)
    requires IsSurrogate(u) && ReadString(more) == Some((s, rest))
    ensures ReadString([u] + more) == Some(([u] + s, rest))
  {
    assert ([u] + more)[1..] == more;
  }

  lemma UnitThenRest(u: Unit, more: Text, rest: Text, s: Text)
    requires ReadString(more) == Some((s, rest))
    ensures ReadString(EscapeUnit(u) + more) == Some(([u] + s, rest))
  {
    EscapedUnitIsRead(u, more);
  }

  lemma PairThenRest(u: Unit, v: Unit, more: Text, rest: Text, s: Text)
    requires IsSurrogate(u) && IsSurrogate(v) && ReadString(more) == Some((s, rest))
    ensures ReadString([u, v] + more) == Some(([u, v] + s, rest))
  {
    RawUnitIsRead(v, more, rest, s);
    RawUnitIsRead(u, [v] + more, rest, [v] + s);
    assert [u, v] + more == [u] + ([v] + more);
    assert [u, v] + s == [u] + ([v] + s);
  }

  /** A literal's body, its closing quote and what follows. */
  function Closed(s: Text, rest: Text): Text {
    QuoteBody(s) + ([QUOTE] + rest)
  }

  lemma ClosedUnfolds(s: Text, rest: Text)
    ensures s == [] ==> Closed(s, rest) == [QUOTE] + rest
    ensures StartsWithPair(s) ==> Closed(s, rest) == [s[0], s[1]] + Closed(s[2..], rest)
    ensures s != [] && !StartsWithPair(s) ==> Closed(s, rest) == EscapeUnit(s[0]) + Closed(s[1..], rest)
  {
    if StartsWithPair(s) {
      assert s[..2] == [s[0], s[1]];
    }
  }

  lemma QuoteEnds(rest: Text)
    ensures ReadString([QUOTE] + rest) == Some(([], rest))
  {
    assert ([QUOTE] + rest)[1..] == rest;
  }

  /** Reading back what was written gives the string and leaves what follows. */
  lemma {:induction false} QuotedIsRead(s: Text, rest: Text)
    ensures ReadString(Closed(s, rest)) == Some((s, rest))
  {
    ClosedUnfolds(s, rest);
    if s == [] {
      QuoteEnds(rest);
    } else if StartsWithPair(s) {
      QuotedIsRead(s[2..], rest);
      PairThenRest(s[0], s[1], Closed(s[2..], rest), rest, s[2..]);
      assert [s[0], s[1]] + s[2..] == s;
    } else {
      QuotedIsRead(s[1..], rest);
      UnitThenRest(s[0], Closed(s[1..], rest), rest, s[1..]);
      assert [s[0]] + s[1..] == s;
    }
  }

  // ---------------------------------------------------------------------------------------
  // What written text contains

  /** No control character, so in particular no newline. */
  predicate NoControls(t: Text) {
    forall i :: 0 <= i < |t| ==> t[i] >= 0x20
  }

  /** Every surrogate is half of a pair, so writing the text as UTF-8 loses nothing. */
  predicate PairsOnly(t: Text) {
    t == [] || (if StartsWithPair(t) then PairsOnly(t[2..]) else !IsSurrogate(t[0]) && PairsOnly(t[1..]))
  }

  lemma {:induction false} PairsOnlyConcat(a: Text, b: Text)
    requires PairsOnly(a) && PairsOnly(b)
    ensures PairsOnly(a + b)
  {
    if a == [] {
      assert a + b == b;
    } else {
      var n := if StartsWithPair(a) then 2 else 1;
      PairsOnlyConcat(a[n..], b);
      assert (a + b)[n..] == a[n..] + b;
      assert StartsWithPair(a + b) <==> StartsWithPair(a);
    }
  }

  lemma {:induction false} AsciiHasPairsOnly(t: Text)
    requires forall i :: 0 <= i < |t| ==> t[i] < 0x80
    ensures PairsOnly(t)
  {
    if t != [] {
      AsciiHasPairsOnly(t[1..]);
    }
  }

  lemma EscapedUnitIsClean(u: Unit)
    ensures NoControls(EscapeUnit(u)) && PairsOnly(EscapeUnit(u))
  {
    if EscapeUnit(u) == [u] {
      assert [u][1..] == [];
    } else {
      AsciiHasPairsOnly(EscapeUnit(u));
    }
  }

  lemma {:induction false} QuotedIsClean(s: Text)
    ensures NoControls(QuoteBody(s)) && PairsOnly(QuoteBody(s))
  {
    if s == [] {
    } else if StartsWithPair(s) {
      QuotedIsClean(s[2..]);
      assert s[..2][2..] == [];
      PairsOnlyConcat(s[..2], QuoteBody(s[2..]));
    } else {
      QuotedIsClean(s[1..]);
      EscapedUnitIsClean(s[0]);
      PairsOnlyConcat(EscapeUnit(s[0]), QuoteBody(s[1..]));
    }
  }

  lemma QuoteIsClean(s: Text)
    ensures NoControls(Quote(s)) && PairsOnly(Quote(s))
  {
    QuotedIsClean(s);
    AsciiHasPairsOnly([QUOTE]);
    PairsOnlyConcat(QuoteBody(s), [QUOTE]);
    PairsOnlyConcat([QUOTE], QuoteBody(s) + [QUOTE]);
    assert Quote(s) == [QUOTE] + (QuoteBody(s) + [QUOTE]);
  }
}
