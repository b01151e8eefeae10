/**
  JSON values, JSON.stringify without whitespace and JSON.parse (RFC 8259).

  Numbers are integers and negative zero: fractions and exponents are not modelled, and the reader
  refuses them.
*/
module Json {
  import opened Common
  import opened Texts
  import opened JsonStrings
  import opened KeyOrder

  /** An object's own properties in the order in which they were defined. */
  datatype Json =
    | Null
    | Bool(b: bool)
    | Num(n: int)
    | NegZero
    | Str(s: Text)
    | Arr(items: seq<Json>)
    | Obj(entries: seq<Entry>)

  type Entry = Keyed<Json>

  const COMMA: Unit := 44
  const MINUS: Unit := 45
  const COLON: Unit := 58
  const OPEN_ARRAY: Unit := 91
  const CLOSE_ARRAY: Unit := 93
  const OPEN_OBJECT: Unit := 123
  const CLOSE_OBJECT: Unit := 125

  const NULL: Text := [110, 117, 108, 108]
  const TRUE: Text := [116, 114, 117, 101]
  const FALSE: Text := [102, 97, 108, 115, 101]

  // ---------------------------------------------------------------------------------------
  // Writing

  function RenderInt(n: int): (t: Text)
    ensures t != []
  {
    if n < 0 then [MINUS] + Numeral(-n) else Numeral(n)
  }

  /** The text of a value, with its properties in their own order. */
  function Render(v: Json): (t: Text)
    decreases v
  {
    match v
    case Null => NULL
    case Bool(b) => if b then TRUE else FALSE
    case Num(n) => RenderInt(n)
    case NegZero => Numeral(0)
    case Str(s) => Quote(s)
    case Arr(items) => [OPEN_ARRAY] + RenderItems(items) + [CLOSE_ARRAY]
    case Obj(entries) => [OPEN_OBJECT] + RenderEntries(entries) + [CLOSE_OBJECT]
  }

  function RenderItems(items: seq<Json>): Text
    decreases items
  {
    if items == [] then []
    else if |items| == 1 then Render(items[0])
    else Render(items[0]) + [COMMA] + RenderItems(items[1..])
  }

  function RenderEntry(e: Entry): Text
    decreases e
  {
    Quote(e.key) + [COLON] + Render(e.value)
  }

  function RenderEntries(entries: seq<Entry>): Text
    decreases entries
  {
    if entries == [] then []
    else if |entries| == 1 then RenderEntry(entries[0])
    else RenderEntry(entries[0]) + [COMMA] + RenderEntries(entries[1..])
  }

  // ---------------------------------------------------------------------------------------
  // Reading

  predicate IsSpace(u: Unit) {
    u == 0x20 || u == 9 || u == 10 || u == 13
  }

  function SkipSpace(t: Text): (r: Text)
    ensures |r| <= |t|
    ensures r == [] || !IsSpace(r[0])
  {
    if t != [] && IsSpace(t[0]) then SkipSpace(t[1..]) else t
  }

  predicate Starts(t: Text, u: Unit) {
    t != [] && t[0] == u
  }

  /** Setting a property: an existing key keeps its place, a new one goes to the end. */
  function Define(entries: seq<Entry>, e: Entry): seq<Entry> {
    if entries == [] then [e]
    else if entries[0].key == e.key then [e] + entries[1..]
    else [entries[0]] + Define(entries[1..], e)
  }

  function DefineAll(entries: seq<Entry>, more: seq<Entry>): seq<Entry>
    decreases more
  {
    if more == [] then entries else DefineAll(Define(entries, more[0]), more[1..])
  }

  /** An unsigned integer: a zero, or digits that do not start with one. */
  function ReadDigits(t: Text): (r: Option<(nat, Text)>)
    ensures r.Some? ==> |r.value.1| < |t|
  {
    var run := DigitRun(t);
    if run == 0 then None
    else
      var m := if t[0] == 48 then 1 else run;
      Some((NumeralValue(t[..m]), t[m..]))
  }

  function ReadNumber(t: Text): (r: Option<(Json, Text)>)
    ensures r.Some? ==> |r.value.1| < |t|
  {
    var negative := Starts(t, MINUS);
    var digits := ReadDigits(if negative then t[1..] else t);
    if digits.None? then None
    else
      var (n, rest) := digits.value;
      if Starts(rest, 46) || Starts(rest, 69) || Starts(rest, 101) then None
      else Some((if !negative then Num(n) else if n == 0 then NegZero else Num(-(n as int)), rest))
  }

  function ReadWord(t: Text, word: Text, v: Json): (r: Option<(Json, Text)>)
    requires word != []
    ensures r.Some? ==> |r.value.1| < |t|
  {
    if word <= t then Some((v, t[|word|..])) else None
  }

  /** Reads a value that starts at the first unit. */
  function ReadValue(t: Text): (r: Option<(Json, Text)>)
    ensures r.Some? ==> |r.value.1| < |t|
    decreases |t|, 1
  {
    if t == [] then None
    else if t[0] == QUOTE then
      var s := ReadString(t[1..]);
      if s.None? then None else Some((Str(s.value.0), s.value.1))
    else if t[0] == OPEN_ARRAY then
      var u := SkipSpace(t[1..]);
      if Starts(u, CLOSE_ARRAY) then Some((Arr([]), u[1..]))
      else
        var r := ReadItems(u);
        if r.None? then None else Some((Arr(r.value.0), r.value.1))
    else if t[0] == OPEN_OBJECT then
      var u := SkipSpace(t[1..]);
      if Starts(u, CLOSE_OBJECT) then Some((Obj([]), u[1..]))
      else
        var r := ReadEntries(u);
        if r.None? then None else Some((Obj(DefineAll([], r.value.0)), r.value.1))
    else if t[0] == 110 then ReadWord(t, NULL, Null)
    else if t[0] == 116 then ReadWord(t, TRUE, Bool(true))
    else if t[0] == 102 then ReadWord(t, FALSE, Bool(false))
    else ReadNumber(t)
  }

  /** Reads one or more values up to the closing bracket. */
  function ReadItems(t: Text): (r: Option<(seq<Json>, Text)>)
    ensures r.Some? ==> |r.value.1| < |t|
    decreases |t|, 3
  {
    var first := ReadValue(t);
    if first.None? then None
    else
      var u := SkipSpace(first.value.1);
      if Starts(u, CLOSE_ARRAY) then Some(([first.value.0], u[1..]))
      else if Starts(u, COMMA) then
        var more := ReadItems(SkipSpace(u[1..]));
        if more.None? then None else Some(([first.value.0] + more.value.0, more.value.1))
      else None
  }

  function ReadEntry(t: Text): (r: Option<(Entry, Text)>)
    ensures r.Some? ==> |r.value.1| < |t|
    decreases |t|, 2
  {
    if !Starts(t, QUOTE) then None
    else
      var key := ReadString(t[1..]);
      if key.None? then None
      else
        var u := SkipSpace(key.value.1);
        if !Starts(u, COLON) then None
        else
          var v := ReadValue(SkipSpace(u[1..]));
          if v.None? then None else Some((Keyed(key.value.0, v.value.0), v.value.1))
  }

  /** Reads one or more properties up to the closing brace. */
  function ReadEntries(t: Text): (r: Option<(seq<Entry>, Text)>)
    ensures r.Some? ==> |r.value.1| < |t|
    decreases |t|, 3
  {
    var first := ReadEntry(t);
    if first.None? then None
    else
      var u := SkipSpace(first.value.1);
      if Starts(u, CLOSE_OBJECT) then Some(([first.value.0], u[1..]))
      else if Starts(u, COMMA) then
        var more := ReadEntries(SkipSpace(u[1..]));
        if more.None? then None else Some(([first.value.0] + more.value.0, more.value.1))
      else None
  }

  /** JSON.parse; `None` is a syntax error. */
  function Parse(t: Text): Option<Json> {
    var r := ReadValue(SkipSpace(t));
    if r.Some? && SkipSpace(r.value.1) == [] then Some(r.value.0) else None
  }

  // ---------------------------------------------------------------------------------------
  // Round trip

  /** A value as JavaScript can hold it: no object has two properties of one name. */
  predicate Proper(v: Json)
    decreases v
  {
    match v
    case Arr(items) => ProperItems(items)
    case Obj(entries) => DistinctKeys(entries) && ProperEntries(entries)
    case _ => true
  }

  predicate ProperItems(items: seq<Json>)
    decreases items
  {
    items == [] || (Proper(items[0]) && ProperItems(items[1..]))
  }

  predicate ProperEntries(entries: seq<Entry>)
    decreases entries
  {
    entries == [] || (Proper(entries[0].value) && ProperEntries(entries[1..]))
  }

  /** The value that reading its text gives back: negative zero is written as zero. */
  function Written(v: Json): Json
    decreases v
  {
    match v
    case NegZero => Num(0)
    case Arr(items) => Arr(WrittenItems(items))
    case Obj(entries) => Obj(WrittenEntries(entries))
    case _ => v
  }

  function WrittenItems(items: seq<Json>): (r: seq<Json>)
    ensures |r| == |items|
    decreases items
  {
    if items == [] then [] else [Written(items[0])] + WrittenItems(items[1..])
  }

  function WrittenEntries(entries: seq<Entry>): (r: seq<Entry>)
    ensures |r| == |entries|
    decreases entries
  {
    if entries == [] then []
    else [Keyed(entries[0].key, Written(entries[0].value))] + WrittenEntries(entries[1..])
  }

  lemma {:induction false} WrittenKeepsKeys(entries: seq<Entry>, key: Text)
    ensures HasKey(WrittenEntries(entries), key) <==> HasKey(entries, key)
  {
    if entries != [] {
      WrittenKeepsKeys(entries[1..], key);
    }
  }

  lemma {:induction false} WrittenKeepsDistinct(entries: seq<Entry>)
    requires DistinctKeys(entries)
    ensures DistinctKeys(WrittenEntries(entries))
  {
    if entries != [] {
      WrittenKeepsDistinct(entries[1..]);
      WrittenKeepsKeys(entries[1..], entries[0].key);
    }
  }

  /** What may follow a value: nothing, a comma or a closing bracket. */
  predicate Delimited(rest: Text) {
    rest == [] || rest[0] == COMMA || rest[0] == CLOSE_ARRAY || rest[0] == CLOSE_OBJECT
  }

  predicate TokenStart(t: Text) {
    t != [] && !IsSpace(t[0]) && t[0] != CLOSE_ARRAY && t[0] != CLOSE_OBJECT
  }

  lemma RenderStarts(v: Json)
    ensures TokenStart(Render(v))
  {
  }

  lemma RenderItemsStarts(items: seq<Json>)
    requires items != []
    ensures TokenStart(RenderItems(items))
  {
    RenderStarts(items[0]);
  }

  lemma RenderEntriesStarts(entries: seq<Entry>)
    requires entries != []
    ensures TokenStart(RenderEntries(entries)) && RenderEntries(entries)[0] == QUOTE
  {
  }

  /** The digits of a numeral, and nothing of what follows, are taken as the number. */
  lemma DigitsAreRead(m: nat, rest: Text)
    requires Delimited(rest)
    ensures ReadDigits(Numeral(m) + rest) == Some((m, rest))
  {
    var digits := Numeral(m);
    var t := digits + rest;
    DigitRunOf(digits, rest);
    NumeralRoundTrip(m);
    NumeralLeadingZero(m);
    assert t[..|digits|] == digits && t[|digits|..] == rest;
  }

  lemma NumberIsRead(n: int, rest: Text)
    requires Delimited(rest)
    ensures ReadNumber(RenderInt(n) + rest) == Some((Num(n), rest))
  {
    if n < 0 {
      NegativeIsRead(-n, rest);
    } else {
      DigitsAreRead(n, rest);
      assert !Starts(Numeral(n) + rest, MINUS);
    }
  }

  lemma NegativeIsRead(m: nat, rest: Text)
    requires m > 0 && Delimited(rest)
    ensures ReadNumber([MINUS] + Numeral(m) + rest) == Some((Num(-(m as int)), rest))
  {
    DigitsAreRead(m, rest);
    var t := [MINUS] + Numeral(m) + rest;
    Regroup([MINUS], Numeral(m), rest);
    assert t[1..] == Numeral(m) + rest && Starts(t, MINUS);
  }

  lemma NumberStarts(n: int)
    ensures IsDigit(RenderInt(n)[0]) || RenderInt(n)[0] == MINUS
  {
  }

  lemma NumberValue(n: int, rest: Text)
    requires Delimited(rest)
    ensures ReadValue(RenderInt(n) + rest) == Some((Num(n), rest))
  {
    NumberIsRead(n, rest);
    NumberStarts(n);
    assert (RenderInt(n) + rest)[0] == RenderInt(n)[0];
  }

  lemma WordIsRead(v: Json, rest: Text)
    requires v.Null? || v.Bool?
    ensures ReadValue(Render(v) + rest) == Some((v, rest))
  {
    var t := Render(v) + rest;
    assert t[|Render(v)|..] == rest;
    assert Render(v) <= t;
  }

  lemma StringIsRead(s: Text, rest: Text)
    ensures ReadValue(Quote(s) + rest) == Some((Str(s), rest))
  {
    QuotedIsRead(s, rest);
    assert (Quote(s) + rest)[1..] == Closed(s, rest);
  }

  lemma {:induction false} AllDefined(done: seq<Entry>, more: seq<Entry>)
    requires DistinctKeys(more)
    requires forall i :: 0 <= i < |done| ==> !HasKey(more, done[i].key)
    ensures DefineAll(done, more) == done + more
    decreases more
  {
    if more != [] {
      NewKeyGoesLast(done, more[0]);
      AllDefined(done + [more[0]], more[1..]);
      assert done + more == done + [more[0]] + more[1..];
    } else {
      assert done + more == done;
    }
  }

  lemma {:induction false} NewKeyGoesLast(done: seq<Entry>, e: Entry)
    requires forall i :: 0 <= i < |done| ==> done[i].key != e.key
    ensures Define(done, e) == done + [e]
  {
    if done != [] {
      NewKeyGoesLast(done[1..], e);
      assert done + [e] == [done[0]] + (done[1..] + [e]);
    }
  }

  /** Reading the text of a value gives the value and what followed the text. */
  lemma {:induction false} ValueIsRead(v: Json, rest: Text)
    requires Proper(v) && Delimited(rest)
    ensures ReadValue(Render(v) + rest) == Some((Written(v), rest))
    decreases v
  {
    match v
    case Null => WordIsRead(v, rest);
    case Bool(_) => WordIsRead(v, rest);
    case Num(n) => NumberValue(n, rest);
    case NegZero => NumberValue(0, rest);
    case Str(s) => StringIsRead(s, rest);
    case Arr(items) =>
      if items != [] {
        ItemsAreRead(items, rest);
      }
      ArrayIsRead(items, rest);
    case Obj(entries) =>
      if entries != [] {
        EntriesAreRead(entries, rest);
      }
      ObjectIsRead(entries, rest);
  }

  lemma BracketOpens(u: Text, items: seq<Json>, rest: Text)
    requires TokenStart(u) && ReadItems(u) == Some((items, rest))
    ensures ReadValue([OPEN_ARRAY] + u) == Some((Arr(items), rest))
  {
    var t := [OPEN_ARRAY] + u;
    assert t[1..] == u;
  }

  lemma EmptyArrayIsRead(rest: Text)
    ensures ReadValue([OPEN_ARRAY, CLOSE_ARRAY] + rest) == Some((Arr([]), rest))
  {
    var t := [OPEN_ARRAY, CLOSE_ARRAY] + rest;
    assert t[1..][1..] == rest;
  }

  lemma ArrayIsRead(items: seq<Json>, rest: Text)
    requires items != [] ==>
      ReadItems(RenderItems(items) + ([CLOSE_ARRAY] + rest)) == Some((WrittenItems(items), rest))
    ensures ReadValue(Render(Arr(items)) + rest) == Some((Written(Arr(items)), rest))
  {
    var u := RenderItems(items) + ([CLOSE_ARRAY] + rest);
    RegroupFour([OPEN_ARRAY], RenderItems(items), [CLOSE_ARRAY], rest);
    if items == [] {
      EmptyArrayIsRead(rest);
      assert [OPEN_ARRAY] + u == [OPEN_ARRAY, CLOSE_ARRAY] + rest;
    } else {
      RenderItemsStarts(items);
      assert u[0] == RenderItems(items)[0];
      BracketOpens(u, WrittenItems(items), rest);
    }
  }

  lemma BraceOpens(u: Text, raw: seq<Entry>, rest: Text)
    requires TokenStart(u) && ReadEntries(u) == Some((raw, rest)) && DistinctKeys(raw)
    ensures ReadValue([OPEN_OBJECT] + u) == Some((Obj(raw), rest))
  {
    var t := [OPEN_OBJECT] + u;
    assert t[1..] == u;
    AllDefined([], raw);
    assert DefineAll([], raw) == raw;
  }

  lemma EmptyObjectIsRead(rest: Text)
    ensures ReadValue([OPEN_OBJECT, CLOSE_OBJECT] + rest) == Some((Obj([]), rest))
  {
    var t := [OPEN_OBJECT, CLOSE_OBJECT] + rest;
    assert t[1..][1..] == rest;
  }

  lemma ObjectIsRead(entries: seq<Entry>, rest: Text)
    requires DistinctKeys(entries)
    requires entries != [] ==>
      ReadEntries(RenderEntries(entries) + ([CLOSE_OBJECT] + rest)) == Some((WrittenEntries(entries), rest))
    ensures ReadValue(Render(Obj(entries)) + rest) == Some((Written(Obj(entries)), rest))
  {
    var u := RenderEntries(entries) + ([CLOSE_OBJECT] + rest);
    RegroupFour([OPEN_OBJECT], RenderEntries(entries), [CLOSE_OBJECT], rest);
    if entries == [] {
      EmptyObjectIsRead(rest);
      assert [OPEN_OBJECT] + u == [OPEN_OBJECT, CLOSE_OBJECT] + rest;
    } else {
      RenderEntriesStarts(entries);
      assert u[0] == RenderEntries(entries)[0];
      WrittenKeepsDistinct(entries);
      BraceOpens(u, WrittenEntries(entries), rest);
    }
  }

  lemma {:induction false} ItemsAreRead(items: seq<Json>, rest: Text)
    requires items != [] && ProperItems(items)
    ensures ReadItems(RenderItems(items) + ([CLOSE_ARRAY] + rest)) == Some((WrittenItems(items), rest))
    decreases items
  {
    var v := items[0];
    if |items| == 1 {
      ValueIsRead(v, [CLOSE_ARRAY] + rest);
      LastItem(Render(v) + ([CLOSE_ARRAY] + rest), Written(v), rest);
      assert WrittenItems(items) == [Written(v)];
    } else {
      ItemsAreRead(items[1..], rest);
      var more := RenderItems(items[1..]) + ([CLOSE_ARRAY] + rest);
      ValueIsRead(v, [COMMA] + more);
      RenderItemsStarts(items[1..]);
      assert more[0] == RenderItems(items[1..])[0];
      NextItem(Render(v) + ([COMMA] + more), Written(v), more, WrittenItems(items[1..]), rest);
      ItemsText(items, [CLOSE_ARRAY] + rest);
    }
  }

  lemma ItemsText(items: seq<Json>, rest: Text)
    requires |items| > 1
    ensures RenderItems(items) + rest == Render(items[0]) + ([COMMA] + (RenderItems(items[1..]) + rest))
  {
    RegroupFour(Render(items[0]), [COMMA], RenderItems(items[1..]), rest);
  }

  lemma LastItem(t: Text, v: Json, rest: Text)
    requires ReadValue(t) == Some((v, [CLOSE_ARRAY] + rest))
    ensures ReadItems(t) == Some(([v], rest))
  {
    assert ([CLOSE_ARRAY] + rest)[1..] == rest;
  }

  lemma NextItem(t: Text, v: Json, more: Text, others: seq<Json>, rest: Text)
    requires ReadValue(t) == Some((v, [COMMA] + more))
    requires TokenStart(more) && ReadItems(more) == Some((others, rest))
    ensures ReadItems(t) == Some(([v] + others, rest))
  {
    assert ([COMMA] + more)[1..] == more;
  }

  /** A key, a colon and a value are read as a property. */
  lemma EntryParts(body: Text, key: Text, u: Text, v: Json, rest: Text)
    requires ReadString(body) == Some((key, [COLON] + u)) && TokenStart(u) && ReadValue(u) == Some((v, rest))
    ensures ReadEntry([QUOTE] + body) == Some((Keyed(key, v), rest))
  {
    assert ([QUOTE] + body)[1..] == body && ([COLON] + u)[1..] == u;
  }

  lemma EntryText(e: Entry, rest: Text)
    ensures RenderEntry(e) + rest == [QUOTE] + Closed(e.key, [COLON] + (Render(e.value) + rest))
  {
    RegroupFour(Quote(e.key), [COLON], Render(e.value), rest);
    RegroupFour([QUOTE], QuoteBody(e.key), [QUOTE], [COLON] + (Render(e.value) + rest));
  }

  lemma EntryIsRead(e: Entry, rest: Text)
    requires ReadValue(Render(e.value) + rest) == Some((Written(e.value), rest))
    ensures ReadEntry(RenderEntry(e) + rest) == Some((Keyed(e.key, Written(e.value)), rest))
  {
    var u := Render(e.value) + rest;
    QuotedIsRead(e.key, [COLON] + u);
    RenderStarts(e.value);
    assert u[0] == Render(e.value)[0];
    EntryText(e, rest);
    EntryParts(Closed(e.key, [COLON] + u), e.key, u, Written(e.value), rest);
  }

  lemma LastEntry(t: Text, e: Entry, rest: Text)
    requires ReadEntry(t) == Some((e, [CLOSE_OBJECT] + rest))
    ensures ReadEntries(t) == Some(([e], rest))
  {
    assert ([CLOSE_OBJECT] + rest)[1..] == rest;
  }

  lemma NextEntry(t: Text, e: Entry, more: Text, others: seq<Entry>, rest: Text)
    requires ReadEntry(t) == Some((e, [COMMA] + more))
    requires TokenStart(more) && ReadEntries(more) == Some((others, rest))
    ensures ReadEntries(t) == Some(([e] + others, rest))
  {
    assert ([COMMA] + more)[1..] == more;
  }

  lemma EntriesText(entries: seq<Entry>, rest: Text)
    requires |entries| > 1
    ensures RenderEntries(entries) + rest == RenderEntry(entries[0]) + ([COMMA] + (RenderEntries(entries[1..]) + rest))
  {
    RegroupFour(RenderEntry(entries[0]), [COMMA], RenderEntries(entries[1..]), rest);
  }

  lemma {:induction false} EntriesAreRead(entries: seq<Entry>, rest: Text)
    requires entries != [] && ProperEntries(entries)
    ensures ReadEntries(RenderEntries(entries) + ([CLOSE_OBJECT] + rest)) == Some((WrittenEntries(entries), rest))
    decreases entries
  {
    var e := entries[0];
    var w := Keyed(e.key, Written(e.value));
    if |entries| == 1 {
      ValueIsRead(e.value, [CLOSE_OBJECT] + rest);
      EntryIsRead(e, [CLOSE_OBJECT] + rest);
      LastEntry(RenderEntry(e) + ([CLOSE_OBJECT] + rest), w, rest);
      assert WrittenEntries(entries) == [w];
    } else {
      EntriesAreRead(entries[1..], rest);
      var more := RenderEntries(entries[1..]) + ([CLOSE_OBJECT] + rest);
      ValueIsRead(e.value, [COMMA] + more);
      EntryIsRead(e, [COMMA] + more);
      RenderEntriesStarts(entries[1..]);
      assert more[0] == RenderEntries(entries[1..])[0];
      NextEntry(RenderEntry(e) + ([COMMA] + more), w, more, WrittenEntries(entries[1..]), rest);
      EntriesText(entries, [CLOSE_OBJECT] + rest);
    }
  }

  /** JSON.parse undoes JSON.stringify. */
  lemma ParseUndoesRender(v: Json)
    requires Proper(v)
    ensures Parse(Render(v)) == Some(Written(v))
  {
    ValueIsRead(v, []);
    RenderStarts(v);
    assert Render(v) + [] == Render(v);
  }

  // ---------------------------------------------------------------------------------------
  // What written text contains

  predicate Clean(t: Text) {
    NoControls(t) && PairsOnly(t)
  }

  lemma CleanConcat(a: Text, b: Text)
    requires Clean(a) && Clean(b)
    ensures Clean(a + b)
  {
    PairsOnlyConcat(a, b);
  }

  lemma CleanAscii(t: Text)
    requires forall i :: 0 <= i < |t| ==> 0x20 <= t[i] < 0x80
    ensures Clean(t)
  {
    AsciiHasPairsOnly(t);
  }

  /** Written text has no raw newline and no unpaired surrogate. */
  lemma {:induction false} RenderIsClean(v: Json)
    ensures Clean(Render(v))
    decreases v
  {
    match v
    case Str(s) => QuoteIsClean(s);
    case Arr(items) =>
      RenderItemsIsClean(items);
      Enclose(RenderItems(items), OPEN_ARRAY, CLOSE_ARRAY);
    case Obj(entries) =>
      RenderEntriesIsClean(entries);
      Enclose(RenderEntries(entries), OPEN_OBJECT, CLOSE_OBJECT);
    case _ => CleanAscii(Render(v));
  }

  lemma Enclose(t: Text, open: Unit, close: Unit)
    requires Clean(t) && 0x20 <= open < 0x80 && 0x20 <= close < 0x80
    ensures Clean([open] + t + [close])
  {
    CleanAscii([open]);
    CleanAscii([close]);
    CleanConcat([open], t);
    CleanConcat([open] + t, [close]);
  }

  lemma {:induction false} RenderItemsIsClean(items: seq<Json>)
    ensures Clean(RenderItems(items))
    decreases items
  {
    if items != [] {
      RenderIsClean(items[0]);
      if |items| > 1 {
        RenderItemsIsClean(items[1..]);
        Between(Render(items[0]), COMMA, RenderItems(items[1..]));
      }
    }
  }

  lemma Between(a: Text, u: Unit, b: Text)
    requires Clean(a) && Clean(b) && 0x20 <= u < 0x80
    ensures Clean(a + [u] + b)
  {
    CleanAscii([u]);
    CleanConcat(a, [u]);
    CleanConcat(a + [u], b);
  }

  lemma {:induction false} RenderEntriesIsClean(entries: seq<Entry>)
    ensures Clean(RenderEntries(entries))
    decreases entries
  {
    if entries != [] {
      var e := entries[0];
      QuoteIsClean(e.key);
      RenderIsClean(e.value);
      Between(Quote(e.key), COLON, Render(e.value));
      if |entries| > 1 {
        RenderEntriesIsClean(entries[1..]);
        Between(RenderEntry(e), COMMA, RenderEntries(entries[1..]));
      }
    }
  }
}
