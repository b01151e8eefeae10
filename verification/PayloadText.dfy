/**
  The type-tagged text of an approval payload (src/policies/tool-approval-policy.ts:77-192), for
  payloads as trees with properties in ascending order: no text stands for two payloads.
*/
module PayloadText {
  import opened Common
  import opened Texts
  import opened JsonStrings
  import opened KeyOrder
  import Json

  /** Numbers are integers and negative zero; big integers are a type of their own. */
  datatype Shape =
    | Undef
    | Null
    | Bool(b: bool)
    | Num(n: int)
    | NegZero
    | BigInt(i: int)
    | Str(s: Text)
    | Arr(items: seq<Shape>)
    | Obj(props: seq<Keyed<Shape>>)

  const COMMA: Unit := 44
  const COLON: Unit := 58
  const CLOSE_ARRAY: Unit := 93
  const CLOSE_OBJECT: Unit := 125

  /** Every text but that of null starts with a letter and a colon. */
  function TextOf(v: Shape): (t: Text)
    ensures |t| >= 2
    decreases v
  {
    match v
    case Undef => [117, COLON]
    case Null => [110, 117, 108, 108]
    case Bool(b) => [98, COLON, if b then 49 else 48]
    case Num(n) => [110, COLON] + Json.RenderInt(n)
    case NegZero => [110, COLON, 45, 48]
    case BigInt(i) => [105, COLON] + Json.RenderInt(i)
    case Str(s) => [115, COLON] + Quote(s)
    case Arr(items) => [97, COLON, 91] + ItemsText(items) + [CLOSE_ARRAY]
    case Obj(props) => [111, COLON, 123] + PropsText(props) + [CLOSE_OBJECT]
  }

  function ItemsText(items: seq<Shape>): Text
    decreases items
  {
    if items == [] then []
    else if |items| == 1 then TextOf(items[0])
    else TextOf(items[0]) + [COMMA] + ItemsText(items[1..])
  }

  function PropText(p: Keyed<Shape>): Text
    decreases p
  {
    Quote(p.key) + [COLON] + TextOf(p.value)
  }

  function PropsText(props: seq<Keyed<Shape>>): Text
    decreases props
  {
    if props == [] then []
    else if |props| == 1 then PropText(props[0])
    else PropText(props[0]) + [COMMA] + PropsText(props[1..])
  }

  /** The text of every kind of value, by example (see also CompositeTexts). */
  lemma ScalarTextsByExample()
    ensures TextOf(Undef) == Units("u:") && TextOf(Null) == Units("null")
    ensures TextOf(Bool(true)) == Units("b:1") && TextOf(Bool(false)) == Units("b:0")
    ensures TextOf(Num(-7)) == Units("n:-7") && TextOf(NegZero) == Units("n:-0") && TextOf(BigInt(7)) == Units("i:7")
  {
    assert Numeral(7) == [55];
  }

  /** How the texts of parts make up the text of the whole. */
  lemma CompositeTexts(s: Text, v: Shape, w: Shape)
    ensures TextOf(Str(s)) == Units("s:") + Quote(s)
    ensures TextOf(Arr([])) == Units("a:[]") && TextOf(Obj([])) == Units("o:{}")
    ensures TextOf(Arr([v, w])) == Units("a:[") + (TextOf(v) + [44] + TextOf(w)) + [93]
    ensures TextOf(Obj([Keyed(s, v)])) == Units("o:{") + (Quote(s) + [58] + TextOf(v)) + [125]
  {
    assert [v, w][1..] == [w];
    assert ItemsText([v, w]) == TextOf(v) + [COMMA] + TextOf(w);
    assert Units("a:[") == [97, 58, 91] && Units("o:{") == [111, 58, 123];
    var p := Keyed(s, v);
    assert PropText(p) == Quote(s) + [58] + TextOf(v);
    assert PropsText([p]) == PropText(p);
    assert TextOf(Obj([p])) == [111, COLON, 123] + PropsText([p]) + [CLOSE_OBJECT];
  }

  // ---------------------------------------------------------------------------------------
  // No text stands for two payloads

  predicate Delimited(rest: Text) {
    rest == [] || rest[0] == COMMA || rest[0] == CLOSE_ARRAY || rest[0] == CLOSE_OBJECT
  }

  /** The constructor, told by the first two units; both zeros and numbers are tagged alike. */
  function Tag(v: Shape): (Unit, Unit) {
    match v
    case Undef => (117, COLON)
    case Null => (110, 117)
    case Bool(_) => (98, COLON)
    case Num(_) => (110, COLON)
    case NegZero => (110, COLON)
    case BigInt(_) => (105, COLON)
    case Str(_) => (115, COLON)
    case Arr(_) => (97, COLON)
    case Obj(_) => (111, COLON)
  }

  lemma TagIsRead(v: Shape, rest: Text)
    ensures var t := TextOf(v) + rest; t[0] == Tag(v).0 && t[1] == Tag(v).1
  {
  }

  lemma NumberUnambiguous(m: int, n: int, r: Text, s: Text)
    requires Delimited(r) && Delimited(s) && Json.RenderInt(m) + r == Json.RenderInt(n) + s
    ensures m == n && r == s
  {
    Json.NumberIsRead(m, r);
    Json.NumberIsRead(n, s);
  }

  /** Negative zero is not the text of an integer. */
  lemma NegZeroUnambiguous(n: int, r: Text, s: Text)
    ensures Json.RenderInt(n) + r != [45, 48] + s
  {
    var t := [45, 48] + s;
    assert t[0] == 45 && t[1] == 48;
    var u := Json.RenderInt(n) + r;
    assert u[0] == Json.RenderInt(n)[0];
    if n < 0 {
      NumeralLeadingZero(-n);
      assert u[1] == Numeral(-n)[0];
    }
  }

  lemma QuoteThenClosed(a: Text, r: Text)
    ensures (Quote(a) + r)[1..] == Closed(a, r)
  {
    RegroupFour([QUOTE], QuoteBody(a), [QUOTE], r);
  }

  lemma QuoteUnambiguous(a: Text, b: Text, r: Text, s: Text)
    requires Quote(a) + r == Quote(b) + s
    ensures a == b && r == s
  {
    QuotedIsRead(a, r);
    QuotedIsRead(b, s);
    QuoteThenClosed(a, r);
    QuoteThenClosed(b, s);
  }

  lemma DropTag(tag: Text, a: Text, b: Text, r: Text, s: Text)
    requires tag + a + r == tag + b + s
    ensures a + r == b + s
  {
    assert (tag + a + r)[|tag|..] == a + r;
    assert (tag + b + s)[|tag|..] == b + s;
  }

  lemma SameRest(t: Text, r: Text, s: Text)
    requires t + r == t + s
    ensures r == s
  {
    assert (t + r)[|t|..] == r && (t + s)[|t|..] == s;
  }

  lemma SameEnd(close: Unit, r: Text, s: Text)
    requires [] + ([close] + r) == [] + ([close] + s)
    ensures r == s
  {
    assert [] + ([close] + r) == [close] + r && [] + ([close] + s) == [close] + s;
    SameRest([close], r, s);
  }

  /** A text followed by a delimiter can be read in one way only. */
  lemma {:induction false} Unambiguous(a: Shape, b: Shape, r: Text, s: Text)
    requires Delimited(r) && Delimited(s) && TextOf(a) + r == TextOf(b) + s
    ensures a == b && r == s
    decreases a
  {
    TagIsRead(a, r);
    TagIsRead(b, s);
    match a
    case Arr(items) => ArraysUnambiguous(a, b, r, s);
    case Obj(props) => ObjectsUnambiguous(a, b, r, s);
    case _ => ScalarsUnambiguous(a, b, r, s);
  }

  lemma NumbersUnambiguous(a: Shape, b: Shape, r: Text, s: Text)
    requires (a.Num? || a.NegZero?) && (b.Num? || b.NegZero?)
    requires Delimited(r) && Delimited(s) && TextOf(a) + r == TextOf(b) + s
    ensures a == b && r == s
  {
    var x := if a.Num? then Json.RenderInt(a.n) else [45, 48];
    var y := if b.Num? then Json.RenderInt(b.n) else [45, 48];
    assert TextOf(a) == [110, COLON] + x && TextOf(b) == [110, COLON] + y;
    DropTag([110, COLON], x, y, r, s);
    if a.Num? && b.Num? {
      NumberUnambiguous(a.n, b.n, r, s);
    } else if a.Num? {
      NegZeroUnambiguous(a.n, r, s);
    } else if b.Num? {
      NegZeroUnambiguous(b.n, s, r);
    } else {
      SameRest(x, r, s);
    }
  }

  lemma ScalarsUnambiguous(a: Shape, b: Shape, r: Text, s: Text)
    requires !a.Arr? && !a.Obj? && Tag(a) == Tag(b)
    requires Delimited(r) && Delimited(s) && TextOf(a) + r == TextOf(b) + s
    ensures a == b && r == s
  {
    if a.Num? || a.NegZero? {
      NumbersUnambiguous(a, b, r, s);
    } else if a.BigInt? {
      DropTag([105, COLON], Json.RenderInt(a.i), Json.RenderInt(b.i), r, s);
      NumberUnambiguous(a.i, b.i, r, s);
    } else if a.Str? {
      DropTag([115, COLON], Quote(a.s), Quote(b.s), r, s);
      QuoteUnambiguous(a.s, b.s, r, s);
    } else {
      if a.Bool? {
        assert (TextOf(a) + r)[2] == TextOf(a)[2] && (TextOf(b) + s)[2] == TextOf(b)[2];
      }
      SameRest(TextOf(a), r, s);
    }
  }

  /** What follows the first item. */
  function AfterItem(items: seq<Shape>, rest: Text): (t: Text)
    requires items != []
    ensures Delimited(t)
  {
    if |items| == 1 then [CLOSE_ARRAY] + rest else [COMMA] + (ItemsText(items[1..]) + ([CLOSE_ARRAY] + rest))
  }

  lemma FirstItem(items: seq<Shape>, rest: Text)
    requires items != []
    ensures ItemsText(items) + ([CLOSE_ARRAY] + rest) == TextOf(items[0]) + AfterItem(items, rest)
  {
    if |items| > 1 {
      RegroupFour(TextOf(items[0]), [COMMA], ItemsText(items[1..]), [CLOSE_ARRAY] + rest);
    }
  }

  lemma {:induction false} ArraysUnambiguous(a: Shape, b: Shape, r: Text, s: Text)
    requires a.Arr? && b.Arr? && Delimited(r) && Delimited(s) && TextOf(a) + r == TextOf(b) + s
    ensures a == b && r == s
    decreases a, 0
  {
    var tag := [97, COLON, 91];
    var x, y := ItemsText(a.items) + ([CLOSE_ARRAY] + r), ItemsText(b.items) + ([CLOSE_ARRAY] + s);
    assert TextOf(a) + r == tag + x + [];
    assert TextOf(b) + s == tag + y + [];
    DropTag(tag, x, y, [], []);
    assert x + [] == x && y + [] == y;
    ItemsUnambiguous(a.items, b.items, r, s);
  }

  lemma ItemsStart(items: seq<Shape>, rest: Text)
    ensures (ItemsText(items) + ([CLOSE_ARRAY] + rest))[0] == CLOSE_ARRAY <==> items == []
  {
    if items != [] {
      FirstItem(items, rest);
      TagIsRead(items[0], AfterItem(items, rest));
    }
  }

  lemma {:induction false} ItemsUnambiguous(xs: seq<Shape>, ys: seq<Shape>, r: Text, s: Text)
    requires ItemsText(xs) + ([CLOSE_ARRAY] + r) == ItemsText(ys) + ([CLOSE_ARRAY] + s)
    ensures xs == ys && r == s
    decreases xs
  {
    ItemsStart(xs, r);
    ItemsStart(ys, s);
    if xs == [] {
      SameEnd(CLOSE_ARRAY, r, s);
    } else {
      FirstItem(xs, r);
      FirstItem(ys, s);
      Unambiguous(xs[0], ys[0], AfterItem(xs, r), AfterItem(ys, s));
      MoreItems(xs, ys, r, s);
      if |xs| > 1 {
        ItemsUnambiguous(xs[1..], ys[1..], r, s);
      }
      assert xs == [xs[0]] + xs[1..] && ys == [ys[0]] + ys[1..];
    }
  }

  lemma MoreItems(xs: seq<Shape>, ys: seq<Shape>, r: Text, s: Text)
    requires xs != [] && ys != [] && AfterItem(xs, r) == AfterItem(ys, s)
    ensures |xs| == 1 <==> |ys| == 1
    ensures |xs| == 1 ==> r == s
    ensures |xs| > 1 ==> ItemsText(xs[1..]) + ([CLOSE_ARRAY] + r) == ItemsText(ys[1..]) + ([CLOSE_ARRAY] + s)
  {
    assert AfterItem(xs, r)[0] == AfterItem(ys, s)[0];
    assert AfterItem(xs, r)[1..] == AfterItem(ys, s)[1..];
    assert |xs| == 1 ==> AfterItem(xs, r)[1..] == r;
    assert |ys| == 1 ==> AfterItem(ys, s)[1..] == s;
    assert |xs| > 1 ==> AfterItem(xs, r)[1..] == ItemsText(xs[1..]) + ([CLOSE_ARRAY] + r);
    assert |ys| > 1 ==> AfterItem(ys, s)[1..] == ItemsText(ys[1..]) + ([CLOSE_ARRAY] + s);
  }

  function AfterProp(props: seq<Keyed<Shape>>, rest: Text): (t: Text)
    requires props != []
    ensures Delimited(t)
  {
    if |props| == 1 then [CLOSE_OBJECT] + rest else [COMMA] + (PropsText(props[1..]) + ([CLOSE_OBJECT] + rest))
  }

  lemma FirstProp(props: seq<Keyed<Shape>>, rest: Text)
    requires props != []
    ensures PropsText(props) + ([CLOSE_OBJECT] + rest) ==
            Quote(props[0].key) + ([COLON] + (TextOf(props[0].value) + AfterProp(props, rest)))
  {
    var p := props[0];
    RegroupFour(Quote(p.key), [COLON], TextOf(p.value), AfterProp(props, rest));
    if |props| > 1 {
      RegroupFour(PropText(p), [COMMA], PropsText(props[1..]), [CLOSE_OBJECT] + rest);
    }
  }

  lemma {:induction false} ObjectsUnambiguous(a: Shape, b: Shape, r: Text, s: Text)
    requires a.Obj? && b.Obj? && Delimited(r) && Delimited(s) && TextOf(a) + r == TextOf(b) + s
    ensures a == b && r == s
    decreases a, 0
  {
    var tag := [111, COLON, 123];
    var x, y := PropsText(a.props) + ([CLOSE_OBJECT] + r), PropsText(b.props) + ([CLOSE_OBJECT] + s);
    assert TextOf(a) + r == tag + x + [];
    assert TextOf(b) + s == tag + y + [];
    DropTag(tag, x, y, [], []);
    assert x + [] == x && y + [] == y;
    PropsUnambiguous(a.props, b.props, r, s);
  }

  lemma PropsStart(props: seq<Keyed<Shape>>, rest: Text)
    ensures (PropsText(props) + ([CLOSE_OBJECT] + rest))[0] == CLOSE_OBJECT <==> props == []
  {
    if props != [] {
      FirstProp(props, rest);
      QuoteStarts(props[0].key, [COLON] + (TextOf(props[0].value) + AfterProp(props, rest)));
    }
  }

  lemma QuoteStarts(key: Text, rest: Text)
    ensures (Quote(key) + rest)[0] == QUOTE
  {
  }

  lemma SameKey(p: Keyed<Shape>, q: Keyed<Shape>, r: Text, s: Text)
    requires Quote(p.key) + ([COLON] + (TextOf(p.value) + r)) == Quote(q.key) + ([COLON] + (TextOf(q.value) + s))
    ensures p.key == q.key && TextOf(p.value) + r == TextOf(q.value) + s
  {
    var x, y := TextOf(p.value) + r, TextOf(q.value) + s;
    QuoteUnambiguous(p.key, q.key, [COLON] + x, [COLON] + y);
    SameRest([COLON], x, y);
  }

  lemma SameList(xs: seq<Keyed<Shape>>, ys: seq<Keyed<Shape>>)
    requires xs != [] && ys != [] && xs[0].key == ys[0].key && xs[0].value == ys[0].value && xs[1..] == ys[1..]
    ensures xs == ys
  {
    assert xs == [xs[0]] + xs[1..] && ys == [ys[0]] + ys[1..];
  }

  lemma {:induction false} PropsUnambiguous(xs: seq<Keyed<Shape>>, ys: seq<Keyed<Shape>>, r: Text, s: Text)
    requires PropsText(xs) + ([CLOSE_OBJECT] + r) == PropsText(ys) + ([CLOSE_OBJECT] + s)
    ensures xs == ys && r == s
    decreases xs
  {
    PropsStart(xs, r);
    PropsStart(ys, s);
    if xs == [] {
      SameEnd(CLOSE_OBJECT, r, s);
    } else {
      FirstProp(xs, r);
      FirstProp(ys, s);
      var p, q, after, after' := xs[0], ys[0], AfterProp(xs, r), AfterProp(ys, s);
      SameKey(p, q, after, after');
      Unambiguous(p.value, q.value, after, after');
      MoreProps(xs, ys, r, s);
      if |xs| > 1 {
        PropsUnambiguous(xs[1..], ys[1..], r, s);
      }
      SameList(xs, ys);
    }
  }

  lemma MoreProps(xs: seq<Keyed<Shape>>, ys: seq<Keyed<Shape>>, r: Text, s: Text)
    requires xs != [] && ys != [] && AfterProp(xs, r) == AfterProp(ys, s)
    ensures |xs| == 1 <==> |ys| == 1
    ensures |xs| == 1 ==> r == s
    ensures |xs| == 1 ==> xs[1..] == ys[1..]
    ensures |xs| > 1 ==> PropsText(xs[1..]) + ([CLOSE_OBJECT] + r) == PropsText(ys[1..]) + ([CLOSE_OBJECT] + s)
  {
    assert AfterProp(xs, r)[0] == AfterProp(ys, s)[0];
    assert AfterProp(xs, r)[1..] == AfterProp(ys, s)[1..];
    assert |xs| == 1 ==> AfterProp(xs, r)[1..] == r;
    assert |ys| == 1 ==> AfterProp(ys, s)[1..] == s;
    assert |xs| > 1 ==> AfterProp(xs, r)[1..] == PropsText(xs[1..]) + ([CLOSE_OBJECT] + r);
    assert |ys| > 1 ==> AfterProp(ys, s)[1..] == PropsText(ys[1..]) + ([CLOSE_OBJECT] + s);
  }

  /** One text, one payload: 0 and -0, 1 and "1" and 1n, a missing and an undefined property all differ. */
  lemma TextDeterminesShape(a: Shape, b: Shape)
    requires TextOf(a) == TextOf(b)
    ensures a == b
  {
    assert TextOf(a) + [] == TextOf(a) && TextOf(b) + [] == TextOf(b);
    Unambiguous(a, b, [], []);
  }
}
