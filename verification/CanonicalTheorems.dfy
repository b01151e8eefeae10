/**
  What the canonical text of a value is worth: it determines the value, parsing it and printing it
  are inverse, and the verifier's comparison accepts exactly the texts the printer can produce.
*/
module CanonicalTheorems {
  import opened Common
  import opened Texts
  import opened JsonStrings
  import opened KeyOrder
  import opened Json
  import opened CanonicalJson

  // ---------------------------------------------------------------------------------------
  // The canonical form is a fixed point

  /** In canonical form: no negative zero, and every object's keys ascending. */
  predicate InForm(v: Json)
    decreases v
  {
    match v
    case NegZero => false
    case Arr(items) => InFormItems(items)
    case Obj(entries) => Sorted(entries) && InFormEntries(entries)
    case _ => true
  }

  predicate InFormItems(items: seq<Json>)
    decreases items
  {
    items == [] || (InForm(items[0]) && InFormItems(items[1..]))
  }

  predicate InFormEntries(entries: seq<Entry>)
    decreases entries
  {
    entries == [] || (InForm(entries[0].value) && InFormEntries(entries[1..]))
  }

  lemma {:induction false} InsertKeepsForm(e: Entry, entries: seq<Entry>)
    requires InFormEntries(entries) && InForm(e.value)
    ensures InFormEntries(Insert(e, entries))
  {
    var r := Insert(e, entries);
    if entries == [] || Before(e.key, entries[0].key) {
      assert r[1..] == entries;
    } else {
      InsertKeepsForm(e, entries[1..]);
      assert r[1..] == Insert(e, entries[1..]);
    }
  }

  lemma {:induction false} SortKeepsForm(entries: seq<Entry>)
    requires InFormEntries(entries)
    ensures InFormEntries(Sort(entries))
  {
    if entries != [] {
      SortKeepsForm(entries[1..]);
      InsertKeepsForm(entries[0], Sort(entries[1..]));
    }
  }

  lemma {:induction false} CanonicalIsInForm(v: Json)
    requires Proper(v)
    ensures InForm(Canonical(v))
    decreases v
  {
    match v
    case Arr(items) => CanonicalItemsInForm(items);
    case Obj(entries) =>
      CanonicalEntriesInForm(entries);
      CanonicalKeepsDistinct(entries);
      SortSorts(CanonicalEntries(entries));
      SortKeepsForm(CanonicalEntries(entries));
    case _ =>
  }

  lemma {:induction false} CanonicalItemsInForm(items: seq<Json>)
    requires ProperItems(items)
    ensures InFormItems(CanonicalItems(items))
    decreases items
  {
    if items != [] {
      CanonicalIsInForm(items[0]);
      CanonicalItemsInForm(items[1..]);
    }
  }

  lemma {:induction false} CanonicalEntriesInForm(entries: seq<Entry>)
    requires ProperEntries(entries)
    ensures InFormEntries(CanonicalEntries(entries))
    decreases entries
  {
    if entries != [] {
      CanonicalIsInForm(entries[0].value);
      CanonicalEntriesInForm(entries[1..]);
    }
  }

  lemma {:induction false} FormIsFixed(v: Json)
    requires InForm(v)
    ensures Canonical(v) == v && Written(v) == v
    decreases v
  {
    match v
    case Arr(items) => FormItemsAreFixed(items);
    case Obj(entries) =>
      FormEntriesAreFixed(entries);
      SortedIsFixed(entries);
    case _ =>
  }

  lemma {:induction false} FormItemsAreFixed(items: seq<Json>)
    requires InFormItems(items)
    ensures CanonicalItems(items) == items && WrittenItems(items) == items
    decreases items
  {
    if items != [] {
      FormIsFixed(items[0]);
      FormItemsAreFixed(items[1..]);
    }
  }

  lemma {:induction false} FormEntriesAreFixed(entries: seq<Entry>)
    requires InFormEntries(entries)
    ensures CanonicalEntries(entries) == entries && WrittenEntries(entries) == entries
    decreases entries
  {
    if entries != [] {
      FormIsFixed(entries[0].value);
      FormEntriesAreFixed(entries[1..]);
      assert Keyed(entries[0].key, entries[0].value) == entries[0];
    }
  }

  lemma CanonicalIsFixed(v: Json)
    requires Proper(v)
    ensures Canonical(Canonical(v)) == Canonical(v) && Written(Canonical(v)) == Canonical(v)
  {
    CanonicalIsInForm(v);
    FormIsFixed(Canonical(v));
  }

  lemma {:induction false} CanonicalFits(v: Json, depth: nat)
    ensures Fits(Canonical(v), depth) <==> Fits(v, depth)
    decreases v
  {
    match v
    case Arr(items) =>
      forall i | 0 <= i < |items| ensures Fits(Canonical(items[i]), depth + 1) <==> Fits(items[i], depth + 1) {
        CanonicalFits(items[i], depth + 1);
      }
    case Obj(entries) =>
      var canonical := CanonicalEntries(entries);
      forall i | 0 <= i < |entries|
        ensures Fits(canonical[i].value, depth + 1) <==> Fits(entries[i].value, depth + 1)
      {
        CanonicalFits(entries[i].value, depth + 1);
      }
      SortedFit(canonical, depth);
    case _ =>
  }

  // ---------------------------------------------------------------------------------------
  // Reading gives values JavaScript can hold

  lemma {:induction false} DefineKeys(entries: seq<Entry>, e: Entry, key: Text)
    ensures HasKey(Define(entries, e), key) <==> key == e.key || HasKey(entries, key)
  {
    if entries != [] && entries[0].key != e.key {
      DefineKeys(entries[1..], e, key);
    }
  }

  lemma {:induction false} DefineKeepsProper(entries: seq<Entry>, e: Entry)
    requires DistinctKeys(entries) && ProperEntries(entries) && Proper(e.value)
    ensures DistinctKeys(Define(entries, e)) && ProperEntries(Define(entries, e))
  {
    if entries == [] {
    } else if entries[0].key == e.key {
      assert ([e] + entries[1..])[1..] == entries[1..];
    } else {
      DefineKeepsProper(entries[1..], e);
      DefineKeys(entries[1..], e, entries[0].key);
      assert Define(entries, e)[1..] == Define(entries[1..], e);
    }
  }

  lemma {:induction false} DefineAllKeepsProper(entries: seq<Entry>, more: seq<Entry>)
    requires DistinctKeys(entries) && ProperEntries(entries) && ProperEntries(more)
    ensures DistinctKeys(DefineAll(entries, more)) && ProperEntries(DefineAll(entries, more))
    decreases more
  {
    if more != [] {
      DefineKeepsProper(entries, more[0]);
      DefineAllKeepsProper(Define(entries, more[0]), more[1..]);
    }
  }

  lemma {:induction false} ReadIsProper(t: Text)
    requires ReadValue(t).Some?
    ensures Proper(ReadValue(t).value.0)
    decreases |t|, 1
  {
    if t[0] == OPEN_ARRAY {
      var u := SkipSpace(t[1..]);
      if !Starts(u, CLOSE_ARRAY) {
        ReadItemsAreProper(u);
      }
    } else if t[0] == OPEN_OBJECT {
      var u := SkipSpace(t[1..]);
      if !Starts(u, CLOSE_OBJECT) {
        ReadEntriesAreProper(u);
        DefineAllKeepsProper([], ReadEntries(u).value.0);
      }
    }
  }

  lemma {:induction false} ReadItemsAreProper(t: Text)
    requires ReadItems(t).Some?
    ensures ProperItems(ReadItems(t).value.0)
    decreases |t|, 3
  {
    ReadIsProper(t);
    var first := ReadValue(t).value;
    var u := SkipSpace(first.1);
    if Starts(u, COMMA) {
      var more := SkipSpace(u[1..]);
      ReadItemsAreProper(more);
      ItemsPush(first.0, ReadItems(more).value.0);
    }
  }

  lemma ItemsPush(v: Json, items: seq<Json>)
    requires Proper(v) && ProperItems(items)
    ensures ProperItems([v] + items)
  {
    assert ([v] + items)[1..] == items;
  }

  lemma EntriesPush(e: Entry, entries: seq<Entry>)
    requires Proper(e.value) && ProperEntries(entries)
    ensures ProperEntries([e] + entries)
  {
    assert ([e] + entries)[1..] == entries;
  }

  lemma ReadEntryIsProper(t: Text)
    requires ReadEntry(t).Some?
    ensures Proper(ReadEntry(t).value.0.value)
    decreases |t|, 2
  {
    var u := SkipSpace(ReadString(t[1..]).value.1);
    ReadIsProper(SkipSpace(u[1..]));
  }

  lemma {:induction false} ReadEntriesAreProper(t: Text)
    requires ReadEntries(t).Some?
    ensures ProperEntries(ReadEntries(t).value.0)
    decreases |t|, 3
  {
    ReadEntryIsProper(t);
    var first := ReadEntry(t).value;
    var u := SkipSpace(first.1);
    if Starts(u, COMMA) {
      var more := SkipSpace(u[1..]);
      ReadEntriesAreProper(more);
      EntriesPush(first.0, ReadEntries(more).value.0);
    }
  }

  // ---------------------------------------------------------------------------------------
  // Main results

  /** Parsing what was printed gives the value back, with its keys sorted and -0 as 0. */
  lemma ParseUndoesCanon(v: Json)
    requires Proper(v) && Canon(v, 0).Some?
    ensures Parse(Canon(v, 0).value) == Some(Canonical(v))
  {
    CanonicalIsProper(v);
    CanonicalIsFixed(v);
    ParseUndoesRender(Canonical(v));
  }

  /** Printing the parsed text gives the text back. */
  lemma PrintingIsFixed(v: Json)
    requires Proper(v) && Canon(v, 0).Some?
    ensures Canon(Canonical(v), 0) == Canon(v, 0)
  {
    CanonicalIsFixed(v);
    CanonicalFits(v, 0);
  }

  /** The check `canonicalAuditJson(JSON.parse(line)) === line`. */
  predicate IsCanonicalLine(line: Text) {
    Parse(line).Some? && Canon(Parse(line).value, 0) == Some(line)
  }

  /** It accepts exactly the texts that the printer produces. */
  lemma CheckAcceptsPrintedTexts(line: Text)
    ensures IsCanonicalLine(line) <==> exists v: Json :: Proper(v) && Canon(v, 0) == Some(line)
  {
    if IsCanonicalLine(line) {
      ReadIsProper(SkipSpace(line));
      assert Proper(Parse(line).value) && Canon(Parse(line).value, 0) == Some(line);
    }
    if v: Json :| Proper(v) && Canon(v, 0) == Some(line) {
      ParseUndoesCanon(v);
      PrintingIsFixed(v);
    }
  }

  /** A printed text has no raw newline, and writing it as UTF-8 loses nothing. */
  lemma PrintedTextIsOneLine(v: Json)
    requires Canon(v, 0).Some?
    ensures NEWLINE !in Canon(v, 0).value && PairsOnly(Canon(v, 0).value)
  {
    RenderIsClean(Canonical(v));
  }

  // ---------------------------------------------------------------------------------------
  // Equal texts mean equal values

  function Lookup(entries: seq<Entry>, key: Text): (r: Option<Json>)
    ensures r.Some? <==> HasKey(entries, key)
  {
    if entries == [] then None
    else if entries[0].key == key then Some(entries[0].value)
    else Lookup(entries[1..], key)
  }

  lemma {:induction false} FoundAt(entries: seq<Entry>, key: Text) returns (i: nat)
    requires HasKey(entries, key)
    ensures i < |entries| && entries[i] == Keyed(key, Lookup(entries, key).value)
  {
    if entries[0].key == key {
      i := 0;
    } else {
      i := FoundAt(entries[1..], key);
      i := i + 1;
    }
  }

  /** The same value as JavaScript sees it: property order and the sign of zero aside. */
  ghost predicate SameValue(a: Json, b: Json)
    decreases a
  {
    match a
    case NegZero => b == NegZero || b == Num(0)
    case Num(n) => b == a || (n == 0 && b == NegZero)
    case Arr(items) =>
      b.Arr? && |items| == |b.items| && forall i :: 0 <= i < |items| ==> SameValue(items[i], b.items[i])
    case Obj(entries) =>
      && b.Obj?
      && (forall key: Text :: HasKey(entries, key) <==> HasKey(b.entries, key))
      && forall i :: 0 <= i < |entries| ==>
           Lookup(b.entries, entries[i].key).Some? && SameValue(entries[i].value, Lookup(b.entries, entries[i].key).value)
    case _ => a == b
  }

  ghost predicate SameLookups(a: seq<Entry>, b: seq<Entry>) {
    forall key: Text :: Lookup(a, key) == Lookup(b, key)
  }

  lemma TailLookups(a: seq<Entry>, key: Text)
    requires a != [] && Sorted(a)
    ensures Lookup(a[1..], key) == if key == a[0].key then None else Lookup(a, key)
  {
    SortedIsDistinct(a);
  }

  lemma SameHead(a: seq<Entry>, b: seq<Entry>)
    requires a != [] && b != [] && Sorted(a) && Sorted(b) && SameLookups(a, b)
    ensures a[0] == b[0]
  {
    var x, y := a[0].key, b[0].key;
    assert Lookup(a, x) == Lookup(b, x) && Lookup(a, y) == Lookup(b, y);
    if x != y {
      assert HasKey(a, y) && HasKey(b, x);
      HeadIsLeast(a, y);
      HeadIsLeast(b, x);
      BeforeIsStrict(x, y);
    }
  }

  lemma SameEmptiness(a: seq<Entry>, b: seq<Entry>)
    requires SameLookups(a, b)
    ensures a == [] <==> b == []
  {
    var key := if a != [] then a[0].key else if b != [] then b[0].key else [];
    assert Lookup(a, key) == Lookup(b, key);
  }

  lemma {:induction false} SortedByLookups(a: seq<Entry>, b: seq<Entry>)
    requires Sorted(a) && Sorted(b) && SameLookups(a, b)
    ensures a == b
  {
    if a == [] || b == [] {
      SameEmptiness(a, b);
    } else {
      SameHead(a, b);
      forall key: Text ensures Lookup(a[1..], key) == Lookup(b[1..], key) {
        TailLookups(a, key);
        TailLookups(b, key);
        assert Lookup(a, key) == Lookup(b, key);
      }
      SortedByLookups(a[1..], b[1..]);
      assert a == [a[0]] + a[1..] && b == [b[0]] + b[1..];
    }
  }

  lemma {:induction false} InsertLookup(e: Entry, entries: seq<Entry>, key: Text)
    requires !HasKey(entries, e.key)
    ensures Lookup(Insert(e, entries), key) == if key == e.key then Some(e.value) else Lookup(entries, key)
  {
    var r := Insert(e, entries);
    if entries == [] || Before(e.key, entries[0].key) {
      assert r[1..] == entries;
    } else {
      InsertLookup(e, entries[1..], key);
      assert r[1..] == Insert(e, entries[1..]);
    }
  }

  lemma {:induction false} SortLookup(entries: seq<Entry>, key: Text)
    requires DistinctKeys(entries)
    ensures Lookup(Sort(entries), key) == Lookup(entries, key)
  {
    if entries != [] {
      SortLookup(entries[1..], key);
      SortKeys(entries[1..], entries[0].key);
      InsertLookup(entries[0], Sort(entries[1..]), key);
    }
  }

  lemma {:induction false} CanonicalLookup(entries: seq<Entry>, key: Text)
    ensures Lookup(CanonicalEntries(entries), key) ==
            if HasKey(entries, key) then Some(Canonical(Lookup(entries, key).value)) else None
  {
    if entries != [] {
      CanonicalLookup(entries[1..], key);
    }
  }

  /** An object's canonical form looks up the canonical forms of its values. */
  lemma FormLookup(entries: seq<Entry>, key: Text)
    requires DistinctKeys(entries)
    ensures Lookup(Sort(CanonicalEntries(entries)), key) ==
            if HasKey(entries, key) then Some(Canonical(Lookup(entries, key).value)) else None
  {
    CanonicalKeepsDistinct(entries);
    SortLookup(CanonicalEntries(entries), key);
    CanonicalLookup(entries, key);
  }

  lemma {:induction false} ProperAt(entries: seq<Entry>, i: nat)
    requires i < |entries| && ProperEntries(entries) && DistinctKeys(entries)
    ensures Proper(entries[i].value) && Lookup(entries, entries[i].key) == Some(entries[i].value)
  {
    if i > 0 {
      ProperAt(entries[1..], i - 1);
    }
  }

  lemma {:induction false} ProperItemAt(items: seq<Json>, i: nat)
    requires i < |items| && ProperItems(items)
    ensures Proper(items[i])
  {
    if i > 0 {
      ProperItemAt(items[1..], i - 1);
    }
  }

  /** The canonical forms agree exactly if the values are the same. */
  lemma {:induction false} SameFormIsSameValue(a: Json, b: Json)
    requires Proper(a) && Proper(b)
    ensures Canonical(a) == Canonical(b) <==> SameValue(a, b)
    decreases a
  {
    if a.Arr? && b.Arr? && |a.items| == |b.items| {
      SameItems(a, b);
    } else if a.Obj? && b.Obj? {
      SameProperties(a, b);
    }
  }

  lemma {:induction false} SameItems(a: Json, b: Json)
    requires Proper(a) && Proper(b) && a.Arr? && b.Arr? && |a.items| == |b.items|
    ensures Canonical(a) == Canonical(b) <==> SameValue(a, b)
    decreases a, 0
  {
    var x, y := CanonicalItems(a.items), CanonicalItems(b.items);
    forall i | 0 <= i < |x| ensures x[i] == y[i] <==> SameValue(a.items[i], b.items[i]) {
      ProperItemAt(a.items, i);
      ProperItemAt(b.items, i);
      SameFormIsSameValue(a.items[i], b.items[i]);
    }
  }

  lemma {:induction false} SameProperty(a: Json, b: Json, i: nat)
    requires Proper(a) && Proper(b) && a.Obj? && b.Obj? && i < |a.entries|
    requires HasKey(b.entries, a.entries[i].key)
    ensures Lookup(a.entries, a.entries[i].key) == Some(a.entries[i].value)
    ensures Canonical(a.entries[i].value) == Canonical(Lookup(b.entries, a.entries[i].key).value) <==>
            SameValue(a.entries[i].value, Lookup(b.entries, a.entries[i].key).value)
    decreases a, 0
  {
    ProperAt(a.entries, i);
    var key := a.entries[i].key;
    var j := FoundAt(b.entries, key);
    ProperAt(b.entries, j);
    SameFormIsSameValue(a.entries[i].value, b.entries[j].value);
  }

  lemma {:induction false} SameProperties(a: Json, b: Json)
    requires Proper(a) && Proper(b) && a.Obj? && b.Obj?
    ensures Canonical(a) == Canonical(b) <==> SameValue(a, b)
    decreases a, 1
  {
    var x, y := Sort(CanonicalEntries(a.entries)), Sort(CanonicalEntries(b.entries));
    if x == y {
      forall key: Text ensures HasKey(a.entries, key) <==> HasKey(b.entries, key) {
        FormLookup(a.entries, key);
        FormLookup(b.entries, key);
      }
      forall i | 0 <= i < |a.entries|
        ensures Lookup(b.entries, a.entries[i].key).Some? &&
                SameValue(a.entries[i].value, Lookup(b.entries, a.entries[i].key).value)
      {
        ProperAt(a.entries, i);
        FormLookup(a.entries, a.entries[i].key);
        FormLookup(b.entries, a.entries[i].key);
        SameProperty(a, b, i);
      }
    }
    if SameValue(a, b) {
      forall key: Text ensures Lookup(x, key) == Lookup(y, key) {
        FormLookup(a.entries, key);
        FormLookup(b.entries, key);
        if HasKey(a.entries, key) {
          var i := FoundAt(a.entries, key);
          SameProperty(a, b, i);
        }
      }
      CanonicalKeepsDistinct(a.entries);
      CanonicalKeepsDistinct(b.entries);
      SortSorts(CanonicalEntries(a.entries));
      SortSorts(CanonicalEntries(b.entries));
      SortedByLookups(x, y);
    }
  }

  /** Two values print to the same text exactly if they are the same value. */
  lemma SameTextIsSameValue(a: Json, b: Json)
    requires Proper(a) && Proper(b) && Canon(a, 0).Some? && Canon(b, 0).Some?
    ensures Canon(a, 0) == Canon(b, 0) <==> SameValue(a, b)
  {
    SameFormIsSameValue(a, b);
    ParseUndoesCanon(a);
    ParseUndoesCanon(b);
  }
}
