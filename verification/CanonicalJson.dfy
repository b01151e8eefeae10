/**
  The canonical JSON of the audit ledger (src/audit/canonical-json.ts): properties in code-unit
  order, negative zero as zero, bounded depth and string size.

  Values are trees, so the source's guard against cycles has nothing left to refuse.
*/
module CanonicalJson {
  import opened Common
  import opened Texts
  import opened JsonStrings
  import opened KeyOrder
  import opened Json

  const MAX_CANONICAL_DEPTH := 12
  const MAX_STRING_BYTES := 16384

  // ---------------------------------------------------------------------------------------
  // The canonical form of a value

  function Canonical(v: Json): (r: Json)
    decreases v
  {
    match v
    case NegZero => Num(0)
    case Arr(items) => Arr(CanonicalItems(items))
    case Obj(entries) => Obj(Sort(CanonicalEntries(entries)))
    case _ => v
  }

  function CanonicalItems(items: seq<Json>): (r: seq<Json>)
    ensures |r| == |items|
    ensures forall i :: 0 <= i < |items| ==> r[i] == Canonical(items[i])
    decreases items
  {
    if items == [] then [] else [Canonical(items[0])] + CanonicalItems(items[1..])
  }

  function CanonicalEntries(entries: seq<Entry>): (r: seq<Entry>)
    ensures |r| == |entries|
    ensures forall i :: 0 <= i < |entries| ==> r[i] == Keyed(entries[i].key, Canonical(entries[i].value))
    decreases entries
  {
    if entries == [] then []
    else [Keyed(entries[0].key, Canonical(entries[0].value))] + CanonicalEntries(entries[1..])
  }

  /** What the printer accepts: at most twelve levels below the root, and no string above 16 KiB. */
  predicate Fits(v: Json, depth: nat)
    decreases v
  {
    && depth <= MAX_CANONICAL_DEPTH
    && (v.Str? ==> Utf8Length(v.s) <= MAX_STRING_BYTES)
    && (v.Arr? ==> forall i :: 0 <= i < |v.items| ==> Fits(v.items[i], depth + 1))
    && (v.Obj? ==> forall i :: 0 <= i < |v.entries| ==> Fits(v.entries[i].value, depth + 1))
  }

  /** canonicalAuditJson as a function; `None` is AUDIT_CANONICALIZATION_FAILED. */
  function Canon(v: Json, depth: nat): Option<Text> {
    if Fits(v, depth) then Some(Render(Canonical(v))) else None
  }

  /** Arrays in arrays, this many levels around a null. */
  function Nested(levels: nat): Json {
    if levels == 0 then Null else Arr([Nested(levels - 1)])
  }

  /** Twelve levels below the root are accepted, thirteen are not; strings of 16384 bytes are, longer ones are not. */
  lemma {:induction false} LimitsAreExact(levels: nat, depth: nat, s: Text)
    ensures Fits(Nested(levels), depth) <==> levels + depth <= 12
    ensures Fits(Str(s), 0) <==> Utf8Length(s) <= 16384
  {
    if levels > 0 {
      LimitsAreExact(levels - 1, depth + 1, s);
      assert Nested(levels).items[0] == Nested(levels - 1);
    }
  }

  // ---------------------------------------------------------------------------------------
  // The printer

  function Join(parts: seq<Text>): Text {
    if parts == [] then [] else if |parts| == 1 then parts[0] else parts[0] + [COMMA] + Join(parts[1..])
  }

  lemma {:induction false} JoinItems(parts: seq<Text>, items: seq<Json>)
    requires |parts| == |items| && forall i :: 0 <= i < |parts| ==> parts[i] == Render(items[i])
    ensures Join(parts) == RenderItems(items)
  {
    if |parts| > 1 {
      JoinItems(parts[1..], items[1..]);
    }
  }

  lemma {:induction false} JoinEntries(parts: seq<Text>, entries: seq<Entry>)
    requires |parts| == |entries| && forall i :: 0 <= i < |parts| ==> parts[i] == RenderEntry(entries[i])
    ensures Join(parts) == RenderEntries(entries)
  {
    if |parts| > 1 {
      JoinEntries(parts[1..], entries[1..]);
    }
  }

  lemma {:induction false} InsertCommutes(e: Entry, entries: seq<Entry>)
    ensures CanonicalEntries(Insert(e, entries)) == Insert(Keyed(e.key, Canonical(e.value)), CanonicalEntries(entries))
  {
    if entries != [] && !Before(e.key, entries[0].key) {
      InsertCommutes(e, entries[1..]);
    }
  }

  lemma {:induction false} SortCommutes(entries: seq<Entry>)
    ensures CanonicalEntries(Sort(entries)) == Sort(CanonicalEntries(entries))
  {
    if entries != [] {
      SortCommutes(entries[1..]);
      InsertCommutes(entries[0], Sort(entries[1..]));
    }
  }

  lemma SortedFit(entries: seq<Entry>, depth: nat)
    ensures Fits(Obj(Sort(entries)), depth) <==> Fits(Obj(entries), depth)
  {
    var sorted := Sort(entries);
    forall i | 0 <= i < |sorted| ensures sorted[i] in entries {
      SortMember(entries, sorted[i]);
    }
    forall i | 0 <= i < |entries| ensures entries[i] in sorted {
      SortMember(entries, entries[i]);
    }
  }

  /** The recursive printer of the source, which collects the parts in a loop and joins them. */
  method CanonicalAuditJson(v: Json, depth: nat) returns (out: Option<Text>)
    ensures out == Canon(v, depth)
    decreases v
  {
    if depth > MAX_CANONICAL_DEPTH {
      return None;
    }
    match v {
      case Str(s) =>
        if Utf8Length(s) > MAX_STRING_BYTES {
          return None;
        }
        return Some(Render(v));
      case NegZero =>
        return Some(Numeral(0));
      case Arr(items) =>
        out := PrintItems(v, items, depth);
      case Obj(entries) =>
        out := PrintEntries(v, entries, depth);
      case _ =>
        return Some(Render(v));
    }
  }

  method PrintItems(ghost v: Json, values: seq<Json>, depth: nat) returns (out: Option<Text>)
    requires v == Arr(values) && depth <= MAX_CANONICAL_DEPTH
    ensures out == Canon(v, depth)
    decreases v, 0
  {
    var parts: seq<Text> := [];
    for i := 0 to |values|
      invariant |parts| == i
      invariant forall j :: 0 <= j < i ==> Fits(values[j], depth + 1) && parts[j] == Render(Canonical(values[j]))
    {
      var part := CanonicalAuditJson(values[i], depth + 1);
      if part.None? {
        return None;
      }
      parts := parts + [part.value];
    }
    JoinItems(parts, CanonicalItems(values));
    return Some([OPEN_ARRAY] + Join(parts) + [CLOSE_ARRAY]);
  }

  lemma FieldsJoined(fields: seq<Text>, properties: seq<Entry>)
    requires var sorted := Sort(properties);
             |fields| == |sorted| && forall i :: 0 <= i < |sorted| ==>
               fields[i] == RenderEntry(Keyed(sorted[i].key, Canonical(sorted[i].value)))
    ensures [OPEN_OBJECT] + Join(fields) + [CLOSE_OBJECT] == Render(Canonical(Obj(properties)))
  {
    JoinEntries(fields, CanonicalEntries(Sort(properties)));
    SortCommutes(properties);
  }

  lemma SortedValueIsSmaller(v: Json, i: nat)
    requires v.Obj? && i < |v.entries|
    ensures Sort(v.entries)[i].value < v
  {
    SortMember(v.entries, Sort(v.entries)[i]);
    var k :| 0 <= k < |v.entries| && v.entries[k] == Sort(v.entries)[i];
  }

  method PrintEntries(ghost v: Json, properties: seq<Entry>, depth: nat) returns (out: Option<Text>)
    requires v == Obj(properties) && depth <= MAX_CANONICAL_DEPTH
    ensures out == Canon(v, depth)
    decreases v, 0
  {
    var sorted := Sort(properties);
    SortedFit(properties, depth);
    var fields: seq<Text> := [];
    for i := 0 to |sorted|
      invariant |fields| == i
      invariant forall j :: 0 <= j < i ==>
        Fits(sorted[j].value, depth + 1) && fields[j] == RenderEntry(Keyed(sorted[j].key, Canonical(sorted[j].value)))
    {
      SortedValueIsSmaller(v, i);
      var part := CanonicalAuditJson(sorted[i].value, depth + 1);
      if part.None? {
        return None;
      }
      fields := fields + [Quote(sorted[i].key) + [COLON] + part.value];
    }
    FieldsJoined(fields, properties);
    return Some([OPEN_OBJECT] + Join(fields) + [CLOSE_OBJECT]);
  }

  // ---------------------------------------------------------------------------------------
  // What canonical forms keep

  lemma {:induction false} InsertKeepsProper(e: Entry, entries: seq<Entry>)
    requires ProperEntries(entries) && Proper(e.value)
    ensures ProperEntries(Insert(e, entries))
  {
    var r := Insert(e, entries);
    if entries == [] || Before(e.key, entries[0].key) {
      assert r[1..] == entries;
    } else {
      InsertKeepsProper(e, entries[1..]);
      assert r[1..] == Insert(e, entries[1..]);
    }
  }

  lemma {:induction false} SortKeepsProper(entries: seq<Entry>)
    requires DistinctKeys(entries) && ProperEntries(entries)
    ensures DistinctKeys(Sort(entries)) && ProperEntries(Sort(entries))
  {
    if entries != [] {
      SortKeepsProper(entries[1..]);
      SortKeys(entries[1..], entries[0].key);
      InsertKeepsDistinct(entries[0], Sort(entries[1..]));
      InsertKeepsProper(entries[0], Sort(entries[1..]));
    }
  }

  lemma {:induction false} CanonicalKeys(entries: seq<Entry>, key: Text)
    ensures HasKey(CanonicalEntries(entries), key) <==> HasKey(entries, key)
  {
    if entries != [] {
      CanonicalKeys(entries[1..], key);
    }
  }

  lemma {:induction false} CanonicalKeepsDistinct(entries: seq<Entry>)
    requires DistinctKeys(entries)
    ensures DistinctKeys(CanonicalEntries(entries))
  {
    if entries != [] {
      CanonicalKeepsDistinct(entries[1..]);
      CanonicalKeys(entries[1..], entries[0].key);
    }
  }

  lemma {:induction false} CanonicalIsProper(v: Json)
    requires Proper(v)
    ensures Proper(Canonical(v))
    decreases v
  {
    match v
    case Arr(items) => CanonicalItemsAreProper(items);
    case Obj(entries) =>
      CanonicalEntriesAreProper(entries);
      CanonicalKeepsDistinct(entries);
      SortKeepsProper(CanonicalEntries(entries));
    case _ =>
  }

  lemma {:induction false} CanonicalItemsAreProper(items: seq<Json>)
    requires ProperItems(items)
    ensures ProperItems(CanonicalItems(items))
    decreases items
  {
    if items != [] {
      CanonicalIsProper(items[0]);
      CanonicalItemsAreProper(items[1..]);
    }
  }

  lemma {:induction false} CanonicalEntriesAreProper(entries: seq<Entry>)
    requires ProperEntries(entries)
    ensures ProperEntries(CanonicalEntries(entries))
    decreases entries
  {
    if entries != [] {
      CanonicalIsProper(entries[0].value);
      CanonicalEntriesAreProper(entries[1..]);
    }
  }
}
