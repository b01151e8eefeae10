/**
  Audit records (src/audit/runtime-audit-schema.ts): their shape, the text whose digest they carry,
  and the check of one parsed record.
*/
module AuditRecords {
  import opened Common
  import opened Texts
  import opened KeyOrder
  import opened Json
  import opened CanonicalJson
  import opened CanonicalTheorems
  import opened Digests

  const MAX_SAFE_INTEGER: nat := 9_007_199_254_740_991

  const EVENT: Text := Units("event")
  const PREVIOUS_DIGEST: Text := Units("previousDigest")
  const RECORD_DIGEST: Text := Units("recordDigest")
  const SEQUENCE: Text := Units("sequence")
  const VERSION: Text := Units("version")
  const NAME: Text := Units("name")
  const PAYLOAD: Text := Units("payload")

  const RUNTIME_AUDIT_VERSION: Text := Units("agentlily.runtime-audit/v1")

  /** RUNTIME_AUDIT_EVENT_CATALOG */
  predicate KnownEvent(name: Text) {
    || name == Units("runtime.internal.error")
    || name == Units("runtime.started")
    || name == Units("runtime.stopped")
    || name == Units("runtime.task.received")
    || name == Units("runtime.task.completed")
    || name == Units("runtime.task.failed")
    || name == Units("runtime.task.reconciled")
    || name == Units("runtime.tool.invoked")
    || name == Units("runtime.tool.denied")
  }

  function KeysOf(entries: seq<Entry>): (keys: seq<Text>)
    ensures |keys| == |entries|
    ensures forall i :: 0 <= i < |keys| ==> keys[i] == entries[i].key
  {
    seq(|entries|, i requires 0 <= i < |entries| => entries[i].key)
  }

  /** exactAuditKeys, for expected names given in ascending order. */
  predicate ExactKeys(entries: seq<Entry>, expected: seq<Text>) {
    KeysOf(Sort(entries)) == expected
  }

  function OrNull(digest: Option<Digest>): Json {
    if digest.Some? then Str(digest.value) else Null
  }

  /** The part of a record that its digest covers. */
  function Body(event: Json, previous: Option<Digest>, sequence: int): Json {
    Obj([Keyed(EVENT, event), Keyed(PREVIOUS_DIGEST, OrNull(previous)), Keyed(SEQUENCE, Num(sequence)),
         Keyed(VERSION, Str(RUNTIME_AUDIT_VERSION))])
  }

  /** A record with its properties in ascending order. */
  function Record(event: Json, previous: Option<Digest>, digest: Digest, sequence: int): Json {
    Obj([Keyed(EVENT, event), Keyed(PREVIOUS_DIGEST, OrNull(previous)), Keyed(RECORD_DIGEST, Str(digest)),
         Keyed(SEQUENCE, Num(sequence)), Keyed(VERSION, Str(RUNTIME_AUDIT_VERSION))])
  }

  /** assertRuntimeEventForAudit */
  predicate IsAuditEvent(event: Json) {
    && event.Obj?
    && ExactKeys(event.entries, [NAME, PAYLOAD])
    && Lookup(event.entries, NAME).Some? && Lookup(event.entries, PAYLOAD).Some?
    && Lookup(event.entries, NAME).value.Str?
    && KnownEvent(Lookup(event.entries, NAME).value.s)
    && Canon(Lookup(event.entries, PAYLOAD).value, 0).Some?
  }

  function EventOf(parsed: Json): Json {
    if parsed.Obj? && Lookup(parsed.entries, EVENT).Some? then Lookup(parsed.entries, EVENT).value else Null
  }

  /** verifyParsedRuntimeAuditRecord: the digest, or `None` for an error. */
  function VerifyRecord(sha: Hash, parsed: Json, sequence: nat, previous: Option<Digest>): Option<Digest> {
    if !parsed.Obj? then None
    else
      var fields := parsed.entries;
      if !ExactKeys(fields, [EVENT, PREVIOUS_DIGEST, RECORD_DIGEST, SEQUENCE, VERSION]) then None
      else if Lookup(fields, VERSION) != Some(Str(RUNTIME_AUDIT_VERSION)) then None
      else if Lookup(fields, SEQUENCE) != Some(Num(sequence)) || !(1 <= sequence <= MAX_SAFE_INTEGER) then None
      else if Lookup(fields, PREVIOUS_DIGEST) != Some(OrNull(previous)) then None
      else
        var stored := Lookup(fields, RECORD_DIGEST);
        if !(stored.Some? && stored.value.Str? && IsSha256Hex(stored.value.s)) then None
        else if !IsAuditEvent(EventOf(parsed)) then None
        else
          var text := Canon(Body(EventOf(parsed), previous, sequence), 0);
          if text.None? || sha(text.value) != stored.value.s then None else Some(stored.value.s)
  }

  /** The text whose digest a record carries. */
  function HashedText(event: Json, previous: Option<Digest>, sequence: int): Text {
    Render(Canonical(Body(event, previous, sequence)))
  }

  // ---------------------------------------------------------------------------------------
  // Key order

  lemma KeyLetters()
    ensures EVENT != [] && PREVIOUS_DIGEST != [] && RECORD_DIGEST != [] && SEQUENCE != [] && VERSION != []
    ensures EVENT[0] == 101 && PREVIOUS_DIGEST[0] == 112 && RECORD_DIGEST[0] == 114
    ensures SEQUENCE[0] == 115 && VERSION[0] == 118
  {
  }

  lemma {:induction false} SortedTail(e: Entry, entries: seq<Entry>)
    requires Sorted(entries) && (entries == [] || Before(e.key, entries[0].key))
    ensures Sorted([e] + entries)
  {
    assert ([e] + entries)[1..] == entries;
  }

  lemma BodyIsSorted(event: Json, previous: Option<Digest>, sequence: int)
    ensures Sorted(Body(event, previous, sequence).entries)
  {
    KeyLetters();
    var s := Body(event, previous, sequence).entries;
    SortedTail(s[2], [s[3]]);
    SortedTail(s[1], [s[2]] + [s[3]]);
    SortedTail(s[0], [s[1]] + ([s[2]] + [s[3]]));
    assert s == [s[0]] + ([s[1]] + ([s[2]] + [s[3]]));
  }

  lemma RecordIsSorted(event: Json, previous: Option<Digest>, digest: Digest, sequence: int)
    ensures Sorted(Record(event, previous, digest, sequence).entries)
  {
    KeyLetters();
    var s := Record(event, previous, digest, sequence).entries;
    SortedTail(s[3], [s[4]]);
    SortedTail(s[2], [s[3]] + [s[4]]);
    SortedTail(s[1], [s[2]] + ([s[3]] + [s[4]]));
    SortedTail(s[0], [s[1]] + ([s[2]] + ([s[3]] + [s[4]])));
    assert s == [s[0]] + ([s[1]] + ([s[2]] + ([s[3]] + [s[4]])));
  }

  lemma {:induction false} LookupAt(entries: seq<Entry>, i: nat)
    requires i < |entries| && DistinctKeys(entries)
    ensures HasKey(entries, entries[i].key) && Lookup(entries, entries[i].key) == Some(entries[i].value)
  {
    if i > 0 {
      LookupAt(entries[1..], i - 1);
    }
  }

  lemma {:induction false} FormAt(entries: seq<Entry>, i: nat)
    requires i < |entries| && InFormEntries(entries)
    ensures InForm(entries[i].value)
  {
    if i > 0 {
      FormAt(entries[1..], i - 1);
    }
  }

  /** Of ascending properties with exactly the expected names, each is found under its name. */
  lemma ExactLookups(entries: seq<Entry>, keys: seq<Text>)
    requires Sorted(entries) && ExactKeys(entries, keys)
    ensures |entries| == |keys|
    ensures forall i :: 0 <= i < |keys| ==> entries[i].key == keys[i] && Lookup(entries, keys[i]) == Some(entries[i].value)
  {
    SortedIsFixed(entries);
    SortedIsDistinct(entries);
    forall i | 0 <= i < |keys|
      ensures entries[i].key == keys[i] && Lookup(entries, keys[i]) == Some(entries[i].value)
    {
      assert KeysOf(entries)[i] == entries[i].key;
      LookupAt(entries, i);
    }
  }

  lemma FiveFields(s: seq<Entry>, a: Text, b: Text, c: Text, d: Text, e: Text)
    requires Sorted(s) && ExactKeys(s, [a, b, c, d, e])
    ensures |s| == 5
    ensures Lookup(s, a) == Some(s[0].value) && Lookup(s, b) == Some(s[1].value) && Lookup(s, c) == Some(s[2].value)
    ensures Lookup(s, d) == Some(s[3].value) && Lookup(s, e) == Some(s[4].value)
    ensures s[0].key == a && s[1].key == b && s[2].key == c && s[3].key == d && s[4].key == e
  {
    var keys := [a, b, c, d, e];
    ExactLookups(s, keys);
    assert keys[0] == a && keys[1] == b && keys[2] == c && keys[3] == d && keys[4] == e;
  }

  /** A record in canonical form that passes the check is its event, its place in the chain and its digest. */
  lemma CheckedRecord(sha: Hash, parsed: Json, sequence: nat, previous: Option<Digest>)
    requires InForm(parsed) && VerifyRecord(sha, parsed, sequence, previous).Some?
    ensures var (e, d) := (EventOf(parsed), VerifyRecord(sha, parsed, sequence, previous).value);
            && parsed == Record(e, previous, d, sequence)
            && InForm(e)
            && d == sha(HashedText(e, previous, sequence))
  {
    FiveFields(parsed.entries, EVENT, PREVIOUS_DIGEST, RECORD_DIGEST, SEQUENCE, VERSION);
    FormAt(parsed.entries, 0);
  }

  lemma BodyInForm(e: Json, previous: Option<Digest>, sequence: int)
    requires InForm(e)
    ensures InForm(Body(e, previous, sequence))
  {
    BodyIsSorted(e, previous, sequence);
    var s := Body(e, previous, sequence).entries;
    assert s[3..][1..] == [];
    assert InFormEntries(s[3..]);
    assert s[2..][1..] == s[3..];
    assert InFormEntries(s[2..]);
    assert s[1..][1..] == s[2..];
    assert InFormEntries(s[1..]);
  }

  lemma {:induction false} InFormIsProper(v: Json)
    requires InForm(v)
    ensures Proper(v)
    decreases v
  {
    match v
    case Arr(items) => InFormItemsAreProper(items);
    case Obj(entries) =>
      SortedIsDistinct(entries);
      InFormEntriesAreProper(entries);
    case _ =>
  }

  lemma {:induction false} InFormItemsAreProper(items: seq<Json>)
    requires InFormItems(items)
    ensures ProperItems(items)
    decreases items
  {
    if items != [] {
      InFormIsProper(items[0]);
      InFormItemsAreProper(items[1..]);
    }
  }

  lemma {:induction false} InFormEntriesAreProper(entries: seq<Entry>)
    requires InFormEntries(entries)
    ensures ProperEntries(entries)
    decreases entries
  {
    if entries != [] {
      InFormIsProper(entries[0].value);
      InFormEntriesAreProper(entries[1..]);
    }
  }

  /** Equal hashed texts cover equal events at equal places. */
  lemma HashedTextIsInjective(e: Json, p: Option<Digest>, m: int, f: Json, q: Option<Digest>, n: int)
    requires InForm(e) && InForm(f) && HashedText(e, p, m) == HashedText(f, q, n)
    ensures e == f && p == q && m == n
  {
    var a, b := Body(e, p, m), Body(f, q, n);
    BodyInForm(e, p, m);
    BodyInForm(f, q, n);
    FormIsFixed(a);
    FormIsFixed(b);
    InFormIsProper(a);
    InFormIsProper(b);
    ParseUndoesRender(a);
    ParseUndoesRender(b);
    assert a.entries[0] == b.entries[0] && a.entries[1] == b.entries[1] && a.entries[2] == b.entries[2];
  }
}
