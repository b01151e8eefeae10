/**
  The ledger writer (src/audit/runtime-audit-ledger.ts): while it is healthy, verifying the file
  gives exactly its record count and head digest; after a failed write it refuses to go on.
*/
module AuditLedger {
  import opened Common
  import opened Texts
  import opened LineTexts
  import opened JsonStrings
  import opened KeyOrder
  import opened Json
  import opened CanonicalJson
  import opened CanonicalTheorems
  import opened Digests
  import opened HashChain
  import opened AuditRecords
  import opened AuditVerifier

  /** The record as the writer builds it: the body's properties, then the digest. */
  function NewRecord(event: Json, previous: Option<Digest>, digest: Digest, sequence: int): Json {
    Obj(Body(event, previous, sequence).entries + [Keyed(RECORD_DIGEST, Str(digest))])
  }

  /** The line for an event and its digest; `None` if the event cannot be recorded. */
  function NewLine(sha: Hash, maxBytes: nat, event: Json, previous: Option<Digest>, sequence: nat): Option<(Text, Digest)> {
    var body := Canon(Body(event, previous, sequence), 0);
    if !IsAuditEvent(event) || body.None? then None
    else
      var digest := sha(body.value);
      var line := Canon(NewRecord(event, previous, digest, sequence), 0);
      if line.None? || Utf8Length(line.value + [NEWLINE]) > maxBytes then None else Some((line.value, digest))
  }

  // ---------------------------------------------------------------------------------------
  // What is written verifies

  lemma FirstLetterOrders(a: Text, b: Text)
    requires a != [] && b != [] && a[0] < b[0]
    ensures Before(a, b) && !Before(b, a)
  {
  }

  lemma InsertLater(e: Entry, first: Entry, entries: seq<Entry>)
    requires !Before(e.key, first.key)
    ensures Insert(e, [first] + entries) == [first] + Insert(e, entries)
  {
    assert ([first] + entries)[1..] == entries;
  }

  /** Sorting moves the last of five properties, by name the third, to its place. */
  lemma SortFive(e: Entry, p: Entry, s: Entry, v: Entry, r: Entry)
    requires Before(e.key, p.key) && Before(p.key, r.key) && Before(r.key, s.key) && Before(s.key, v.key)
    requires !Before(s.key, r.key) && !Before(v.key, r.key)
    ensures Sort([e, p, s, v, r]) == [e, p, r, s, v]
  {
    assert [r][1..] == [] && Sort([r]) == [r];
    assert [v, r][1..] == [r];
    InsertLater(v, r, []);
    assert Sort([v, r]) == [r, v];
    assert [s, v, r][1..] == [v, r];
    InsertLater(s, r, [v]);
    assert [r] + [v] == [r, v];
    assert Sort([s, v, r]) == [r, s, v];
    assert [p, s, v, r][1..] == [s, v, r];
    assert Sort([p, s, v, r]) == [p, r, s, v];
    assert [e, p, s, v, r][1..] == [p, s, v, r];
  }

  lemma RecordIsCanonical(event: Json, previous: Option<Digest>, digest: Digest, sequence: int)
    ensures Canonical(NewRecord(event, previous, digest, sequence)) == Record(Canonical(event), previous, digest, sequence)
  {
    var w := NewRecord(event, previous, digest, sequence).entries;
    var c := CanonicalEntries(w);
    KeyLetters();
    FirstLetterOrders(EVENT, PREVIOUS_DIGEST);
    FirstLetterOrders(PREVIOUS_DIGEST, RECORD_DIGEST);
    FirstLetterOrders(RECORD_DIGEST, SEQUENCE);
    FirstLetterOrders(SEQUENCE, VERSION);
    FirstLetterOrders(RECORD_DIGEST, VERSION);
    assert c == [c[0], c[1], c[2], c[3], c[4]];
    SortFive(c[0], c[1], c[2], c[3], c[4]);
  }

  lemma BodyIsCanonical(event: Json, previous: Option<Digest>, sequence: int)
    ensures Canonical(Body(event, previous, sequence)) == Body(Canonical(event), previous, sequence)
  {
    var b := Body(event, previous, sequence).entries;
    var c := CanonicalEntries(b);
    BodyIsSorted(Canonical(event), previous, sequence);
    assert c == Body(Canonical(event), previous, sequence).entries;
    SortedIsFixed(c);
  }

  lemma FourAreProper(a: Entry, b: Entry, c: Entry, d: Entry)
    requires Proper(a.value) && Proper(b.value) && Proper(c.value) && Proper(d.value)
    ensures ProperEntries([a, b, c, d])
  {
    EntriesPush(d, []);
    EntriesPush(c, [d]);
    EntriesPush(b, [c] + [d]);
    EntriesPush(a, [b] + ([c] + [d]));
    assert [d] + [] == [d];
    assert [a] + ([b] + ([c] + [d])) == [a, b, c, d];
  }

  lemma BodyIsProper(event: Json, previous: Option<Digest>, sequence: int)
    requires Proper(event)
    ensures Proper(Body(event, previous, sequence))
  {
    var s := Body(event, previous, sequence).entries;
    BodyIsSorted(event, previous, sequence);
    SortedIsDistinct(s);
    FourAreProper(s[0], s[1], s[2], s[3]);
    assert s == [s[0], s[1], s[2], s[3]];
  }

  lemma {:induction false} ProperTack(entries: seq<Entry>, e: Entry)
    requires ProperEntries(entries) && DistinctKeys(entries) && !HasKey(entries, e.key) && Proper(e.value)
    ensures ProperEntries(entries + [e]) && DistinctKeys(entries + [e])
    ensures forall key: Text :: HasKey(entries + [e], key) <==> HasKey(entries, key) || key == e.key
  {
    var r := entries + [e];
    if entries == [] {
      assert r[1..] == [];
    } else {
      ProperTack(entries[1..], e);
      assert r[1..] == entries[1..] + [e];
    }
  }

  lemma NewRecordIsProper(event: Json, previous: Option<Digest>, digest: Digest, sequence: int)
    requires Proper(event)
    ensures Proper(NewRecord(event, previous, digest, sequence))
  {
    var s := Body(event, previous, sequence).entries;
    BodyIsProper(event, previous, sequence);
    KeyLetters();
    NoSuchKey(s[0], s[1], s[2], s[3], RECORD_DIGEST);
    assert s == [s[0], s[1], s[2], s[3]];
    ProperTack(s, Keyed(RECORD_DIGEST, Str(digest)));
  }

  lemma NoSuchKey(a: Entry, b: Entry, c: Entry, d: Entry, key: Text)
    requires a.key != key && b.key != key && c.key != key && d.key != key
    ensures !HasKey([a, b, c, d], key)
  {
    assert [d][1..] == [] && !HasKey([d], key);
    assert [c, d][1..] == [d] && !HasKey([c, d], key);
    assert [b, c, d][1..] == [c, d] && !HasKey([b, c, d], key);
    assert [a, b, c, d][1..] == [b, c, d];
  }

  lemma EventStaysAuditable(event: Json)
    requires Proper(event) && IsAuditEvent(event)
    ensures IsAuditEvent(Canonical(event))
  {
    var s := event.entries;
    var c := Sort(CanonicalEntries(s));
    CanonicalKeepsDistinct(s);
    SortSorts(CanonicalEntries(s));
    SortedIsFixed(c);
    SortCommutes(s);
    assert KeysOf(c) == KeysOf(Sort(s));
    FormLookup(s, NAME);
    FormLookup(s, PAYLOAD);
    CanonicalFits(Lookup(s, PAYLOAD).value, 0);
  }

  lemma FieldAt(s: seq<Entry>, i: nat, key: Text)
    requires Sorted(s) && i < |s| && s[i].key == key
    ensures Lookup(s, key) == Some(s[i].value)
  {
    SortedIsDistinct(s);
    LookupAt(s, i);
  }

  lemma RecordFields(e: Json, previous: Option<Digest>, digest: Digest, sequence: int)
    ensures var s := Record(e, previous, digest, sequence).entries;
            && ExactKeys(s, [EVENT, PREVIOUS_DIGEST, RECORD_DIGEST, SEQUENCE, VERSION])
            && Lookup(s, EVENT) == Some(e)
            && Lookup(s, PREVIOUS_DIGEST) == Some(OrNull(previous))
            && Lookup(s, RECORD_DIGEST) == Some(Str(digest))
            && Lookup(s, SEQUENCE) == Some(Num(sequence))
            && Lookup(s, VERSION) == Some(Str(RUNTIME_AUDIT_VERSION))
  {
    var s := Record(e, previous, digest, sequence).entries;
    RecordIsSorted(e, previous, digest, sequence);
    SortedIsFixed(s);
    FieldAt(s, 0, EVENT);
    FieldAt(s, 1, PREVIOUS_DIGEST);
    FieldAt(s, 2, RECORD_DIGEST);
    FieldAt(s, 3, SEQUENCE);
    FieldAt(s, 4, VERSION);
    assert KeysOf(s) == [EVENT, PREVIOUS_DIGEST, RECORD_DIGEST, SEQUENCE, VERSION];
  }

  lemma RecordPasses(sha: Hash, e: Json, previous: Option<Digest>, sequence: nat, digest: Digest)
    requires IsAuditEvent(e) && 1 <= sequence <= MAX_SAFE_INTEGER
    requires Canon(Body(e, previous, sequence), 0).Some?
    requires digest == sha(Canon(Body(e, previous, sequence), 0).value)
    ensures VerifyRecord(sha, Record(e, previous, digest, sequence), sequence, previous) == Some(digest)
  {
    RecordFields(e, previous, digest, sequence);
  }

  lemma NewBodyIsKept(event: Json, previous: Option<Digest>, sequence: nat)
    requires Proper(event) && Canon(Body(event, previous, sequence), 0).Some?
    ensures Canon(Body(Canonical(event), previous, sequence), 0) == Canon(Body(event, previous, sequence), 0)
  {
    BodyIsProper(event, previous, sequence);
    BodyIsCanonical(event, previous, sequence);
    PrintingIsFixed(Body(event, previous, sequence));
  }

  /** A printed record is one line that parses back to its sorted record and is canonical. */
  lemma NewRecordIsCanonicalLine(event: Json, previous: Option<Digest>, digest: Digest, sequence: nat)
    requires Proper(event)
    ensures var r := Canon(NewRecord(event, previous, digest, sequence), 0);
            r.Some? ==> && IsCanonicalLine(r.value)
                        && Parse(r.value) == Some(Record(Canonical(event), previous, digest, sequence))
                        && r.value != [] && NEWLINE !in r.value
  {
    var w := NewRecord(event, previous, digest, sequence);
    NewRecordIsProper(event, previous, digest, sequence);
    RecordIsCanonical(event, previous, digest, sequence);
    if Canon(w, 0).Some? {
      ParseUndoesCanon(w);
      PrintingIsFixed(w);
      PrintedTextIsOneLine(w);
      RenderStarts(Canonical(w));
    }
  }

  lemma NewRecordPasses(sha: Hash, event: Json, previous: Option<Digest>, sequence: nat, digest: Digest)
    requires Proper(event) && IsAuditEvent(event) && 1 <= sequence <= MAX_SAFE_INTEGER
    requires Canon(Body(event, previous, sequence), 0).Some?
    requires digest == sha(Canon(Body(event, previous, sequence), 0).value)
    ensures VerifyRecord(sha, Record(Canonical(event), previous, digest, sequence), sequence, previous) == Some(digest)
  {
    EventStaysAuditable(event);
    NewBodyIsKept(event, previous, sequence);
    RecordPasses(sha, Canonical(event), previous, sequence, digest);
  }

  /** Every line the writer produces passes the verifier in its place, with the writer's digest. */
  lemma NewLinePasses(sha: Hash, maxBytes: nat, event: Json, previous: Option<Digest>, sequence: nat)
    requires Proper(event) && 1 <= sequence <= MAX_SAFE_INTEGER
    requires NewLine(sha, maxBytes, event, previous, sequence).Some?
    ensures var (line, digest) := NewLine(sha, maxBytes, event, previous, sequence).value;
            LineDigest(sha, maxBytes, line, sequence, previous) == Some(digest) && NEWLINE !in line
  {
    var digest := sha(Canon(Body(event, previous, sequence), 0).value);
    NewRecordIsCanonicalLine(event, previous, digest, sequence);
    NewRecordPasses(sha, event, previous, sequence, digest);
  }

  // ---------------------------------------------------------------------------------------
  // The writer

  /** How a write ends: complete and synced, complete but not known to be on disk, or cut short. */
  datatype WriteOutcome = Synced | SyncFailed | Torn(units: nat)

  /** Verifying the file gives the writer's own view; after a failure, at most one record more. */
  predicate Agrees(v: Verification, count: nat, head: Option<Digest>, healthy: bool) {
    if healthy then v == Verification(true, count, head)
    else (v.recordCount == count && v.headDigest == head) || (v.ok && v.recordCount == count + 1)
  }

  /** The check admits a line in its place, with its digest. */
  predicate Admitted(check: Check, m: nat, head: Option<Digest>, made: (Text, Digest)) {
    check(made.0, m, head) == Some(made.1) && NEWLINE !in made.0
  }

  /** The check admits every line the writer makes. */
  ghost predicate Admits(check: Check, sha: Hash, maxBytes: nat) {
    forall event: Json, m: nat, head: Option<Digest> ::
      Proper(event) && 1 <= m <= MAX_SAFE_INTEGER && NewLine(sha, maxBytes, event, head, m).Some? ==>
        Admitted(check, m, head, NewLine(sha, maxBytes, event, head, m).value)
  }

  lemma NewLineAdmitted(sha: Hash, maxBytes: nat, event: Json, m: nat, head: Option<Digest>)
    requires Proper(event) && 1 <= m <= MAX_SAFE_INTEGER && NewLine(sha, maxBytes, event, head, m).Some?
    ensures Admitted(LineCheck(sha, maxBytes), m, head, NewLine(sha, maxBytes, event, head, m).value)
  {
    NewLinePasses(sha, maxBytes, event, head, m);
  }

  lemma LineCheckAdmits(sha: Hash, maxBytes: nat)
    ensures Admits(LineCheck(sha, maxBytes), sha, maxBytes)
  {
    forall event: Json, m: nat, head: Option<Digest>
      | Proper(event) && 1 <= m <= MAX_SAFE_INTEGER && NewLine(sha, maxBytes, event, head, m).Some?
      ensures Admitted(LineCheck(sha, maxBytes), m, head, NewLine(sha, maxBytes, event, head, m).value)
    {
      NewLineAdmitted(sha, maxBytes, event, m, head);
    }
  }

  /** The text a writer leaves that records these events from an empty file, and its head digest. */
  function LedgerOf(sha: Hash, maxBytes: nat, events: seq<Json>): Option<(Text, Option<Digest>)> {
    if events == [] then Some(([], None))
    else
      var n := |events| - 1;
      var before := LedgerOf(sha, maxBytes, events[..n]);
      if before.None? then None
      else
        var made := NewLine(sha, maxBytes, events[n], before.value.1, n + 1);
        if made.None? then None
        else Some((before.value.0 + made.value.0 + [NEWLINE], Some(made.value.1)))
  }

  /** What a writer leaves verifies with its own count and head. */
  lemma {:induction false} LedgerVerifies(sha: Hash, maxBytes: nat, check: Check, events: seq<Json>)
    requires Admits(check, sha, maxBytes) && |events| <= MAX_SAFE_INTEGER
    requires (forall i :: 0 <= i < |events| ==> Proper(events[i])) && LedgerOf(sha, maxBytes, events).Some?
    ensures VerifyChain(check, LedgerOf(sha, maxBytes, events).value.0) ==
            Verification(true, |events|, LedgerOf(sha, maxBytes, events).value.1)
    decreases |events|
  {
    if events != [] {
      var n := |events| - 1;
      LedgerVerifies(sha, maxBytes, check, events[..n]);
      var before := LedgerOf(sha, maxBytes, events[..n]).value;
      var made := NewLine(sha, maxBytes, events[n], before.1, n + 1).value;
      assert Admitted(check, n + 1, before.1, made);
      AppendVerifies(check, before.0, made.0, n, before.1, made.1);
    }
  }

  /** An accepted line is the line that a writer makes of its event. */
  lemma AcceptedLineIsNewLine(sha: Hash, maxBytes: nat, line: Text, sequence: nat, previous: Option<Digest>, parsed: Json)
    requires Proper(parsed) && Canon(parsed, 0) == Some(line) && Parse(line) == Some(parsed)
    requires Utf8Length(line + [NEWLINE]) <= maxBytes && VerifyRecord(sha, parsed, sequence, previous).Some?
    ensures NewLine(sha, maxBytes, EventOf(parsed), previous, sequence) ==
            Some((line, VerifyRecord(sha, parsed, sequence, previous).value))
    ensures Proper(EventOf(parsed)) && NEWLINE !in line
  {
    var e, d := EventOf(parsed), VerifyRecord(sha, parsed, sequence, previous).value;
    LineIsDetermined(sha, line, parsed, sequence, previous);
    InFormIsProper(e);
    FormIsFixed(e);
    RecordIsCanonical(e, previous, d, sequence);
    CanonicalIsInForm(parsed);
    ParseUndoesCanon(parsed);
    CheckedRecord(sha, parsed, sequence, previous);
    CanonicalFits(NewRecord(e, previous, d, sequence), 0);
    PrintedTextIsOneLine(parsed);
  }

  lemma LineMakes(sha: Hash, maxBytes: nat, line: Text, m: nat, p: Option<Digest>)
    requires LineDigest(sha, maxBytes, line, m, p).Some?
    ensures MadeFrom(sha, maxBytes, line, m, p, LineEvent(line), LineDigest(sha, maxBytes, line, m, p).value)
  {
    var parsed := AcceptedLine(sha, maxBytes, line, m, p);
    AcceptedLineIsNewLine(sha, maxBytes, line, m, p, parsed);
  }

  /** The line is what a writer makes of a proper event. */
  predicate MadeFrom(sha: Hash, maxBytes: nat, line: Text, m: nat, p: Option<Digest>, event: Json, digest: Digest) {
    Proper(event) && m <= MAX_SAFE_INTEGER && NewLine(sha, maxBytes, event, p, m) == Some((line, digest))
  }

  /** The check accepts only lines that a writer makes. */
  ghost predicate Makes(sha: Hash, maxBytes: nat, check: Check, event: Text -> Json) {
    forall line: Text, m: nat, p: Option<Digest> ::
      check(line, m, p).Some? ==> MadeFrom(sha, maxBytes, line, m, p, event(line), check(line, m, p).value)
  }

  lemma LineCheckMakes(sha: Hash, maxBytes: nat)
    ensures Makes(sha, maxBytes, LineCheck(sha, maxBytes), LineEvent)
  {
    forall line: Text, m: nat, p: Option<Digest> | LineDigest(sha, maxBytes, line, m, p).Some?
      ensures MadeFrom(sha, maxBytes, line, m, p, LineEvent(line), LineDigest(sha, maxBytes, line, m, p).value)
    {
      LineMakes(sha, maxBytes, line, m, p);
    }
  }

  function Events(lines: seq<Text>, event: Text -> Json): (events: seq<Json>)
    ensures |events| == |lines|
  {
    seq(|lines|, i requires 0 <= i < |lines| => event(lines[i]))
  }

  lemma LedgerPush(sha: Hash, maxBytes: nat, events: seq<Json>, e: Json, raw: Text, head: Option<Digest>, made: (Text, Digest))
    requires LedgerOf(sha, maxBytes, events) == Some((raw, head))
    requires NewLine(sha, maxBytes, e, head, |events| + 1) == Some(made)
    ensures LedgerOf(sha, maxBytes, events + [e]) == Some((raw + made.0 + [NEWLINE], Some(made.1)))
  {
    assert (events + [e])[..|events|] == events;
  }

  predicate AllProper(events: seq<Json>) {
    forall i :: 0 <= i < |events| ==> Proper(events[i])
  }

  lemma EventsPush(lines: seq<Text>, n: nat, event: Text -> Json)
    requires |lines| == n + 1
    ensures Events(lines, event) == Events(lines[..n], event) + [event(lines[n])]
  {
  }

  lemma {:induction false} ChainIsLedger(sha: Hash, maxBytes: nat, check: Check, event: Text -> Json, lines: seq<Text>)
    requires Makes(sha, maxBytes, check, event) && Walk(check, lines, 0, None).ok
    ensures LedgerOf(sha, maxBytes, Events(lines, event)) == Some((Unlines(lines), Walk(check, lines, 0, None).headDigest))
    ensures AllProper(Events(lines, event)) && |lines| <= MAX_SAFE_INTEGER
    decreases |lines|
  {
    if lines != [] {
      var n := |lines| - 1;
      var front, last := lines[..n], lines[n];
      LastLine(check, lines);
      ChainIsLedger(sha, maxBytes, check, event, front);
      var p := Walk(check, front, 0, None).headDigest;
      var d := check(last, n + 1, p).value;
      assert MadeFrom(sha, maxBytes, last, n + 1, p, event(last), d);
      EventsPush(lines, n, event);
      LedgerPush(sha, maxBytes, Events(front, event), event(last), Unlines(front), p, (last, d));
    }
  }

  /** These events, recorded by a writer one after the other, leave exactly this text. */
  ghost predicate Records(sha: Hash, maxBytes: nat, events: seq<Json>, raw: Text) {
    && |events| <= MAX_SAFE_INTEGER && AllProper(events)
    && LedgerOf(sha, maxBytes, events).Some? && LedgerOf(sha, maxBytes, events).value.0 == raw
  }

  lemma ChainRecords(sha: Hash, maxBytes: nat, check: Check, event: Text -> Json, raw: Text)
    requires Makes(sha, maxBytes, check, event) && VerifyChain(check, raw).ok
    ensures Records(sha, maxBytes, Events(Lines(raw), event), raw)
  {
    ChainIsLedger(sha, maxBytes, check, event, Lines(raw));
    UnlinesLines(raw);
  }

  /** The verifier accepts exactly the texts that a writer can leave after any events. */
  lemma VerifiesExactlyWhatIsWritten(sha: Hash, maxBytes: nat, raw: Text)
    ensures Verify(sha, maxBytes, raw).ok <==> exists events :: Records(sha, maxBytes, events, raw)
  {
    var check := LineCheck(sha, maxBytes);
    if Verify(sha, maxBytes, raw).ok {
      LineCheckMakes(sha, maxBytes);
      ChainRecords(sha, maxBytes, check, LineEvent, raw);
    }
    if events :| Records(sha, maxBytes, events, raw) {
      LineCheckAdmits(sha, maxBytes);
      LedgerVerifies(sha, maxBytes, check, events);
    }
  }

  // ---------------------------------------------------------------------------------------
  // What can be recorded

  /** The events of the catalogue. */
  predicate InCatalogue(name: Text) {
    name in [Units("runtime.started"), Units("runtime.stopped"), Units("runtime.task.received"),
             Units("runtime.task.completed"), Units("runtime.task.failed"), Units("runtime.task.reconciled"),
             Units("runtime.tool.invoked"), Units("runtime.tool.denied"), Units("runtime.internal.error")]
  }

  lemma CatalogueNamesAreShort(name: Text)
    requires InCatalogue(name)
    ensures KnownEvent(name) && |name| <= 24
  {
  }

  lemma {:induction false} ShortTextsFit(t: Text)
    ensures Utf8Length(t) <= 3 * |t|
  {
    if t != [] {
      ShortTextsFit(t[1..]);
      if |t| > 1 {
        ShortTextsFit(t[2..]);
      }
    }
  }

  /** The two properties of an event, in whatever order. */
  predicate IsEvent(event: Json, name: Text, payload: Json) {
    event == Obj([Keyed(NAME, Str(name)), Keyed(PAYLOAD, payload)]) || event == Obj([Keyed(PAYLOAD, payload), Keyed(NAME, Str(name))])
  }

  lemma NameBeforePayload()
    ensures NAME != PAYLOAD && Before(NAME, PAYLOAD) && !Before(PAYLOAD, NAME)
  {
    assert NAME[0] == 110 && PAYLOAD[0] == 112;
  }

  lemma OrdinaryEventIsAuditable(event: Json, name: Text, payload: Json)
    requires InCatalogue(name) && Fits(payload, 0) && IsEvent(event, name, payload)
    ensures IsAuditEvent(event)
  {
    CatalogueNamesAreShort(name);
    NameBeforePayload();
    var n, p := Keyed(NAME, Str(name)), Keyed(PAYLOAD, payload);
    assert [n, p][1..] == [p] && [p, n][1..] == [n] && [p][1..] == [] && [n][1..] == [];
    assert Sort([n, p]) == [n, p];
    assert Sort([p, n]) == [n, p];
    assert KeysOf([n, p]) == [NAME, PAYLOAD];
  }
  lemma {:induction false} FitsHigherUp(v: Json, depth: nat, higher: nat)
    requires Fits(v, depth) && higher <= depth
    ensures Fits(v, higher)
    decreases v
  {
    match v
    case Arr(items) =>
      forall i | 0 <= i < |items| ensures Fits(items[i], higher + 1) {
        FitsHigherUp(items[i], depth + 1, higher + 1);
      }
    case Obj(entries) =>
      forall i | 0 <= i < |entries| ensures Fits(entries[i].value, higher + 1) {
        FitsHigherUp(entries[i].value, depth + 1, higher + 1);
      }
    case _ =>
  }

  lemma EventFits(event: Json, name: Text, payload: Json)
    requires InCatalogue(name) && Fits(payload, 2) && IsEvent(event, name, payload)
    ensures Fits(event, 1)
  {
    CatalogueNamesAreShort(name);
    ShortTextsFit(name);
    TwoFit(Keyed(NAME, Str(name)), Keyed(PAYLOAD, payload));
  }

  lemma TwoFit(a: Entry, b: Entry)
    requires Fits(a.value, 2) && Fits(b.value, 2)
    ensures Fits(Obj([a, b]), 1) && Fits(Obj([b, a]), 1)
  {
  }

  lemma ShortStringFits(t: Text)
    requires |t| <= 64
    ensures Fits(Str(t), 1)
  {
    ShortTextsFit(t);
  }

  lemma FourFit(a: Entry, b: Entry, c: Entry, d: Entry)
    requires Fits(a.value, 1) && Fits(b.value, 1) && Fits(c.value, 1) && Fits(d.value, 1)
    ensures Fits(Obj([a, b, c, d]), 0)
  {
  }

  lemma FiveFit(four: seq<Entry>, e: Entry)
    requires Fits(Obj(four), 0) && Fits(e.value, 1)
    ensures Fits(Obj(four + [e]), 0)
  {
    var five := four + [e];
    forall i | 0 <= i < |five| ensures Fits(five[i].value, 1) {
      assert five[i] == if i < |four| then four[i] else e;
    }
  }

  lemma BodyFits(event: Json, previous: Option<Digest>, digest: Digest, sequence: nat)
    requires Fits(event, 1)
    ensures Fits(Body(event, previous, sequence), 0) && Fits(NewRecord(event, previous, digest, sequence), 0)
  {
    ShortStringFits(digest);
    assert |RUNTIME_AUDIT_VERSION| == 26;
    ShortStringFits(RUNTIME_AUDIT_VERSION);
    if previous.Some? {
      ShortStringFits(previous.value);
    }
    var body := Body(event, previous, sequence).entries;
    FourFit(body[0], body[1], body[2], body[3]);
    assert [body[0], body[1], body[2], body[3]] == body;
    FiveFit(body, Keyed(RECORD_DIGEST, Str(digest)));
  }

  /**
    Every event of the catalogue, whatever its payload within the depth and string limits, can be
    recorded after any head, unless its line is longer than a record may be.
  */
  lemma OrdinaryEventIsRecorded(sha: Hash, maxBytes: nat, event: Json, name: Text, payload: Json, previous: Option<Digest>, sequence: nat)
    requires InCatalogue(name) && Fits(payload, 2) && IsEvent(event, name, payload)
    ensures var digest := sha(Render(Canonical(Body(event, previous, sequence))));
            var line := Render(Canonical(NewRecord(event, previous, digest, sequence)));
            NewLine(sha, maxBytes, event, previous, sequence) ==
              if Utf8Length(line + [NEWLINE]) <= maxBytes then Some((line, digest)) else None
  {
    FitsHigherUp(payload, 2, 0);
    OrdinaryEventIsAuditable(event, name, payload);
    EventFits(event, name, payload);
    var digest := sha(Render(Canonical(Body(event, previous, sequence))));
    BodyFits(event, previous, digest, sequence);
  }

  class JsonlRuntimeAuditLedger {
    const sha: Hash
    const maxRecordBytes: nat
    /** What verifying does with a line. */
    ghost const check: Check
    /** The content of the ledger file. */
    var file: Text
    var recordCount: nat
    var headDigest: Option<Digest>
    var healthy: bool
    var closed: bool

    ghost predicate Valid()
      reads this
    {
      check == LineCheck(sha, maxRecordBytes) && Admits(check, sha, maxRecordBytes) && Agrees(VerifyChain(check, file), recordCount, headDigest, healthy)
    }

    constructor (sha: Hash, maxRecordBytes: nat, file: Text, verified: Verification)
      requires verified == Verify(sha, maxRecordBytes, file) && verified.ok
      ensures this.sha == sha && this.maxRecordBytes == maxRecordBytes && this.file == file
      ensures Valid() && healthy && !closed
    {
      LineCheckAdmits(sha, maxRecordBytes);
      check := LineCheck(sha, maxRecordBytes);
      this.sha, this.maxRecordBytes, this.file := sha, maxRecordBytes, file;
      recordCount, headDigest, healthy, closed := verified.recordCount, verified.headDigest, true, false;
    }

    /** Opening refuses a ledger that does not verify. */
    static method Open(sha: Hash, maxRecordBytes: nat, file: Text) returns (ledger: Option<JsonlRuntimeAuditLedger>)
      ensures ledger.Some? <==> Verify(sha, maxRecordBytes, file).ok
      ensures ledger.Some? ==> fresh(ledger.value) && ledger.value.Valid() && ledger.value.file == file
      ensures ledger.Some? ==> ledger.value.healthy && !ledger.value.closed
      ensures ledger.Some? ==> ledger.value.sha == sha && ledger.value.maxRecordBytes == maxRecordBytes
    {
      var verified := VerifyRuntimeAuditLedger(sha, maxRecordBytes, file);
      if !verified.ok {
        return None;
      }
      var writer := new JsonlRuntimeAuditLedger(sha, maxRecordBytes, file, verified);
      return Some(writer);
    }

    /** Appends a record, unless the ledger is unhealthy or closed; any failure makes it unhealthy. */
    method Append(event: Json, write: WriteOutcome) returns (digest: Option<Digest>)
      requires Valid() && Proper(event) && recordCount < MAX_SAFE_INTEGER
      modifies this
      ensures Valid() && closed == old(closed)
      ensures !old(healthy) || old(closed) ==> digest == None && unchanged(this)
      ensures old(healthy) && !old(closed) ==> healthy == digest.Some?
      ensures digest.None? ==> recordCount == old(recordCount) && headDigest == old(headDigest)
      ensures digest.Some? ==> recordCount == old(recordCount) + 1 && headDigest == digest
      ensures var made := NewLine(sha, maxRecordBytes, event, old(headDigest), old(recordCount) + 1);
              old(healthy) && !old(closed) ==>
                && (digest.Some? <==> made.Some? && write.Synced?)
                && (digest.Some? ==> digest == Some(made.value.1))
                && (made.None? ==> file == old(file))
                && (made.Some? && !write.Torn? ==> file == old(file) + made.value.0 + [NEWLINE])
                && (made.Some? && write.Torn? ==> exists n :: 0 <= n <= |made.value.0| && file == old(file) + made.value.0[..n])
    {
      if !healthy || closed {
        return None;
      }
      var made := NewLine(sha, maxRecordBytes, event, headDigest, recordCount + 1);
      if made.None? {
        healthy := false;
        return None;
      }
      NewLineChecked(event, made.value);
      digest := Publish(made.value.0, made.value.1, write);
    }

    lemma NewLineChecked(event: Json, made: (Text, Digest))
      requires Admits(check, sha, maxRecordBytes) && Proper(event) && recordCount < MAX_SAFE_INTEGER
      requires NewLine(sha, maxRecordBytes, event, headDigest, recordCount + 1) == Some(made)
      ensures Admitted(check, recordCount + 1, headDigest, made)
    {
    }

    /** What the verifier says of every residue that a write can leave. */
    lemma Residues(line: Text, recordDigest: Digest, n: nat)
      requires Valid() && healthy && Admitted(check, recordCount + 1, headDigest, (line, recordDigest)) && n <= |line|
      ensures Agrees(VerifyChain(check, file + line + [NEWLINE]), recordCount + 1, Some(recordDigest), true)
      ensures Agrees(VerifyChain(check, file + line + [NEWLINE]), recordCount, headDigest, false)
      ensures Agrees(VerifyChain(check, file + line[..n]), recordCount, headDigest, false)
    {
      AppendVerifies(check, file, line, recordCount, headDigest, recordDigest);
      TornVerifies(check, file, line[..n]);
    }

    /** Writing the line and syncing the file. */
    method Publish(line: Text, recordDigest: Digest, write: WriteOutcome) returns (digest: Option<Digest>)
      requires Valid() && healthy && Admitted(check, recordCount + 1, headDigest, (line, recordDigest))
      modifies this
      ensures Valid() && closed == old(closed) && healthy == write.Synced?
      ensures digest == if write.Synced? then Some(recordDigest) else None
      ensures recordCount == old(recordCount) + (if write.Synced? then 1 else 0)
      ensures headDigest == if write.Synced? then digest else old(headDigest)
      ensures !write.Torn? ==> file == old(file) + line + [NEWLINE]
      ensures write.Torn? ==> exists n :: 0 <= n <= |line| && file == old(file) + line[..n]
    {
      ghost var cut := if write.Torn? && write.units <= |line| then write.units else |line|;
      Residues(line, recordDigest, cut);
      match write {
        case Torn(units) =>
          var n := if units <= |line| then units else |line|;
          file := file + line[..n];
          healthy := false;
          return None;
        case SyncFailed =>
          file := file + line + [NEWLINE];
          healthy := false;
          return None;
        case Synced =>
          file := file + line + [NEWLINE];
          recordCount := recordCount + 1;
          headDigest := Some(recordDigest);
          return Some(recordDigest);
      }
    }

    method Close(synced: bool)
      requires Valid()
      modifies this
      ensures Valid() && closed && file == old(file)
      ensures recordCount == old(recordCount) && headDigest == old(headDigest)
      ensures healthy == (old(healthy) && (old(closed) || synced))
    {
      if closed {
        return;
      }
      closed := true;
      if !synced {
        healthy := false;
      }
    }
  }

  /**
    At any time, also after torn and unsynced writes, the verifier's verdict on the file is the one the
    writer expects: for a healthy ledger it is good, with exactly the writer's count and head.
  */
  lemma VerifierAgreesWithWriter(ledger: JsonlRuntimeAuditLedger)
    requires ledger.Valid()
    ensures var v := Verify(ledger.sha, ledger.maxRecordBytes, ledger.file);
            && Agrees(v, ledger.recordCount, ledger.headDigest, ledger.healthy)
            && (ledger.healthy ==> v == Verification(true, ledger.recordCount, ledger.headDigest))
  {
  }
}
