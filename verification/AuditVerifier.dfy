/**
  Verifying a ledger (src/audit/runtime-audit-verifier.ts:54-143), and what a verified ledger is
  worth to someone who keeps only its head digest.
*/
module AuditVerifier {
  import opened Common
  import opened Texts
  import opened LineTexts
  import opened KeyOrder
  import opened Json
  import opened CanonicalJson
  import opened CanonicalTheorems
  import opened Digests
  import opened HashChain
  import opened AuditRecords

  /** The digest of an acceptable line in its place, or `None`. */
  function LineDigest(sha: Hash, maxBytes: nat, line: Text, sequence: nat, previous: Option<Digest>): Option<Digest> {
    if line == [] || Utf8Length(line + [NEWLINE]) > maxBytes then None
    else if !IsCanonicalLine(line) then None
    else VerifyRecord(sha, Parse(line).value, sequence, previous)
  }

  function LineCheck(sha: Hash, maxBytes: nat): Check {
    (line, sequence, previous) => LineDigest(sha, maxBytes, line, sequence, previous)
  }

  /** What verifying a ledger file with this content answers; an absent file is an empty one. */
  function Verify(sha: Hash, maxBytes: nat, raw: Text): Verification {
    VerifyChain(LineCheck(sha, maxBytes), raw)
  }

  /** The checks of one line, in the order of the source. */
  method CheckLine(sha: Hash, maxBytes: nat, line: Text, sequence: nat, previous: Option<Digest>)
    returns (digest: Option<Digest>)
    ensures digest == LineCheck(sha, maxBytes)(line, sequence, previous)
  {
    if line == [] || Utf8Length(line + [NEWLINE]) > maxBytes {
      return None;
    }
    var parsed := Parse(line);
    if parsed.None? {
      return None;
    }
    var printed := CanonicalAuditJson(parsed.value, 0);
    if printed != Some(line) {
      return None;
    }
    return VerifyRecord(sha, parsed.value, sequence, previous);
  }

  /** The loop over the complete lines; it stops at the first that fails. */
  method CheckLines(sha: Hash, maxBytes: nat, lines: seq<Text>) returns (walked: Verification)
    ensures walked == Walk(LineCheck(sha, maxBytes), lines, 0, None)
  {
    var headDigest: Option<Digest> := None;
    ghost var check := LineCheck(sha, maxBytes);
    for index := 0 to |lines|
      invariant Walk(check, lines[..index], 0, None) == Verification(true, index, headDigest)
    {
      RestOfWalk(check, lines, index);
      var checked := CheckLine(sha, maxBytes, lines[index], index + 1, headDigest);
      if checked.None? {
        return Verification(false, index, headDigest);
      }
      headDigest := checked;
    }
    assert lines[..|lines|] == lines;
    return Verification(true, |lines|, headDigest);
  }

  method VerifyRuntimeAuditLedger(sha: Hash, maxBytes: nat, raw: Text) returns (result: Verification)
    ensures result == Verify(sha, maxBytes, raw)
  {
    if raw == [] {
      return Verification(true, 0, None);
    }
    var hasTruncatedTail := raw[|raw| - 1] != NEWLINE;
    var rawLines := Split(raw, NEWLINE);
    var lines := rawLines[..|rawLines| - 1];
    var walked := CheckLines(sha, maxBytes, lines);
    if walked.ok && hasTruncatedTail {
      return Verification(false, walked.recordCount, walked.headDigest);
    }
    return walked;
  }

  // ---------------------------------------------------------------------------------------
  // Tamper evidence

  /** The text covered by the digest of a line. */
  function Covered(line: Text, sequence: nat, previous: Option<Digest>): Text {
    if Parse(line).Some? then HashedText(EventOf(Parse(line).value), previous, sequence) else []
  }

  function LineCover(): Cover {
    (line, sequence, previous) => Covered(line, sequence, previous)
  }

  /** An accepted line is determined by its event, its place and the digest before it. */
  lemma LineIsDetermined(sha: Hash, line: Text, parsed: Json, sequence: nat, head: Option<Digest>)
    requires Proper(parsed) && Canon(parsed, 0) == Some(line) && Parse(line) == Some(parsed)
    requires VerifyRecord(sha, parsed, sequence, head).Some?
    ensures var d := VerifyRecord(sha, parsed, sequence, head).value;
            && InForm(EventOf(parsed))
            && d == sha(HashedText(EventOf(parsed), head, sequence))
            && line == Render(Record(EventOf(parsed), head, d, sequence))
  {
    CanonicalIsInForm(parsed);
    ParseUndoesCanon(parsed);
    CheckedRecord(sha, parsed, sequence, head);
    FormIsFixed(parsed);
  }

  lemma AcceptedLine(sha: Hash, maxBytes: nat, line: Text, sequence: nat, head: Option<Digest>) returns (v: Json)
    requires LineDigest(sha, maxBytes, line, sequence, head).Some?
    ensures Proper(v) && Canon(v, 0) == Some(line) && Parse(line) == Some(v)
    ensures VerifyRecord(sha, v, sequence, head) == LineDigest(sha, maxBytes, line, sequence, head)
  {
    v := Parse(line).value;
    ReadIsProper(SkipSpace(line));
  }

  function LineEvent(line: Text): Json {
    if Parse(line).Some? then EventOf(Parse(line).value) else Null
  }

  function RecordFormat(): Format<Json> {
    Format(LineEvent, InForm, (e, m, p) => HashedText(e, p, m), (e, m, p, d) => Render(Record(e, p, d, m)))
  }

  lemma LineIsExplained(sha: Hash, maxBytes: nat, x: Text, m: nat, p: Option<Digest>)
    requires LineDigest(sha, maxBytes, x, m, p).Some?
    ensures InForm(LineEvent(x)) && Covered(x, m, p) == HashedText(LineEvent(x), p, m)
    ensures LineDigest(sha, maxBytes, x, m, p).value == sha(Covered(x, m, p))
    ensures x == Render(Record(LineEvent(x), p, LineDigest(sha, maxBytes, x, m, p).value, m))
  {
    var v := AcceptedLine(sha, maxBytes, x, m, p);
    LineIsDetermined(sha, x, v, m, p);
  }

  lemma LinesAreExplained(sha: Hash, maxBytes: nat)
    ensures Explains(sha, LineCheck(sha, maxBytes), LineCover(), RecordFormat())
  {
    forall x: Text, m: nat, p: Option<Digest> | LineDigest(sha, maxBytes, x, m, p).Some?
      ensures InForm(LineEvent(x)) && Covered(x, m, p) == HashedText(LineEvent(x), p, m)
      ensures LineDigest(sha, maxBytes, x, m, p).value == sha(Covered(x, m, p))
      ensures x == Render(Record(LineEvent(x), p, LineDigest(sha, maxBytes, x, m, p).value, m))
    {
      LineIsExplained(sha, maxBytes, x, m, p);
    }
  }

  lemma RecordsAreUnambiguous()
    ensures Unambiguous(RecordFormat())
  {
    forall d: Json, m: nat, p: Option<Digest>, e: Json, n: nat, q: Option<Digest>
      | InForm(d) && InForm(e) && HashedText(d, p, m) == HashedText(e, q, n)
      ensures d == e && m == n && p == q
    {
      HashedTextIsInjective(d, p, m, e, q, n);
    }
  }

  /** Two records of the ledgers cover different texts under one digest. */
  ghost predicate LedgersCollide(sha: Hash, maxBytes: nat, a: Text, b: Text) {
    ChainsCollide(sha, LineCheck(sha, maxBytes), LineCover(), Lines(a), Lines(b))
  }

  /**
    Two ledgers that verify with one head digest are the same text, or two of their records collide:
    deleting, reordering, repeating or changing records fails the check or changes the head.
  */
  lemma HeadDeterminesLedger(sha: Hash, maxBytes: nat, a: Text, b: Text)
    requires Verify(sha, maxBytes, a).ok && Verify(sha, maxBytes, b).ok
    requires Verify(sha, maxBytes, a).headDigest == Verify(sha, maxBytes, b).headDigest
    ensures a == b || LedgersCollide(sha, maxBytes, a, b)
  {
    LinesAreExplained(sha, maxBytes);
    RecordsAreUnambiguous();
    UnambiguousDetermines(sha, LineCheck(sha, maxBytes), LineCover(), RecordFormat());
    HeadDeterminesText(sha, LineCheck(sha, maxBytes), LineCover(), a, b);
  }

  /** A ledger whose head after `n` records is that of an earlier ledger begins with the earlier ledger. */
  lemma CheckpointDeterminesPast(sha: Hash, maxBytes: nat, earlier: Text, later: Text, n: nat)
    requires Verify(sha, maxBytes, earlier).ok && Verify(sha, maxBytes, later).ok && n <= |Lines(later)|
    requires HeadBefore(LineCheck(sha, maxBytes), Lines(later), n) == Verify(sha, maxBytes, earlier).headDigest
    ensures Lines(later)[..n] == Lines(earlier) ||
            ChainsCollide(sha, LineCheck(sha, maxBytes), LineCover(), Lines(later)[..n], Lines(earlier))
  {
    LinesAreExplained(sha, maxBytes);
    RecordsAreUnambiguous();
    UnambiguousDetermines(sha, LineCheck(sha, maxBytes), LineCover(), RecordFormat());
    HeadDeterminesPast(sha, LineCheck(sha, maxBytes), LineCover(), earlier, later, n);
  }

  /**
    Cutting a good ledger anywhere leaves its complete records and the digest of the last of them,
    and is noticed without knowing the head exactly if the cut is inside a record.
  */
  lemma PrefixOfLedger(sha: Hash, maxBytes: nat, raw: Text, k: nat)
    requires Verify(sha, maxBytes, raw).ok && k <= |raw|
    ensures var n := |Lines(raw[..k])|;
            && n <= |Lines(raw)|
            && Verify(sha, maxBytes, raw[..k]) ==
                 Verification(k == 0 || raw[k - 1] == NEWLINE, n, HeadBefore(LineCheck(sha, maxBytes), Lines(raw), n))
  {
    PrefixVerifies(LineCheck(sha, maxBytes), raw, k);
  }
}
