/**
  Chains of lines in which every line is checked against its place and the digest before it: the
  walk of a verifier, and what the last digest says about the whole chain.

  The check of one line is a parameter here.
*/
module HashChain {
  import opened Common
  import opened Texts
  import opened LineTexts
  import opened Digests

  /** The digest of an acceptable line, given its place in the chain and the digest before it. */
  type Check = (Text, nat, Option<Digest>) -> Option<Digest>

  datatype Verification = Verification(ok: bool, recordCount: nat, headDigest: Option<Digest>)

  /** Checking lines one after the other from a known chain head; `ok` tells whether all passed. */
  function Walk(check: Check, lines: seq<Text>, done: nat, head: Option<Digest>): Verification
    decreases |lines|
  {
    if lines == [] then Verification(true, done, head)
    else
      var digest := check(lines[0], done + 1, head);
      if digest.None? then Verification(false, done, head)
      else Walk(check, lines[1..], done + 1, digest)
  }

  /** A text of lines verifies if every complete line passes and nothing follows the last of them. */
  function VerifyChain(check: Check, raw: Text): Verification {
    var walked := Walk(check, Lines(raw), 0, None);
    walked.(ok := walked.ok && (raw == [] || EndsLine(raw)))
  }

  lemma {:induction false} WalkPush(check: Check, lines: seq<Text>, line: Text, done: nat, head: Option<Digest>)
    ensures var w := Walk(check, lines, done, head);
            Walk(check, lines + [line], done, head) ==
            if !w.ok then w
            else
              var d := check(line, w.recordCount + 1, w.headDigest);
              if d.None? then Verification(false, w.recordCount, w.headDigest)
              else Verification(true, w.recordCount + 1, d)
    decreases |lines|
  {
    if lines == [] {
      assert ([] + [line])[1..] == [];
    } else {
      var d := check(lines[0], done + 1, head);
      assert (lines + [line])[1..] == lines[1..] + [line];
      if d.Some? {
        WalkPush(check, lines[1..], line, done + 1, d);
      }
    }
  }

  lemma {:induction false} WalkCounts(check: Check, lines: seq<Text>, done: nat, head: Option<Digest>)
    ensures var w := Walk(check, lines, done, head);
            && done <= w.recordCount <= done + |lines|
            && (w.ok <==> w.recordCount == done + |lines|)
    decreases |lines|
  {
    if lines != [] {
      var d := check(lines[0], done + 1, head);
      if d.Some? {
        WalkCounts(check, lines[1..], done + 1, d);
      }
    }
  }

  lemma WalkNext(check: Check, lines: seq<Text>, i: nat)
    requires i < |lines| && Walk(check, lines[..i], 0, None).ok
    ensures var w := Walk(check, lines[..i], 0, None);
            var d := check(lines[i], i + 1, w.headDigest);
            && w.recordCount == i
            && Walk(check, lines[..i + 1], 0, None) ==
                 if d.None? then Verification(false, i, w.headDigest) else Verification(true, i + 1, d)
  {
    WalkCounts(check, lines[..i], 0, None);
    WalkPush(check, lines[..i], lines[i], 0, None);
    assert lines[..i + 1] == lines[..i] + [lines[i]];
  }

  /** After a good start, the next line decides: it fails the whole ledger or extends the start. */
  lemma RestOfWalk(check: Check, lines: seq<Text>, i: nat)
    requires i < |lines| && Walk(check, lines[..i], 0, None).ok
    ensures var w := Walk(check, lines[..i], 0, None);
            var d := check(lines[i], i + 1, w.headDigest);
            && w.recordCount == i
            && (d.None? ==> Walk(check, lines, 0, None) == Verification(false, i, w.headDigest))
            && (d.Some? ==> Walk(check, lines[..i + 1], 0, None) == Verification(true, i + 1, d))
  {
    WalkNext(check, lines, i);
    if !Walk(check, lines[..i + 1], 0, None).ok {
      FailureStays(check, lines, i + 1);
    }
  }

  lemma {:induction false} FailureStays(check: Check, lines: seq<Text>, i: nat)
    requires i <= |lines| && !Walk(check, lines[..i], 0, None).ok
    ensures Walk(check, lines, 0, None) == Walk(check, lines[..i], 0, None)
    decreases |lines| - i
  {
    if i == |lines| {
      assert lines[..i] == lines;
    } else {
      WalkPush(check, lines[..i], lines[i], 0, None);
      assert lines[..i + 1] == lines[..i] + [lines[i]];
      FailureStays(check, lines, i + 1);
    }
  }

  lemma {:induction false} GoodPrefix(check: Check, lines: seq<Text>, n: nat)
    requires n <= |lines| && Walk(check, lines, 0, None).ok
    ensures var w := Walk(check, lines[..n], 0, None); w.ok && w.recordCount == n
  {
    WalkCounts(check, lines[..n], 0, None);
    if !Walk(check, lines[..n], 0, None).ok {
      FailureStays(check, lines, n);
    }
  }

  /** The chain head before line `i`. */
  function HeadBefore(check: Check, lines: seq<Text>, i: nat): Option<Digest>
    requires i <= |lines|
  {
    Walk(check, lines[..i], 0, None).headDigest
  }

  // ---------------------------------------------------------------------------------------
  // Tamper evidence

  /** The text that a line's digest covers, given the line's place and the digest before it. */
  type Cover = (Text, nat, Option<Digest>) -> Text

  /** A line's digest fixes the line, its place and the digest before it, up to a collision. */
  ghost predicate Determines(sha: Hash, check: Check, cover: Cover) {
    forall x: Text, m: nat, p: Option<Digest>, y: Text, n: nat, q: Option<Digest> ::
      check(x, m, p).Some? && check(x, m, p) == check(y, n, q) ==>
        (x == y && m == n && p == q) || Collide(sha, cover(x, m, p), cover(y, n, q))
  }

  /** What a chain's line and its covered text are made of, for some type of events. */
  datatype Format<!E> = Format(event: Text -> E, proper: E -> bool,
                               covered: (E, nat, Option<Digest>) -> Text,
                               line: (E, nat, Option<Digest>, Digest) -> Text)

  /** A line, its digest and the text its digest covers all follow from its event and its place. */
  ghost predicate Explains<E(!new)>(sha: Hash, check: Check, cover: Cover, f: Format<E>) {
    forall x: Text, m: nat, p: Option<Digest> :: check(x, m, p).Some? ==>
      && f.proper(f.event(x))
      && cover(x, m, p) == f.covered(f.event(x), m, p)
      && check(x, m, p).value == sha(cover(x, m, p))
      && x == f.line(f.event(x), m, p, check(x, m, p).value)
  }

  /** The covered text is ambiguous in nothing. */
  ghost predicate Unambiguous<E(!new)>(f: Format<E>) {
    forall d: E, m: nat, p: Option<Digest>, e: E, n: nat, q: Option<Digest> ::
      f.proper(d) && f.proper(e) && f.covered(d, m, p) == f.covered(e, n, q) ==> d == e && m == n && p == q
  }

  lemma UnambiguousDetermines<E(!new)>(sha: Hash, check: Check, cover: Cover, f: Format<E>)
    requires Explains(sha, check, cover, f) && Unambiguous(f)
    ensures Determines(sha, check, cover)
  {
  }

  /** What the digest of line `i` covers. */
  function CoveredAt(check: Check, cover: Cover, lines: seq<Text>, i: nat): Text
    requires i < |lines|
  {
    cover(lines[i], i + 1, HeadBefore(check, lines, i))
  }

  /** Two records of the chains cover different texts under one digest. */
  ghost predicate ChainsCollide(sha: Hash, check: Check, cover: Cover, a: seq<Text>, b: seq<Text>) {
    exists i, j :: 0 <= i < |a| && 0 <= j < |b| &&
      Collide(sha, CoveredAt(check, cover, a, i), CoveredAt(check, cover, b, j))
  }

  lemma LastLine(check: Check, lines: seq<Text>)
    requires lines != [] && Walk(check, lines, 0, None).ok
    ensures var n := |lines| - 1;
            var before := Walk(check, lines[..n], 0, None);
            && before.ok && before.recordCount == n
            && Walk(check, lines, 0, None).headDigest == check(lines[n], n + 1, before.headDigest)
            && check(lines[n], n + 1, before.headDigest).Some?
  {
    var n := |lines| - 1;
    WalkPush(check, lines[..n], lines[n], 0, None);
    WalkCounts(check, lines[..n], 0, None);
    assert lines == lines[..n] + [lines[n]];
  }

  lemma CollisionBefore(sha: Hash, check: Check, cover: Cover, a: seq<Text>, b: seq<Text>)
    requires a != [] && b != [] && ChainsCollide(sha, check, cover, a[..|a| - 1], b[..|b| - 1])
    ensures ChainsCollide(sha, check, cover, a, b)
  {
    var x, y := a[..|a| - 1], b[..|b| - 1];
    var i, j :| 0 <= i < |x| && 0 <= j < |y| && Collide(sha, CoveredAt(check, cover, x, i), CoveredAt(check, cover, y, j));
    assert x[..i] == a[..i] && y[..j] == b[..j];
    assert CoveredAt(check, cover, a, i) == CoveredAt(check, cover, x, i);
    assert CoveredAt(check, cover, b, j) == CoveredAt(check, cover, y, j);
  }

  /** Two chains with one head are one chain, or two of their records collide. */
  lemma {:induction false} SameHeadSameChain(sha: Hash, check: Check, cover: Cover, a: seq<Text>, b: seq<Text>)
    requires Determines(sha, check, cover)
    requires Walk(check, a, 0, None).ok && Walk(check, b, 0, None).ok
    requires Walk(check, a, 0, None).headDigest == Walk(check, b, 0, None).headDigest
    ensures a == b || ChainsCollide(sha, check, cover, a, b)
    decreases |a|
  {
    if a != [] {
      LastLine(check, a);
    }
    if b != [] {
      LastLine(check, b);
    }
    if a != [] && b != [] {
      var i, j := |a| - 1, |b| - 1;
      var p, q := HeadBefore(check, a, i), HeadBefore(check, b, j);
      assert check(a[i], i + 1, p).Some? && check(a[i], i + 1, p) == check(b[j], j + 1, q);
      if Collide(sha, cover(a[i], i + 1, p), cover(b[j], j + 1, q)) {
        assert Collide(sha, CoveredAt(check, cover, a, i), CoveredAt(check, cover, b, j));
      } else {
        SameHeadSameChain(sha, check, cover, a[..i], b[..j]);
        if ChainsCollide(sha, check, cover, a[..i], b[..j]) {
          CollisionBefore(sha, check, cover, a, b);
        }
        assert a == a[..i] + [a[i]] && b == b[..j] + [b[j]];
      }
    }
  }

  /** Two texts that verify with the same head digest are the same text, or two of their records collide. */
  lemma HeadDeterminesText(sha: Hash, check: Check, cover: Cover, a: Text, b: Text)
    requires Determines(sha, check, cover)
    requires VerifyChain(check, a).ok && VerifyChain(check, b).ok
    requires VerifyChain(check, a).headDigest == VerifyChain(check, b).headDigest
    ensures a == b || ChainsCollide(sha, check, cover, Lines(a), Lines(b))
  {
    SameHeadSameChain(sha, check, cover, Lines(a), Lines(b));
    UnlinesLines(a);
    UnlinesLines(b);
  }

  /** A chain whose head after `n` lines is that of an earlier chain begins with the earlier chain. */
  lemma HeadDeterminesPast(sha: Hash, check: Check, cover: Cover, earlier: Text, later: Text, n: nat)
    requires Determines(sha, check, cover)
    requires VerifyChain(check, earlier).ok && VerifyChain(check, later).ok && n <= |Lines(later)|
    requires HeadBefore(check, Lines(later), n) == VerifyChain(check, earlier).headDigest
    ensures Lines(later)[..n] == Lines(earlier) || ChainsCollide(sha, check, cover, Lines(later)[..n], Lines(earlier))
  {
    GoodPrefix(check, Lines(later), n);
    SameHeadSameChain(sha, check, cover, Lines(later)[..n], Lines(earlier));
  }

  // ---------------------------------------------------------------------------------------
  // Growing and cutting

  /**
    Every prefix of a good text verifies to its complete lines and the digest of the last of them,
    and is itself good exactly if it ends where a line ends.
  */
  lemma PrefixVerifies(check: Check, raw: Text, k: nat)
    requires VerifyChain(check, raw).ok && k <= |raw|
    ensures var n := |Lines(raw[..k])|;
            && n <= |Lines(raw)|
            && VerifyChain(check, raw[..k]) ==
                 Verification(k == 0 || raw[k - 1] == NEWLINE, n, HeadBefore(check, Lines(raw), n))
  {
    PrefixLines(raw, k);
    GoodPrefix(check, Lines(raw), |Lines(raw[..k])|);
  }

  /** A good text grows by a line that passes the check. */
  lemma AppendVerifies(check: Check, raw: Text, line: Text, count: nat, head: Option<Digest>, digest: Digest)
    requires VerifyChain(check, raw) == Verification(true, count, head)
    requires NEWLINE !in line && check(line, count + 1, head) == Some(digest)
    ensures VerifyChain(check, raw + line + [NEWLINE]) == Verification(true, count + 1, Some(digest))
  {
    LinesPush(raw, line);
    WalkPush(check, Lines(raw), line, 0, None);
  }

  /** A torn write leaves the good part as it was and is reported. */
  lemma TornVerifies(check: Check, raw: Text, part: Text)
    requires VerifyChain(check, raw).ok && NEWLINE !in part
    ensures VerifyChain(check, raw + part) == VerifyChain(check, raw).(ok := part == [])
  {
    LinesPush(raw, part);
    if part == [] {
      assert raw + part == raw;
    } else {
      assert (raw + part)[|raw + part| - 1] == part[|part| - 1];
    }
  }
}
