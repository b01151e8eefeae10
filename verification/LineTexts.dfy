/** Texts as lines: what a line-oriented file looks like when it grows and when it is cut. */
module LineTexts {
  import opened Texts

  predicate EndsLine(raw: Text) {
    raw != [] && raw[|raw| - 1] == NEWLINE
  }

  /** The complete lines of a text. */
  function Lines(raw: Text): seq<Text> {
    var parts := Split(raw, NEWLINE);
    parts[..|parts| - 1]
  }

  function Unlines(lines: seq<Text>): Text {
    if lines == [] then [] else Unlines(lines[..|lines| - 1]) + lines[|lines| - 1] + [NEWLINE]
  }

  lemma {:induction false} SplitEnd(raw: Text, line: Text)
    requires NEWLINE !in line
    ensures Split(raw + line + [NEWLINE], NEWLINE) == Tack(Split(raw, NEWLINE), line) + [[]]
    ensures Split(raw + line, NEWLINE) == Tack(Split(raw, NEWLINE), line)
    decreases |raw|
  {
    if raw == [] {
      SplitFirst(line, NEWLINE, []);
      SplitNone(line, NEWLINE);
      assert raw + line + [NEWLINE] == line + [NEWLINE] + [];
      assert raw + line == line;
      assert Tack([[]], line) == [line];
    } else {
      SplitEnd(raw[1..], line);
      assert (raw + line + [NEWLINE])[1..] == raw[1..] + line + [NEWLINE];
      assert (raw + line)[1..] == raw[1..] + line;
      TackHead(raw[0], Split(raw[1..], NEWLINE), line);
    }
  }

  /** Lengthening the last part. */
  function Tack(parts: seq<Text>, line: Text): (r: seq<Text>)
    requires parts != []
    ensures |r| == |parts|
  {
    parts[..|parts| - 1] + [parts[|parts| - 1] + line]
  }

  lemma TackHead(u: Unit, rest: seq<Text>, line: Text)
    requires rest != []
    ensures Tack([[]] + rest, line) == [[]] + Tack(rest, line)
    ensures Tack([[u] + rest[0]] + rest[1..], line) == [[u] + Tack(rest, line)[0]] + Tack(rest, line)[1..]
  {
    if |rest| == 1 {
      assert [u] + (rest[0] + line) == [u] + rest[0] + line;
    }
  }

  lemma {:induction false} LastPartEmpty(raw: Text)
    ensures (raw == [] || EndsLine(raw)) <==> Split(raw, NEWLINE)[|Split(raw, NEWLINE)| - 1] == []
    decreases |raw|
  {
    if raw != [] {
      LastPartEmpty(raw[1..]);
    }
  }

  /** Adding a whole line to a text of whole lines. */
  lemma LinesPush(raw: Text, line: Text)
    requires (raw == [] || EndsLine(raw)) && NEWLINE !in line
    ensures Lines(raw + line + [NEWLINE]) == Lines(raw) + [line]
    ensures Lines(raw + line) == Lines(raw)
  {
    SplitEnd(raw, line);
    LastPartEmpty(raw);
    assert [] + line == line;
  }

  /** A text cut at its last newline: whole lines, then a remainder without one. */
  lemma {:induction false} CutLastLine(raw: Text) returns (whole: Text, rest: Text)
    ensures raw == whole + rest && (whole == [] || EndsLine(whole)) && NEWLINE !in rest
    decreases |raw|
  {
    if raw == [] || EndsLine(raw) {
      whole, rest := raw, [];
    } else {
      var n := |raw| - 1;
      whole, rest := CutLastLine(raw[..n]);
      assert raw == raw[..n] + [raw[n]];
      assert raw == whole + (rest + [raw[n]]);
      rest := rest + [raw[n]];
    }
  }

  /** Texts of whole lines are their lines. */
  lemma {:induction false} UnlinesLines(raw: Text)
    requires raw == [] || EndsLine(raw)
    ensures Unlines(Lines(raw)) == raw
    decreases |raw|
  {
    if raw != [] {
      var n := |raw| - 1;
      var whole, rest := CutLastLine(raw[..n]);
      assert raw == raw[..n] + [NEWLINE];
      assert raw == whole + rest + [NEWLINE];
      UnlinesLines(whole);
      LinesPush(whole, rest);
      assert (Lines(whole) + [rest])[..|Lines(whole)|] == Lines(whole);
    }
  }

  lemma {:induction false} PrefixLines(raw: Text, k: nat)
    requires k <= |raw|
    ensures |Lines(raw[..k])| <= |Lines(raw)| && Lines(raw[..k]) == Lines(raw)[..|Lines(raw[..k])|]
    decreases |raw|
  {
    if k == 0 {
      assert raw[..0] == [];
    } else {
      PrefixLines(raw[1..], k - 1);
      assert raw[..k][1..] == raw[1..][..k - 1];
      PrefixPush(raw[0], Split(raw[1..], NEWLINE), Split(raw[1..][..k - 1], NEWLINE));
    }
  }

  lemma PrefixPush(u: Unit, parts: seq<Text>, fewer: seq<Text>)
    requires parts != [] && fewer != [] && |fewer| <= |parts| && fewer[..|fewer| - 1] == parts[..|fewer| - 1]
    ensures ([[]] + fewer)[..|fewer|] == ([[]] + parts)[..|fewer|]
    ensures var x, y := [[u] + parts[0]] + parts[1..], [[u] + fewer[0]] + fewer[1..];
            y[..|y| - 1] == x[..|y| - 1]
  {
    forall i | 0 <= i < |fewer| - 1 ensures fewer[i] == parts[i] {
      assert fewer[i] == fewer[..|fewer| - 1][i];
    }
    assert ([[]] + fewer)[..|fewer|] == [[]] + fewer[..|fewer| - 1];
  }
}
