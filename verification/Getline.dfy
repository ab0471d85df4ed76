/** std::getline over a text, as relay_outbound (src/smtp/submission_server.cpp) and canonicalize_body (src/auth/dkim/verifier.cpp) use it. */
module Getline {
  import opened Common

  /** What follows the first LF. */
  function AfterLF(text: Bytes): (r: Bytes)
    ensures text != [] ==> |r| < |text|
  {
    var i := IndexOf(text, LF);
    if i < |text| then text[i + 1..] else []
  }

  /** The lines that getline gives: cut at LF, with no empty line after a final LF. */
  function Lines(text: Bytes): seq<Bytes>
    decreases |text|
  {
    if text == [] then [] else [text[..IndexOf(text, LF)]] + Lines(AfterLF(text))
  }

  predicate NoLF(lines: seq<Bytes>) { forall i :: 0 <= i < |lines| ==> LF !in lines[i] }

  lemma {:induction false} LinesHaveNoLF(text: Bytes)
    ensures NoLF(Lines(text)) && (Lines(text) == [] <==> text == [])
    decreases |text|
  {
    if text != [] {
      NotBefore(text, LF);
      LinesHaveNoLF(AfterLF(text));
    }
  }

  lemma FirstLine(c: Bytes, rest: Bytes)
    requires LF !in c
    ensures Lines(c + [LF] + rest) == [c] + Lines(rest)
  {
    var s := c + [LF] + rest;
    var i := IndexOf(s, LF);
    assert s[|c|] == LF && s[..|c|] == c;
    assert i == |c| by { FirstIndex(s, LF, |c|); }
    assert s[i + 1..] == rest;
  }

  lemma NextLF(a: Bytes)
    requires LF in a
    ensures IndexOf(a, LF) < |a|
  {
    NotBefore(a, LF);
    assert a[..|a|] == a;
  }

  /** Text appended behind the first LF leaves the first line as it is. */
  lemma LinesStep(a: Bytes, b: Bytes)
    requires LF in a
    ensures Lines(a + b) == [a[..IndexOf(a, LF)]] + Lines(AfterLF(a) + b)
  {
    NextLF(a);
    NotBefore(a, LF);
    var i := IndexOf(a, LF);
    BehindLF(a, b, i);
    FirstLine(a[..i], a[i + 1..] + b);
  }

  lemma BehindLF(a: Bytes, b: Bytes, i: nat)
    requires i < |a| && a[i] == LF
    ensures a + b == a[..i] + [LF] + (a[i + 1..] + b)
  {
  }

  lemma AfterLFEnds(a: Bytes)
    requires LF in a
    ensures var r := AfterLF(a); |r| < |a| && (if r == [] then a[|a| - 1] == LF else r[|r| - 1] == a[|a| - 1])
  {
    NextLF(a);
  }

  /** Behind a text that is empty or ends in LF, the lines of what follows follow. */
  lemma {:induction false} LinesBehind(a: Bytes, b: Bytes)
    requires a == [] || a[|a| - 1] == LF
    ensures Lines(a + b) == Lines(a) + Lines(b)
    decreases |a|
  {
    if a == [] {
      assert a + b == b;
    } else {
      AfterLFEnds(a);
      LinesStep(a, b);
      var x, r := a[..IndexOf(a, LF)], AfterLF(a);
      LinesBehind(r, b);
      Assoc([x], Lines(r), Lines(b));
    }
  }

  predicate Open(a: Bytes) { a != [] && a[|a| - 1] != LF }

  /** The last line of a text that does not end in LF. */
  function LastLine(a: Bytes): Bytes
    requires Open(a)
    decreases |a|
  {
    if LF in a then
      AfterLFEnds(a);
      LastLine(AfterLF(a))
    else a
  }

  /** The lines before it. */
  function LinesBefore(a: Bytes): seq<Bytes>
    requires Open(a)
    decreases |a|
  {
    if LF in a then
      AfterLFEnds(a);
      [a[..IndexOf(a, LF)]] + LinesBefore(AfterLF(a))
    else []
  }

  lemma {:induction false} IndexAtEnd(a: Bytes)
    requires LF !in a
    ensures IndexOf(a, LF) == |a|
  {
    if a != [] { IndexAtEnd(a[1..]); }
  }

  lemma {:induction false} OpenLine(a: Bytes)
    requires Open(a)
    ensures Lines(a) == LinesBefore(a) + [LastLine(a)]
    ensures LastLine(a) != [] && LastLine(a)[|LastLine(a)| - 1] == a[|a| - 1]
    decreases |a|
  {
    if LF in a {
      AfterLFEnds(a);
      var x, r := a[..IndexOf(a, LF)], AfterLF(a);
      OpenLine(r);
      Assoc([x], LinesBefore(r), [LastLine(r)]);
    } else {
      IndexAtEnd(a);
      assert a[..|a|] == a && AfterLF(a) == [];
    }
  }

  /** A line end appended to the text closes its last line. */
  lemma {:induction false} ClosedLine(a: Bytes, end: Bytes)
    requires Open(a) && LF !in end
    ensures Lines(a + (end + [LF])) == LinesBefore(a) + [LastLine(a) + end]
    decreases |a|
  {
    if LF in a {
      AfterLFEnds(a);
      LinesStep(a, end + [LF]);
      var x, r := a[..IndexOf(a, LF)], AfterLF(a);
      ClosedLine(r, end);
      Assoc([x], LinesBefore(r), [LastLine(r) + end]);
    } else {
      FirstLine(a + end, []);
      assert a + (end + [LF]) == (a + end) + [LF] + [];
    }
  }
}
