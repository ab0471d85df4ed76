/** The sending loop of relay_outbound (src/smtp/submission_server.cpp): dot-stuffing by section 4.5.2 of RFC 5321. */
module Relay {
  import opened Common
  import opened Getline
  import opened SmtpFraming

  /** A line as it is sent: a leading dot doubled, then one trailing CR dropped. */
  function Stuff(l: Bytes): Bytes { StripCR(if l != [] && l[0] == DOT then [DOT] + l else l) }

  function Body(lines: seq<Bytes>): Bytes {
    if lines == [] then [] else Stuff(lines[0]) + [CR, LF] + Body(lines[1..])
  }

  const END: Bytes := [DOT, CR, LF]

  /** What the relay sends for an outbound text: its lines and the final dot. */
  function Stream(text: Bytes): Bytes { Body(Lines(text)) + END }

  method SendText(text: Bytes) returns (out: Bytes)
    ensures out == Stream(text)
  {
    out := [];
    var rest := text;
    while rest != []
      invariant out + Body(Lines(rest)) == Body(Lines(text))
      decreases |rest|
    {
      var line := rest[..IndexOf(rest, LF)];
      NextLine(rest);
      var sent := Stuff(line) + [CR, LF];
      assert out + (sent + Body(Lines(AfterLF(rest)))) == (out + sent) + Body(Lines(AfterLF(rest)));
      out := out + sent;
      rest := AfterLF(rest);
    }
    out := out + END;
  }

  lemma NextLine(text: Bytes)
    requires text != []
    ensures Body(Lines(text)) == Stuff(text[..IndexOf(text, LF)]) + [CR, LF] + Body(Lines(AfterLF(text)))
  {
    assert Lines(text)[1..] == Lines(AfterLF(text));
  }

  // ----- where the stream ends

  predicate StartsWithEnd(s: Bytes) { |s| >= 3 && s[0] == DOT && s[1] == CR && s[2] == LF }

  /** No line that is sent looks like the final dot. */
  lemma StuffedIsNotEnd(l: Bytes, rest: Bytes)
    requires LF !in l
    ensures LF !in Stuff(l) && !StartsWithEnd(Stuff(l) + [CR, LF] + rest)
  {
    assert LF !in Stuff(l);
  }

  /** In a line followed by more text a terminator stands across the line's end, or in what follows. */
  lemma TermBehindLine(c: Bytes, rest: Bytes, j: nat)
    requires LF !in c
    ensures TermAt(c + [CR, LF] + rest, j) <==> (j == |c| && StartsWithEnd(rest)) || (j >= |c| + 2 && TermAt(rest, j - |c| - 2))
  {
    var s := c + [CR, LF] + rest;
    if j >= |c| + 2 && j + 5 <= |s| {
      assert s[j..j + 5] == rest[j - |c| - 2..j - |c| + 3];
    } else if j + 5 <= |s| {
      var x := s[j..j + 5];
      assert x[0] == s[j] && x[1] == s[j + 1] && x[2] == s[j + 2] && x[3] == s[j + 3] && x[4] == s[j + 4];
      if j + 1 < |c| { assert s[j + 1] == c[j + 1]; }
    }
  }

  lemma LinesDoNotStartWithEnd(lines: seq<Bytes>)
    requires NoLF(lines)
    ensures StartsWithEnd(Body(lines) + END) <==> lines == []
  {
    if lines == [] {
      assert Body(lines) + END == END;
    } else {
      var rest := Body(lines[1..]);
      StuffedIsNotEnd(lines[0], rest + END);
      assert Stuff(lines[0]) + [CR, LF] + (rest + END) == Body(lines) + END;
    }
  }

  /** The only CRLF.CRLF of a stream is made by its last line's end and the final dot. */
  lemma {:induction false} OnlyTerm(lines: seq<Bytes>, j: nat)
    requires NoLF(lines)
    ensures TermAt(Body(lines) + END, j) <==> lines != [] && j + 2 == |Body(lines)|
    decreases |lines|
  {
    if lines == [] {
      assert Body(lines) + END == END;
    } else {
      var c, rest := Stuff(lines[0]), Body(lines[1..]);
      assert Body(lines) + END == c + [CR, LF] + (rest + END);
      StuffedIsNotEnd(lines[0], []);
      TermBehindLine(c, rest + END, j);
      LinesDoNotStartWithEnd(lines[1..]);
      if j >= |c| + 2 { OnlyTerm(lines[1..], j - |c| - 2); }
    }
  }

  /** For every non-empty text, and for no other, the stream's first CRLF.CRLF is its own end. */
  lemma StreamEndsOnce(text: Bytes)
    ensures text != [] ==> |Stream(text)| >= 5 && FirstTermAt(Stream(text), |Stream(text)| - 5)
    ensures text == [] ==> Termless(Stream(text))
  {
    LinesHaveNoLF(text);
    forall j: nat ensures TermAt(Stream(text), j) <==> text != [] && j + 5 == |Stream(text)| { OnlyTerm(Lines(text), j); }
    if text != [] { assert |Stream(text)| >= 5; }
  }

  /** A server reading mail data takes the whole stream and stops exactly at its end. */
  lemma ReaderStopsAtEnd<M>(h: Handlers<M>, m: M, text: Bytes)
    requires text != [] && h.inData(m)
    ensures |Stream(text)| >= 5
    ensures OnData(h, Reader(m, [], []), Stream(text)) == Reader(h.mail(m, Stream(text)[..|Stream(text)| - 5]), [], [])
  {
    StreamEndsOnce(text);
    DataIsWhole(h, m, Stream(text));
  }

  // ----- what the receiver recovers

  /** Undoing the stuffing of one received line, whose LF is gone already. */
  function Unstuff(l: Bytes): Bytes {
    var c := StripCR(l);
    if c != [] && c[0] == DOT then c[1..] else c
  }

  function UnstuffAll(lines: seq<Bytes>): seq<Bytes> { if lines == [] then [] else [Unstuff(lines[0])] + UnstuffAll(lines[1..]) }
  function StripAll(lines: seq<Bytes>): seq<Bytes> { if lines == [] then [] else [StripCR(lines[0])] + StripAll(lines[1..]) }

  lemma UnstuffInverts(l: Bytes)
    ensures Unstuff(Stuff(l) + [CR]) == StripCR(l)
  {
    var c := Stuff(l);
    assert (c + [CR])[..|c|] == c;
  }

  lemma {:induction false} BodyUnstuffs(lines: seq<Bytes>)
    requires NoLF(lines)
    ensures UnstuffAll(Lines(Body(lines))) == StripAll(lines)
    decreases |lines|
  {
    if lines != [] {
      var c := Stuff(lines[0]);
      var rest := Body(lines[1..]);
      StuffedIsNotEnd(lines[0], []);
      assert Body(lines) == (c + [CR]) + [LF] + rest;
      FirstLine(c + [CR], rest);
      UnstuffInverts(lines[0]);
      BodyUnstuffs(lines[1..]);
      assert ([c + [CR]] + Lines(rest))[1..] == Lines(rest);
    }
  }

  /** Removing one leading dot from every received line gives back the lines of the text, without their CRs. */
  lemma ReceiverRecoversLines(text: Bytes)
    ensures |Stream(text)| >= 3
    ensures UnstuffAll(Lines(Stream(text)[..|Stream(text)| - 3])) == StripAll(Lines(text))
  {
    LinesHaveNoLF(text);
    BodyUnstuffs(Lines(text));
    assert Stream(text)[..|Stream(text)| - 3] == Body(Lines(text));
  }
}
