/**
 The byte loop that SMTP::Session and SMTP::SubmissionServer share (src/smtp/smtp_session.cpp,
 src/smtp/submission_server.cpp): command lines up to LF, and mail data up to CRLF.CRLF, found with a window of the
 last five bytes. What lines and mails do is left to the session.
 */
module SmtpFraming {
  import opened Common

  const DOT: Byte := 0x2E
  const TERM: Bytes := [CR, LF, DOT, CR, LF]
  const MAX_LINE := 2048

  /**
   A session on machine states M: what a command line and a finished mail do, whether mail data is being received,
   what an overlong line does, and whether the rest of the chunk must be dropped after a line.
   */
  datatype Handlers<!M> = Handlers(line: (M, Bytes) -> M, mail: (M, Bytes) -> M, tooLong: M -> M, inData: M -> bool,
    stops: M -> bool, resume: M -> M)

  /** The session with its line buffer and window. */
  datatype Reader<M> = Reader(m: M, buf: Bytes, tail: Bytes)

  function Last5(s: Bytes): Bytes { if |s| > 5 then s[|s| - 5..] else s }

  /** One byte of mail data. */
  function DataByte<M>(h: Handlers<M>, r: Reader<M>, b: Byte): Reader<M> {
    var buf, tail := r.buf + [b], Last5(r.tail + [b]);
    if tail == TERM && |buf| >= 5 then Reader(h.mail(r.m, buf[..|buf| - 5]), [], []) else Reader(r.m, buf, tail)
  }

  /** One byte of a command line. */
  function LineByte<M>(h: Handlers<M>, r: Reader<M>, b: Byte): Reader<M> {
    if b == LF then Reader(h.line(r.m, StripCR(r.buf)), [], r.tail)
    else if |r.buf| + 1 > MAX_LINE then Reader(h.tooLong(r.m), [], r.tail)
    else r.(buf := r.buf + [b])
  }

  function ReadByte<M>(h: Handlers<M>, r: Reader<M>, b: Byte): Reader<M> {
    if h.inData(r.m) then DataByte(h, r, b) else LineByte(h, r, b)
  }

  /** Whether this byte ended a line after which the chunk is dropped. */
  predicate Stops<M>(h: Handlers<M>, r: Reader<M>, b: Byte) { !h.inData(r.m) && b == LF && h.stops(ReadByte(h, r, b).m) }

  /** on_data. */
  function OnData<M>(h: Handlers<M>, r: Reader<M>, bytes: Bytes): Reader<M>
    decreases |bytes|
  {
    if bytes == [] then r
    else
      var r' := ReadByte(h, r, bytes[0]);
      if Stops(h, r, bytes[0]) then r'.(m := h.resume(r'.m)) else OnData(h, r', bytes[1..])
  }

  /** One byte, and what stopping there does. */
  function Next<M>(h: Handlers<M>, r: Reader<M>, b: Byte): Reader<M> {
    var r' := ReadByte(h, r, b);
    if Stops(h, r, b) then r'.(m := h.resume(r'.m)) else r'
  }

  lemma OnDataStep<M>(h: Handlers<M>, r: Reader<M>, bytes: Bytes, i: nat)
    requires i < |bytes|
    ensures OnData(h, r, bytes[i..]) ==
      if Stops(h, r, bytes[i]) then Next(h, r, bytes[i]) else OnData(h, Next(h, r, bytes[i]), bytes[i + 1..])
  {
    assert bytes[i..][0] == bytes[i] && bytes[i..][1..] == bytes[i + 1..];
  }

  /** No line in the chunk makes the rest of it be dropped. */
  predicate Unbroken<M>(h: Handlers<M>, r: Reader<M>, bytes: Bytes)
    decreases |bytes|
  {
    bytes == [] || (!Stops(h, r, bytes[0]) && Unbroken(h, ReadByte(h, r, bytes[0]), bytes[1..]))
  }

  /** Chunk boundaries do not matter... */
  lemma {:induction false} ChunksJoin<M>(h: Handlers<M>, r: Reader<M>, a: Bytes, b: Bytes)
    requires Unbroken(h, r, a)
    ensures OnData(h, r, a + b) == OnData(h, OnData(h, r, a), b)
    decreases |a|
  {
    if a == [] {
      assert a + b == b;
    } else {
      assert (a + b)[0] == a[0] && (a + b)[1..] == a[1..] + b;
      ChunksJoin(h, ReadByte(h, r, a[0]), a[1..], b);
    }
  }

  /** ...except that a chunk with a STARTTLS line is cut off there. */
  lemma {:induction false} BrokenChunkDropsRest<M>(h: Handlers<M>, r: Reader<M>, a: Bytes, b: Bytes)
    requires !Unbroken(h, r, a)
    ensures OnData(h, r, a + b) == OnData(h, r, a)
    decreases |a|
  {
    assert (a + b)[0] == a[0] && (a + b)[1..] == a[1..] + b;
    if !Stops(h, r, a[0]) { BrokenChunkDropsRest(h, ReadByte(h, r, a[0]), a[1..], b); }
  }

  // ----- mail data

  predicate TermAt(s: Bytes, k: nat) { k + 5 <= |s| && s[k..k + 5] == TERM }

  /** CRLF.CRLF stands at k for the first time. */
  predicate FirstTermAt(s: Bytes, k: nat) { TermAt(s, k) && forall j: nat | j < k :: !TermAt(s, j) }

  ghost predicate Termless(s: Bytes) { forall j: nat :: !TermAt(s, j) }

  lemma Last5Slides(s: Bytes, b: Byte)
    ensures Last5(Last5(s) + [b]) == Last5(s + [b])
  {
  }

  /** The buffer and the window after one more byte. */
  method Slide(buf: Bytes, tail: Bytes, b: Byte) returns (buf': Bytes, tail': Bytes)
    requires tail == Last5(buf)
    ensures buf' == buf + [b] && tail' == Last5(tail + [b])
    ensures tail' == Last5(buf') && (tail' == TERM ==> |buf'| >= 5)
  {
    Last5Slides(buf, b);
    buf', tail' := buf + [b], tail + [b];
    if |tail'| > 5 { tail' := tail'[|tail'| - 5..]; }
  }

  lemma TermAtExtends(s: Bytes, t: Bytes, k: nat)
    requires k + 5 <= |s|
    ensures TermAt(s + t, k) <==> TermAt(s, k)
  {
    assert (s + t)[k..k + 5] == s[k..k + 5];
  }

  /** One more byte completes a terminator exactly when the window shows it. */
  lemma WindowShowsTerm(s: Bytes, b: Byte)
    requires Termless(s)
    ensures Last5(s + [b]) == TERM <==> |s| >= 4 && TermAt(s + [b], |s| - 4)
    ensures Last5(s + [b]) == TERM <==> !Termless(s + [b])
    ensures Last5(s + [b]) == TERM ==> FirstTermAt(s + [b], |s| - 4)
  {
    forall j: nat | j + 5 <= |s| ensures !TermAt(s + [b], j) { TermAtExtends(s, [b], j); }
    if |s| >= 4 { assert (s + [b])[|s| - 4..|s| + 1] == Last5(s + [b]); }
  }

  /** While no terminator has been seen, data is collected and the window is its last five bytes. */
  lemma {:induction false} DataCollects<M>(h: Handlers<M>, m: M, buf: Bytes, s: Bytes)
    requires h.inData(m) && Termless(buf + s)
    ensures OnData(h, Reader(m, buf, Last5(buf)), s) == Reader(m, buf + s, Last5(buf + s))
    decreases |s|
  {
    if s == [] {
      assert buf + s == buf;
    } else {
      var buf' := buf + [s[0]];
      assert buf' + s[1..] == buf + s;
      PrefixTermless(buf', s[1..]);
      PrefixTermless(buf, s);
      WindowShowsTerm(buf, s[0]);
      Last5Slides(buf, s[0]);
      DataCollects(h, m, buf', s[1..]);
    }
  }

  lemma PrefixTermless(a: Bytes, b: Bytes)
    requires Termless(a + b)
    ensures Termless(a)
  {
    forall j: nat ensures !TermAt(a, j) {
      if j + 5 <= |a| { TermAtExtends(a, b, j); }
    }
  }

  /**
   The mail handed over is exactly what stands before the first CRLF.CRLF since data began, however much of it came in
   earlier chunks; what follows is read afresh.
   */
  lemma {:induction false} DataEndsAtFirstTerm<M>(h: Handlers<M>, m: M, buf: Bytes, s: Bytes, k: nat)
    requires h.inData(m) && Termless(buf) && FirstTermAt(buf + s, k)
    ensures |buf| < k + 5 <= |buf + s|
    ensures OnData(h, Reader(m, buf, Last5(buf)), s) ==
      OnData(h, Reader(h.mail(m, (buf + s)[..k]), [], []), (buf + s)[k + 5..])
    decreases |s|
  {
    if k + 5 <= |buf| { TermAtExtends(buf, s, k); }
    var b := s[0];
    var buf' := buf + [b];
    assert buf' + s[1..] == buf + s;
    WindowShowsTerm(buf, b);
    Last5Slides(buf, b);
    if Last5(buf') == TERM {
      TermAtExtends(buf', s[1..], |buf| - 4);
      assert k == |buf| - 4 by { TermsMeet(buf, s, k); }
      assert buf'[..|buf'| - 5] == (buf + s)[..k];
      assert s[1..] == (buf + s)[k + 5..];
    } else {
      DataEndsAtFirstTerm(h, m, buf', s[1..], k);
    }
  }

  /** Data whose first terminator is its end is taken as one mail. */
  lemma DataIsWhole<M>(h: Handlers<M>, m: M, s: Bytes)
    requires h.inData(m) && |s| >= 5 && FirstTermAt(s, |s| - 5)
    ensures OnData(h, Reader(m, [], []), s) == Reader(h.mail(m, s[..|s| - 5]), [], [])
  {
    assert [] + s == s;
    DataEndsAtFirstTerm(h, m, [], s, |s| - 5);
  }

  /** The first terminator cannot stand before the place where the data had none. */
  lemma TermsMeet(buf: Bytes, s: Bytes, k: nat)
    requires Termless(buf) && FirstTermAt(buf + s, k) && |buf| >= 4 && TermAt(buf + s, |buf| - 4)
    ensures k == |buf| - 4
  {
    if k < |buf| - 4 { TermAtExtends(buf, s, k); }
  }

  // ----- every run

  /** During mail data the window is the end of the buffer, which holds no terminator yet; otherwise it is empty. */
  ghost predicate Framed<M>(h: Handlers<M>, r: Reader<M>) {
    if h.inData(r.m) then Termless(r.buf) && r.tail == Last5(r.buf) else r.tail == []
  }

  lemma {:induction false} FramedKept<M>(h: Handlers<M>, r: Reader<M>, bytes: Bytes)
    requires Framed(h, r)
    ensures Framed(h, OnData(h, r, bytes))
    decreases |bytes|
  {
    if bytes != [] {
      if h.inData(r.m) {
        WindowShowsTerm(r.buf, bytes[0]);
        Last5Slides(r.buf, bytes[0]);
      }
      FramedKept(h, ReadByte(h, r, bytes[0]), bytes[1..]);
    }
  }

  function OnChunks<M>(h: Handlers<M>, r: Reader<M>, chunks: seq<Bytes>): Reader<M>
    decreases |chunks|
  {
    if chunks == [] then r else OnChunks(h, OnData(h, r, chunks[0]), chunks[1..])
  }

  function Flat(chunks: seq<Bytes>): Bytes { if chunks == [] then [] else chunks[0] + Flat(chunks[1..]) }

  lemma {:induction false} UnbrokenParts<M>(h: Handlers<M>, r: Reader<M>, a: Bytes, b: Bytes)
    requires Unbroken(h, r, a + b)
    ensures Unbroken(h, r, a) && Unbroken(h, OnData(h, r, a), b)
    decreases |a|
  {
    if a == [] {
      assert a + b == b;
    } else {
      assert (a + b)[0] == a[0] && (a + b)[1..] == a[1..] + b;
      UnbrokenParts(h, ReadByte(h, r, a[0]), a[1..], b);
    }
  }

  /** A stream without STARTTLS is read the same however it is cut into chunks. */
  lemma {:induction false} AnyChunking<M>(h: Handlers<M>, r: Reader<M>, chunks: seq<Bytes>)
    requires Unbroken(h, r, Flat(chunks))
    ensures OnChunks(h, r, chunks) == OnData(h, r, Flat(chunks))
    decreases |chunks|
  {
    if chunks != [] {
      UnbrokenParts(h, r, chunks[0], Flat(chunks[1..]));
      ChunksJoin(h, r, chunks[0], Flat(chunks[1..]));
      AnyChunking(h, OnData(h, r, chunks[0]), chunks[1..]);
    }
  }

  /** What holds of the machine before a chunk and is kept by its handlers holds after it. */
  lemma {:induction false} MachineKept<M(!new)>(h: Handlers<M>, good: M -> bool, r: Reader<M>, bytes: Bytes)
    requires good(r.m) && Keeps(h, good)
    ensures good(OnData(h, r, bytes).m)
    decreases |bytes|
  {
    if bytes != [] { MachineKept(h, good, ReadByte(h, r, bytes[0]), bytes[1..]); }
  }

  ghost predicate Keeps<M(!new)>(h: Handlers<M>, good: M -> bool) {
    (forall m, line :: good(m) && !h.inData(m) ==> good(h.line(m, line))) &&
    (forall m, body :: good(m) && h.inData(m) ==> good(h.mail(m, body))) &&
    (forall m :: good(m) ==> good(h.tooLong(m)) && good(h.resume(m)))
  }

  // ----- the command lines of a stream

  /** A command line, with the machine before and after it. */
  datatype Handled<M> = Handled(before: M, line: Bytes, after: M)

  /** The command lines that a chunk completes, in order. */
  function Commands<M>(h: Handlers<M>, r: Reader<M>, bytes: Bytes): seq<Handled<M>>
    decreases |bytes|
  {
    if bytes == [] then []
    else
      var b, r' := bytes[0], ReadByte(h, r, bytes[0]);
      (if !h.inData(r.m) && b == LF then [Handled(r.m, StripCR(r.buf), r'.m)] else []) +
      if Stops(h, r, b) then [] else Commands(h, r', bytes[1..])
  }

  // ----- the stream as a whole

  /** Where CRLF.CRLF first stands at or after k. */
  function FindTerm(s: Bytes, k: nat): Option<nat>
    requires k <= |s|
    decreases |s| - k
  {
    if k + 5 > |s| then None else if s[k..k + 5] == TERM then Some(k) else FindTerm(s, k + 1)
  }

  lemma {:induction false} FindTermLaw(s: Bytes, k: nat)
    requires k <= |s| && forall j: nat | j < k :: !TermAt(s, j)
    ensures var r := FindTerm(s, k); if r.None? then Termless(s) else FirstTermAt(s, r.value)
    decreases |s| - k
  {
    if k + 5 <= |s| && s[k..k + 5] != TERM { FindTermLaw(s, k + 1); }
  }

  /**
   What a session makes of a stream, read mail by mail and line by line: data up to the first CRLF.CRLF, lines up to
   LF, and every MAX_LINE + 1 bytes of an overlong line thrown away.
   */
  function Whole<M>(h: Handlers<M>, m: M, s: Bytes): Reader<M>
    decreases |s|
  {
    var i := IndexOf(s, LF);
    if h.inData(m) then
      var end := FindTerm(s, 0);
      FindTermLaw(s, 0);
      if end.None? then Reader(m, s, Last5(s)) else Whole(h, h.mail(m, s[..end.value]), s[end.value + 5..])
    else if i < |s| && i <= MAX_LINE then
      var m' := h.line(m, StripCR(s[..i]));
      if h.stops(m') then Reader(h.resume(m'), [], []) else Whole(h, m', s[i + 1..])
    else if |s| > MAX_LINE then Whole(h, h.tooLong(m), s[MAX_LINE + 1..])
    else Reader(m, s, [])
  }

  lemma {:induction false} LineCollects<M>(h: Handlers<M>, m: M, buf: Bytes, s: Bytes)
    requires !h.inData(m) && LF !in s && |buf| + |s| <= MAX_LINE
    ensures OnData(h, Reader(m, buf, []), s) == Reader(m, buf + s, []) && Unbroken(h, Reader(m, buf, []), s)
    decreases |s|
  {
    if s == [] {
      assert buf + s == buf;
    } else {
      assert s[0] in s && s[0] != LF;
      LineCollects(h, m, buf + [s[0]], s[1..]);
      assert buf + [s[0]] + s[1..] == buf + s;
    }
  }

  /** A whole line, and what follows. */
  lemma LineIsRead<M>(h: Handlers<M>, m: M, line: Bytes, rest: Bytes)
    requires !h.inData(m) && LF !in line && |line| <= MAX_LINE
    ensures var m' := h.line(m, StripCR(line));
      OnData(h, Reader(m, [], []), line + ([LF] + rest)) == if h.stops(m') then Reader(h.resume(m'), [], []) else OnData(h, Reader(m', [], []), rest)
  {
    LineCollects(h, m, [], line);
    assert [] + line == line;
    ChunksJoin(h, Reader(m, [], []), line, [LF] + rest);
    assert ([LF] + rest)[0] == LF && ([LF] + rest)[1..] == rest;
  }

  /** A line ended by CRLF that does not stop the chunk. */
  lemma CrlfLine<M>(h: Handlers<M>, m: M, line: Bytes, rest: Bytes)
    requires !h.inData(m) && LF !in line && |line| < MAX_LINE && !h.stops(h.line(m, line))
    ensures OnData(h, Reader(m, [], []), line + [CR, LF] + rest) == OnData(h, Reader(h.line(m, line), [], []), rest)
  {
    var whole := line + [CR];
    assert whole[..|line|] == line && StripCR(whole) == line;
    assert line + [CR, LF] + rest == whole + ([LF] + rest);
    LineIsRead(h, m, whole, rest);
  }

  /** A byte too many, and what follows. */
  lemma OverlongIsDropped<M>(h: Handlers<M>, m: M, line: Bytes, b: Byte, rest: Bytes)
    requires !h.inData(m) && LF !in line && b != LF && |line| == MAX_LINE
    ensures OnData(h, Reader(m, [], []), line + ([b] + rest)) == OnData(h, Reader(h.tooLong(m), [], []), rest)
  {
    LineCollects(h, m, [], line);
    assert [] + line == line;
    ChunksJoin(h, Reader(m, [], []), line, [b] + rest);
    assert ([b] + rest)[0] == b && ([b] + rest)[1..] == rest;
  }

  /** The byte loop reads a stream as a whole. */
  lemma {:induction false} BytesMakeWhole<M>(h: Handlers<M>, m: M, s: Bytes)
    ensures OnData(h, Reader(m, [], []), s) == Whole(h, m, s)
    decreases |s|, 1
  {
    if h.inData(m) { DataMakesWhole(h, m, s); } else { LinesMakeWhole(h, m, s); }
  }

  lemma {:induction false} DataMakesWhole<M>(h: Handlers<M>, m: M, s: Bytes)
    requires h.inData(m)
    ensures OnData(h, Reader(m, [], []), s) == Whole(h, m, s)
    decreases |s|, 0
  {
    var end := FindTerm(s, 0);
    FindTermLaw(s, 0);
    assert [] + s == s;
    if end.None? {
      DataCollects(h, m, [], s);
    } else {
      assert Termless([]);
      DataEndsAtFirstTerm(h, m, [], s, end.value);
      BytesMakeWhole(h, h.mail(m, s[..end.value]), s[end.value + 5..]);
    }
  }

  lemma {:induction false} LinesMakeWhole<M>(h: Handlers<M>, m: M, s: Bytes)
    requires !h.inData(m)
    ensures OnData(h, Reader(m, [], []), s) == Whole(h, m, s)
    decreases |s|, 0
  {
    var i := IndexOf(s, LF);
    NotBefore(s, LF);
    if i < |s| && i <= MAX_LINE {
      var line, rest := s[..i], s[i + 1..];
      assert s == line + ([LF] + rest);
      LineIsRead(h, m, line, rest);
      BytesMakeWhole(h, h.line(m, StripCR(line)), rest);
    } else if |s| > MAX_LINE {
      var line, b, rest := s[..MAX_LINE], s[MAX_LINE], s[MAX_LINE + 1..];
      assert s == line + ([b] + rest);
      assert line == s[..i][..MAX_LINE];
      assert b != LF by { assert i > MAX_LINE && s[..i][MAX_LINE] == b; }
      OverlongIsDropped(h, m, line, b, rest);
      BytesMakeWhole(h, h.tooLong(m), rest);
    } else {
      assert s[..i] == s && [] + s == s;
      LineCollects(h, m, [], s);
    }
  }

  /** Without STARTTLS the chunks of a connection are read as the stream they make up, whatever their boundaries. */
  lemma ChunksMakeWhole<M>(h: Handlers<M>, m: M, chunks: seq<Bytes>)
    requires Unbroken(h, Reader(m, [], []), Flat(chunks))
    ensures OnChunks(h, Reader(m, [], []), chunks) == Whole(h, m, Flat(chunks))
  {
    AnyChunking(h, Reader(m, [], []), chunks);
    BytesMakeWhole(h, m, Flat(chunks));
  }
}
