/**
 Input of an IMAP session (src/imap/session.cpp): lines up to LF and the literal of APPEND (section 4.3 of RFC 3501).
 The reference is a reader that takes one byte at a time; the session's on_data takes literals in bulk.
 */
module ImapLiteral {
  import opened Common

  const SPACE: Byte := 0x20
  const QUOTE: Byte := 0x22
  const MAX_LINE := 8192
  const SIZE_LIMIT := 0x1_0000_0000_0000_0000

  // ----- the arguments of APPEND

  datatype Append = Append(mailbox: Bytes, flags: Bytes, size: nat)

  function SkipSpaces(s: Bytes): Bytes { if s != [] && s[0] == SPACE then SkipSpaces(s[1..]) else s }

  /** A quoted or plain mailbox name and what follows it; None if the quote is not closed. */
  function MailboxName(s: Bytes): Option<(Bytes, Bytes)> {
    if s != [] && s[0] == QUOTE then
      var close := IndexOf(s[1..], QUOTE);
      if close == |s| - 1 then None else Some((s[1..close + 1], s[close + 2..]))
    else
      var sp := IndexOf(s, SPACE);
      Some((s[..sp], s[sp..]))
  }

  /** An optional group from `open` to `close`: what is inside and what follows. An unclosed one is left where it is. */
  function Group(s: Bytes, open: Byte, close: Byte): (Bytes, Bytes) {
    if s == [] || s[0] != open then ([], s)
    else
      var i := IndexOf(s[1..], close);
      if i == |s| - 1 then ([], s) else (s[1..i + 1], SkipSpaces(s[i + 2..]))
  }

  /** from_chars: the leading digits; None without a digit or past the range of size_t. */
  function Digits(s: Bytes, v: nat, seen: bool): Option<nat> {
    if s == [] || !(0x30 <= s[0] <= 0x39) then if seen && v < SIZE_LIMIT then Some(v) else None
    else Digits(s[1..], v * 10 + (s[0] - 0x30), true)
  }

  /** {size} or {size+}. */
  function LiteralSize(s: Bytes): Option<nat> {
    if |s| < 2 || s[0] != 0x7B || s[|s| - 1] != 0x7D then None
    else
      var inner := s[1..|s| - 1];
      Digits(if inner != [] && inner[|inner| - 1] == 0x2B then inner[..|inner| - 1] else inner, 0, false)
  }

  /** cmd_append up to the point where the literal is awaited; None if it is refused. */
  function ParseAppend(args: Bytes): Option<Append> {
    var name := MailboxName(args);
    if name.None? || name.value.0 == [] then None
    else
      var (flags, rest1) := Group(SkipSpaces(name.value.1), 0x28, 0x29);
      var (_, rest2) := Group(rest1, QUOTE, QUOTE);
      var size := LiteralSize(rest2);
      if size.None? then None else Some(Append(name.value.0, flags, size.value))
  }

  /** A number in decimal. */
  function Decimal(n: nat): Bytes { if n < 10 then [0x30 + n] else Decimal(n / 10) + [0x30 + n % 10] }

  predicate AllDigits(s: Bytes) { forall i :: 0 <= i < |s| ==> 0x30 <= s[i] <= 0x39 }

  function ValueOf(s: Bytes, v: nat): nat
    requires AllDigits(s)
  {
    if s == [] then v else ValueOf(s[1..], v * 10 + (s[0] - 0x30))
  }

  lemma {:induction false} DigitsRead(s: Bytes, v: nat, seen: bool)
    requires AllDigits(s) && (s != [] || seen)
    ensures Digits(s, v, seen) == if ValueOf(s, v) < SIZE_LIMIT then Some(ValueOf(s, v)) else None
    decreases |s|
  {
    if s != [] { DigitsRead(s[1..], v * 10 + (s[0] - 0x30), true); }
  }

  lemma {:induction false} ValueGrows(s: Bytes, d: Byte, v: nat)
    requires AllDigits(s) && 0x30 <= d <= 0x39
    ensures AllDigits(s + [d]) && ValueOf(s + [d], v) == ValueOf(s, v) * 10 + (d - 0x30)
    decreases |s|
  {
    if s == [] {
      assert s + [d] == [d];
    } else {
      assert (s + [d])[1..] == s[1..] + [d];
      ValueGrows(s[1..], d, v * 10 + (s[0] - 0x30));
    }
  }

  lemma {:induction false} DecimalBack(n: nat)
    ensures AllDigits(Decimal(n)) && Decimal(n) != [] && ValueOf(Decimal(n), 0) == n
  {
    if n >= 10 {
      DecimalBack(n / 10);
      ValueGrows(Decimal(n / 10), 0x30 + n % 10, 0);
    }
  }

  /** A size announced in braces, with or without the plus of a non-synchronising literal, is read back. */
  lemma SizeBack(n: nat, plus: bool)
    ensures LiteralSize([0x7B] + (Decimal(n) + if plus then [0x2B] else []) + [0x7D]) == if n < SIZE_LIMIT then Some(n) else None
  {
    var inner := Decimal(n) + if plus then [0x2B] else [];
    var s := [0x7B] + inner + [0x7D];
    DecimalBack(n);
    assert s[1..|s| - 1] == inner;
    if plus { assert inner[..|inner| - 1] == Decimal(n); } else { assert inner == Decimal(n); }
    DigitsRead(Decimal(n), 0, false);
  }

  lemma GroupBack(inside: Bytes, open: Byte, close: Byte, rest: Bytes)
    requires close !in inside
    ensures Group([open] + inside + [close] + rest, open, close) == (inside, SkipSpaces(rest))
  {
    var s := [open] + inside + [close] + rest;
    assert s[1..] == inside + [close] + rest;
    assert s[1..][..|inside|] == inside;
    FirstIndex(s[1..], close, |inside|);
    assert s[1..|inside| + 1] == inside && s[|inside| + 2..] == rest;
  }

  function Size(n: nat, plus: bool): Bytes { [0x7B] + (Decimal(n) + if plus then [0x2B] else []) + [0x7D] }

  /** A mailbox name in quotes or as it is. */
  function NameText(name: Bytes, quoted: bool): Bytes { if quoted then [QUOTE] + name + [QUOTE] else name }

  predicate NameOk(name: Bytes, quoted: bool) {
    name != [] && if quoted then QUOTE !in name else SPACE !in name && name[0] != QUOTE
  }

  function FlagsText(flags: Option<Bytes>): Bytes { if flags.None? then [] else [SPACE] + ([0x28] + flags.value + [0x29]) }
  function DateText(date: Option<Bytes>): Bytes { if date.None? then [] else [SPACE] + ([QUOTE] + date.value + [QUOTE]) }

  /** The arguments of an APPEND: mailbox, optional flag list, optional date-time, and the announced size. */
  function AppendText(name: Bytes, quoted: bool, flags: Option<Bytes>, date: Option<Bytes>, size: nat, plus: bool): Bytes {
    NameText(name, quoted) + (FlagsText(flags) + (DateText(date) + ([SPACE] + Size(size, plus))))
  }

  lemma SkipOne(s: Bytes)
    requires s != [] && s[0] != SPACE
    ensures SkipSpaces([SPACE] + s) == s && SkipSpaces(s) == s
  {
    assert ([SPACE] + s)[1..] == s;
  }

  /** A group behind a space. */
  lemma SpacedGroupBack(inside: Bytes, open: Byte, close: Byte, rest: Bytes)
    requires close !in inside && open != SPACE
    ensures Group(SkipSpaces([SPACE] + ([open] + inside + [close]) + rest), open, close) == (inside, SkipSpaces(rest))
  {
    var group := [open] + inside + [close] + rest;
    Assoc([SPACE], [open] + inside + [close], rest);
    assert group[0] == open;
    SkipOne(group);
    GroupBack(inside, open, close, rest);
  }

  /** No group behind a space. */
  lemma NoGroup(s: Bytes, open: Byte, close: Byte)
    requires s != [] && s[0] != SPACE && s[0] != open
    ensures Group(SkipSpaces([SPACE] + s), open, close) == ([], s)
  {
    SkipOne(s);
  }

  lemma DateBack(date: Option<Bytes>, size: Bytes)
    requires (date.Some? ==> QUOTE !in date.value) && size != [] && size[0] == 0x7B
    ensures Group(SkipSpaces(DateText(date) + ([SPACE] + size)), QUOTE, QUOTE).1 == size
  {
    if date.None? {
      assert [] + ([SPACE] + size) == [SPACE] + size;
      NoGroup(size, QUOTE, QUOTE);
    } else {
      SpacedGroupBack(date.value, QUOTE, QUOTE, [SPACE] + size);
      SkipOne(size);
    }
  }

  lemma FlagsBack(flags: Option<Bytes>, rest: Bytes)
    requires (flags.Some? ==> 0x29 !in flags.value) && rest != [] && rest[0] != SPACE && rest[0] != 0x28
    ensures Group(SkipSpaces(FlagsText(flags) + ([SPACE] + rest)), 0x28, 0x29) == (if flags.None? then [] else flags.value, rest)
  {
    if flags.None? {
      assert [] + ([SPACE] + rest) == [SPACE] + rest;
      NoGroup(rest, 0x28, 0x29);
    } else {
      SpacedGroupBack(flags.value, 0x28, 0x29, [SPACE] + rest);
      SkipOne(rest);
    }
  }

  /** cmd_append reads mailbox, flags and size back, skips a date-time, and refuses sizes that do not fit. */
  lemma ParseInvertsText(name: Bytes, quoted: bool, flags: Option<Bytes>, date: Option<Bytes>, size: nat, plus: bool)
    requires NameOk(name, quoted) && (flags.Some? ==> 0x29 !in flags.value) && (date.Some? ==> QUOTE !in date.value)
    ensures ParseAppend(AppendText(name, quoted, flags, date, size, plus)) ==
      if size < SIZE_LIMIT then Some(Append(name, if flags.None? then [] else flags.value, size)) else None
  {
    var announced := Size(size, plus);
    var tail := DateText(date) + ([SPACE] + announced);
    NameBack(name, quoted, FlagsText(flags) + tail);
    assert tail == [SPACE] + tail[1..];
    SkipOne(tail[1..]);
    FlagsBack(flags, tail[1..]);
    DateBack(date, announced);
    SizeBack(size, plus);
  }

  lemma NameBack(name: Bytes, quoted: bool, rest: Bytes)
    requires NameOk(name, quoted) && rest != [] && rest[0] == SPACE
    ensures MailboxName(NameText(name, quoted) + rest) == Some((name, rest))
  {
    var s := NameText(name, quoted) + rest;
    if quoted {
      assert s[1..] == name + [QUOTE] + rest;
      assert s[1..][..|name|] == name;
      FirstIndex(s[1..], QUOTE, |name|);
      assert s[1..|name| + 1] == name && s[|name| + 2..] == rest;
    } else {
      assert s[..|name|] == name && s[|name|..] == rest;
      FirstIndex(s, SPACE, |name|);
    }
  }

  // ----- the byte reader

  /** An announced literal: `remaining` bytes are awaited after those in `buf`. */
  datatype Literal = Literal(pending: bool, remaining: nat, buf: Bytes, append: Append)

  /**
   A session on machine states M: what a line does, the arguments of APPEND if the line reaches cmd_append, whether
   it reaches cmd_starttls, what a finished APPEND does, and what an overlong line does.
   */
  datatype Handlers<!M> = Handlers(line: (M, Bytes) -> M, appends: (M, Bytes) -> Option<Bytes>, startsTls: (M, Bytes) -> bool,
    complete: (M, Append, Bytes) -> M, tooLong: M -> M)

  /** `tls` is tls_upgrade_pending_, which only cmd_starttls sets. */
  datatype Reader<M> = Reader(m: M, line: Bytes, lit: Literal, tls: bool)

  predicate Awaiting<M>(r: Reader<M>) { r.lit.pending && r.lit.remaining > 0 }

  /** One byte of a literal; the last one completes the APPEND. */
  function LiteralByte<M>(h: Handlers<M>, r: Reader<M>, b: Byte): Reader<M>
    requires Awaiting(r)
  {
    var lit := r.lit.(buf := r.lit.buf + [b], remaining := r.lit.remaining - 1);
    if lit.remaining > 0 then r.(lit := lit)
    else Reader(h.complete(r.m, lit.append, lit.buf), r.line, lit.(pending := false), r.tls)
  }

  /** process_line: an APPEND that is accepted arms the literal. */
  function Line<M>(h: Handlers<M>, r: Reader<M>, line: Bytes): Reader<M> {
    var args := h.appends(r.m, line);
    var append := if args.Some? then ParseAppend(args.value) else None;
    Reader(h.line(r.m, line), [], if append.Some? then Literal(true, append.value.size, [], append.value) else r.lit,
           r.tls || h.startsTls(r.m, line))
  }

  function LineByte<M>(h: Handlers<M>, r: Reader<M>, b: Byte): Reader<M> {
    if b == LF then Line(h, r, StripCR(r.line))
    else if |r.line| + 1 > MAX_LINE then r.(m := h.tooLong(r.m), line := [])
    else r.(line := r.line + [b])
  }

  function ReadByte<M>(h: Handlers<M>, r: Reader<M>, b: Byte): Reader<M> {
    if Awaiting(r) then LiteralByte(h, r, b) else LineByte(h, r, b)
  }

  /** The byte ended a line with STARTTLS, after which the chunk is dropped. */
  predicate Stops<M>(h: Handlers<M>, r: Reader<M>, b: Byte) { !Awaiting(r) && b == LF && ReadByte(h, r, b).tls }

  function ReadAll<M>(h: Handlers<M>, r: Reader<M>, bytes: Bytes): Reader<M>
    decreases |bytes|
  {
    if bytes == [] then r
    else
      var r' := ReadByte(h, r, bytes[0]);
      if Stops(h, r, bytes[0]) then r'.(tls := false) else ReadAll(h, r', bytes[1..])
  }

  // ----- what the reader does

  predicate Unbroken<M>(h: Handlers<M>, r: Reader<M>, bytes: Bytes)
    decreases |bytes|
  {
    bytes == [] || (!Stops(h, r, bytes[0]) && Unbroken(h, ReadByte(h, r, bytes[0]), bytes[1..]))
  }

  /** Outside STARTTLS chunk boundaries do not matter. */
  lemma {:induction false} ChunksJoin<M>(h: Handlers<M>, r: Reader<M>, a: Bytes, b: Bytes)
    requires Unbroken(h, r, a)
    ensures ReadAll(h, r, a + b) == ReadAll(h, ReadAll(h, r, a), b)
    decreases |a|
  {
    if a == [] {
      assert a + b == b;
    } else {
      assert (a + b)[0] == a[0] && (a + b)[1..] == a[1..] + b;
      ChunksJoin(h, ReadByte(h, r, a[0]), a[1..], b);
    }
  }

  /** What has arrived of a literal and what is awaited make up the announced size. */
  predicate Accounted(lit: Literal) { lit.pending ==> |lit.buf| + lit.remaining == lit.append.size }

  lemma {:induction false} AlwaysAccounted<M>(h: Handlers<M>, r: Reader<M>, bytes: Bytes)
    requires Accounted(r.lit)
    ensures Accounted(ReadAll(h, r, bytes).lit)
    decreases |bytes|
  {
    if bytes != [] && !Stops(h, r, bytes[0]) { AlwaysAccounted(h, ReadByte(h, r, bytes[0]), bytes[1..]); }
  }

  /** The literal in bulk: bytes that do not fill it are kept. */
  lemma {:induction false} LiteralCollects<M>(h: Handlers<M>, r: Reader<M>, s: Bytes)
    requires Awaiting(r) && |s| < r.lit.remaining
    ensures ReadAll(h, r, s) == r.(lit := r.lit.(buf := r.lit.buf + s, remaining := r.lit.remaining - |s|))
    decreases |s|
  {
    if s == [] {
      assert r.lit.buf + s == r.lit.buf;
    } else {
      LiteralCollects(h, ReadByte(h, r, s[0]), s[1..]);
      assert r.lit.buf + [s[0]] + s[1..] == r.lit.buf + s;
    }
  }

  function Completed<M>(h: Handlers<M>, r: Reader<M>, last: Bytes): Reader<M> {
    var buf := r.lit.buf + last;
    Reader(h.complete(r.m, r.lit.append, buf), r.line, r.lit.(buf := buf, remaining := 0, pending := false), r.tls)
  }

  /** APPEND completes exactly when the awaited bytes have arrived, with them and no others; what follows is read as lines again. */
  lemma {:induction false} LiteralCompletes<M>(h: Handlers<M>, r: Reader<M>, s: Bytes)
    requires Awaiting(r) && |s| >= r.lit.remaining
    ensures var n := r.lit.remaining; ReadAll(h, r, s) == ReadAll(h, Completed(h, r, s[..n]), s[n..])
    decreases |s|
  {
    var n := r.lit.remaining;
    var r' := ReadByte(h, r, s[0]);
    if n == 1 {
      assert s[..1] == [s[0]];
    } else {
      LiteralCompletes(h, r', s[1..]);
      assert s[1..][..n - 1] == s[1..n] && s[1..][n - 1..] == s[n..];
      assert r.lit.buf + [s[0]] + s[1..n] == r.lit.buf + s[..n];
    }
  }

  /** Readers that differ only in a literal from which nothing is awaited. */
  ghost predicate Alike<M>(a: Reader<M>, b: Reader<M>) { a.m == b.m && a.line == b.line && a.tls == b.tls && (a.lit == b.lit || (!Awaiting(a) && !Awaiting(b))) }

  /** An announced size of zero is never completed: the session goes on as if the APPEND had not armed anything. */
  lemma {:induction false} EmptyLiteralIsIgnored<M>(h: Handlers<M>, a: Reader<M>, b: Reader<M>, s: Bytes)
    requires Alike(a, b)
    ensures Alike(ReadAll(h, a, s), ReadAll(h, b, s))
    decreases |s|
  {
    if s != [] && !Stops(h, a, s[0]) { EmptyLiteralIsIgnored(h, ReadByte(h, a, s[0]), ReadByte(h, b, s[0]), s[1..]); }
  }

  /** No chunk leaves the TLS flag set. */
  lemma {:induction false} FlagCleared<M>(h: Handlers<M>, r: Reader<M>, bytes: Bytes)
    requires !r.tls
    ensures !ReadAll(h, r, bytes).tls
    decreases |bytes|
  {
    if bytes != [] && !Stops(h, r, bytes[0]) { FlagCleared(h, ReadByte(h, r, bytes[0]), bytes[1..]); }
  }

  // ----- the session

  class Session<!M> {
    const h: Handlers<M>
    var m: M
    var lineBuf: Bytes
    var literalPending: bool
    var literalRemaining: nat
    var literalBuf: Bytes
    var append: Append
    var tlsUpgradePending: bool

    ghost function Abs(): Reader<M> reads this {
      Reader(m, lineBuf, Literal(literalPending, literalRemaining, literalBuf, append), tlsUpgradePending)
    }

    constructor (h: Handlers<M>, m: M)
      ensures this.h == h && Abs() == Reader(m, [], Literal(false, 0, [], Append([], [], 0)), false)
    {
      this.h, this.m := h, m;
      lineBuf, literalPending, literalRemaining, literalBuf, append, tlsUpgradePending := [], false, 0, [], Append([], [], 0), false;
    }

    /** Moves what has arrived of a literal in one piece, and completes the APPEND with its last byte. */
    method Drain(bytes: Bytes) returns (take: nat)
      requires Awaiting(Abs())
      modifies this
      ensures take <= |bytes| && (take < |bytes| ==> !Awaiting(Abs()))
      ensures ReadAll(h, old(Abs()), bytes) == ReadAll(h, Abs(), bytes[take..])
    {
      take := if |bytes| <= literalRemaining then |bytes| else literalRemaining;
      if take < literalRemaining { LiteralCollects(h, Abs(), bytes); } else { LiteralCompletes(h, Abs(), bytes); }
      literalBuf := literalBuf + bytes[..take];
      literalRemaining := literalRemaining - take;
      if literalRemaining == 0 {
        literalPending := false;
        m := h.complete(m, append, literalBuf);
      }
    }

    method ProcessLine(line: Bytes)
      modifies this
      ensures Abs() == Line(h, old(Abs()), line)
    {
      var args := h.appends(m, line);
      if h.startsTls(m, line) { tlsUpgradePending := true; }
      m, lineBuf := h.line(m, line), [];
      if args.Some? {
        var parsed := ParseAppend(args.value);
        if parsed.Some? { append, literalBuf, literalRemaining, literalPending := parsed.value, [], parsed.value.size, true; }
      }
    }

    /** on_data. */
    method OnData(bytes: Bytes)
      modifies this
      ensures Abs() == ReadAll(h, old(Abs()), bytes)
    {
      var i, stopped := 0, false;
      ghost var whole := ReadAll(h, Abs(), bytes);
      if literalPending && literalRemaining > 0 { i := Drain(bytes); }
      assert i == 0 ==> bytes[0..] == bytes;
      while i < |bytes| && !stopped
        invariant 0 <= i <= |bytes| && (i < |bytes| && !stopped ==> !Awaiting(Abs()))
        invariant whole == if stopped then Abs() else ReadAll(h, Abs(), bytes[i..])
        decreases |bytes| - i
      {
        stopped, i := Next(bytes, i, whole);
      }
    }

    /** One round of the loop: a byte of a line, and after a line the literal bytes that came with it. */
    method Next(bytes: Bytes, i: nat, ghost whole: Reader<M>) returns (stopped: bool, next: nat)
      requires i < |bytes| && !Awaiting(Abs()) && whole == ReadAll(h, Abs(), bytes[i..])
      modifies this
      ensures i < next <= |bytes| && (next < |bytes| && !stopped ==> !Awaiting(Abs()))
      ensures whole == if stopped then Abs() else ReadAll(h, Abs(), bytes[next..])
    {
      assert bytes[i..][0] == bytes[i] && bytes[i..][1..] == bytes[i + 1..];
      stopped, next := false, i + 1;
      if bytes[i] == LF {
        ProcessLine(StripCR(lineBuf));
        if tlsUpgradePending {
          tlsUpgradePending, stopped := false, true;
        } else if literalPending && literalRemaining > 0 {
          var take := Drain(bytes[i + 1..]);
          assert bytes[i + 1..][take..] == bytes[i + 1 + take..];
          next := i + 1 + take;
        }
      } else {
        lineBuf := lineBuf + [bytes[i]];
        if |lineBuf| > MAX_LINE { m, lineBuf := h.tooLong(m), []; }
      }
    }
  }
}
