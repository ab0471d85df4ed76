/**
 Strings of the TOML parser (src/utils/config/tomlc17.c): the UTF-8 codec and the in-place unescaping of parse_norm.
 Bit fields that do not overlap are joined by | in the source and by + here.
 */
module TomlString {
  import opened Common

  const MAX_CODE := 0x1FFFFF

  // ----- UTF-8

  /** code >> 6 * k. */
  function Shift(code: nat, k: nat): nat {
    if k == 0 then code else Shift(code, k - 1) / 64
  }

  /** The continuation bytes 10xxxxxx for the low 6 * k bits of a code. */
  function Tail(code: nat, k: nat): (r: Bytes)
    ensures |r| == k
  {
    if k == 0 then [] else [0x80 + Shift(code, k - 1) % 64] + Tail(code, k - 1)
  }

  /** The shortest encoding of a code. */
  function Width(code: nat): nat {
    if code <= 0x7F then 1 else if code <= 0x7FF then 2 else if code <= 0xFFFF then 3 else 4
  }

  /** The fixed high bits of a leading byte before k continuation bytes, and the bits it has room for. */
  function Mark(k: nat): nat { if k == 0 then 0 else if k == 1 then 0xC0 else if k == 2 then 0xE0 else 0xF0 }
  function Room(k: nat): nat { if k == 0 then 128 else if k == 1 then 32 else if k == 2 then 16 else 8 }

  lemma ShiftFits(code: nat)
    requires code <= MAX_CODE
    ensures Shift(code, Width(code) - 1) < Room(Width(code) - 1)
  {
    assert Shift(code, 1) == code / 64;
    assert Shift(code, 2) == Shift(code, 1) / 64;
    assert Shift(code, 3) == Shift(code, 2) / 64;
  }

  /** ucs_to_utf8. */
  function Encode(code: nat): (r: Option<Bytes>)
    ensures r.Some? <==> code <= MAX_CODE
    ensures r.Some? ==> |r.value| == Width(code)
  {
    if code > MAX_CODE then None
    else
      var k := Width(code) - 1;
      ShiftFits(code);
      Some([Mark(k) + Shift(code, k)] + Tail(code, k))
  }

  /** k continuation bytes at index i, shifted into v. */
  function Continue(s: Bytes, i: nat, k: nat, v: nat): Option<nat>
    requires i + k <= |s|
    decreases k
  {
    if k == 0 then Some(v)
    else if s[i] / 64 != 2 then None
    else Continue(s, i + 1, k - 1, v * 64 + s[i] % 64)
  }

  /** How many continuation bytes a leading byte announces and the bits it carries; None if it is no leading byte. */
  function Lead(b: Byte): Option<(nat, nat)> {
    if b / 128 == 0 then Some((0, b))
    else if b / 32 == 0x6 then Some((1, b % 32))
    else if b / 16 == 0xE then Some((2, b % 16))
    else if b / 8 == 0x1E then Some((3, b % 8))
    else None
  }

  /** utf8_to_ucs: the code at the front of s and the number of bytes it takes. */
  function Decode(s: Bytes): Option<(nat, nat)> {
    if s == [] then None
    else
      var lead := Lead(s[0]);
      if lead.None? || |s| < 1 + lead.value.0 then None
      else
        var v := Continue(s, 1, lead.value.0, lead.value.1);
        if v.None? then None else Some((v.value, 1 + lead.value.0))
  }

  /** The loops of utf8_to_ucs over continuation bytes. */
  method Utf8ToUcs(s: Bytes) returns (r: Option<(nat, nat)>)
    ensures r == Decode(s)
  {
    if s == [] || Lead(s[0]).None? { return None; }
    var k: nat, v: nat := Lead(s[0]).value.0, Lead(s[0]).value.1;
    if |s| < 1 + k { return None; }
    var j := 0;
    while j < k
      invariant 0 <= j <= k
      invariant Continue(s, 1 + j, k - j, v) == Continue(s, 1, k, Lead(s[0]).value.1)
    {
      if s[1 + j] / 64 != 2 { return None; }
      v := v * 64 + s[1 + j] % 64;
      j := j + 1;
    }
    return Some((v, 1 + k));
  }

  /** A leading byte is recognised by its mark and gives back the bits it carries. */
  lemma LeadBack(k: nat, v: nat)
    requires k <= 3 && v < Room(k)
    ensures Lead(Mark(k) + v) == Some((k, v))
  {
  }

  lemma LeadBits(b: Byte)
    requires Lead(b).Some?
    ensures var (k, v) := Lead(b).value; k <= 3 && v < Room(k) && b == Mark(k) + v
  {
  }

  lemma {:induction false} ContinueTail(s: Bytes, i: nat, k: nat, code: nat)
    requires i + k <= |s| && s[i..i + k] == Tail(code, k)
    ensures Continue(s, i, k, Shift(code, k)) == Some(code)
    decreases k
  {
    if k > 0 {
      assert s[i] == s[i..i + k][0] && s[i + 1..i + k] == s[i..i + k][1..];
      ContinueTail(s, i + 1, k - 1, code);
    }
  }

  lemma {:induction false} ContinueBack(s: Bytes, i: nat, k: nat, v: nat)
    requires i + k <= |s| && Continue(s, i, k, v).Some?
    ensures var code := Continue(s, i, k, v).value; Shift(code, k) == v && Tail(code, k) == s[i..i + k]
    decreases k
  {
    if k > 0 {
      var r := s[i] % 64;
      ContinueBack(s, i + 1, k - 1, v * 64 + r);
      assert (v * 64 + r) / 64 == v && (v * 64 + r) % 64 == r;
      assert s[i..i + k] == [s[i]] + s[i + 1..i + k];
    }
  }

  /** Decoding inverts encoding for every code up to 0x1FFFFF, whatever follows. */
  lemma DecodeInvertsEncode(code: nat, rest: Bytes)
    requires code <= MAX_CODE
    ensures Decode(Encode(code).value + rest) == Some((code, Width(code)))
  {
    var k := Width(code) - 1;
    var s := Encode(code).value + rest;
    ShiftFits(code);
    LeadBack(k, Shift(code, k));
    assert s[0] == Mark(k) + Shift(code, k) && s[1..1 + k] == Tail(code, k);
    ContinueTail(s, 1, k, code);
  }

  /** The other way round holds exactly for shortest forms: the decoder accepts overlong ones. */
  lemma EncodeInvertsShortest(s: Bytes)
    requires Decode(s).Some?
    ensures var (code, n) := Decode(s).value; code <= MAX_CODE && (Encode(code) == Some(s[..n]) <==> n == Width(code))
  {
    var (k, v) := Lead(s[0]).value;
    var (code, n) := Decode(s).value;
    LeadBits(s[0]);
    ContinueBack(s, 1, k, v);
    ShiftBounds(code, k);
    assert s[..n] == [s[0]] + s[1..n];
  }

  /** An overlong form: the two bytes C1 81 are read as the letter A. */
  lemma OverlongIsRead()
    ensures Decode([0xC1, 0x81]) == Some((0x41, 2)) && Encode(0x41) == Some([0x41])
  {
    var s: Bytes := [0xC1, 0x81];
    assert Continue(s, 2, 0, 0x41) == Some(0x41);
    assert Continue(s, 1, 1, 1) == Continue(s, 2, 0, 0x41);
    assert Shift(0x41, 0) == 0x41 && Tail(0x41, 0) == [] && [0x41] + Tail(0x41, 0) == [0x41];
  }

  lemma ShiftBounds(code: nat, k: nat)
    requires k <= 3 && Shift(code, k) < Room(k)
    ensures code <= MAX_CODE
  {
    assert k >= 1 ==> Shift(code, 1) == code / 64;
    assert k >= 2 ==> Shift(code, 2) == Shift(code, 1) / 64;
    assert k >= 3 ==> Shift(code, 3) == Shift(code, 2) / 64;
  }

  // ----- escapes

  const BACKSLASH := 0x5C
  const QUOTE := 0x22

  function HexDigit(b: Byte): Option<nat> {
    if 0x30 <= b <= 0x39 then Some(b - 0x30)
    else if 0x41 <= b <= 0x46 then Some(b - 0x41 + 10)
    else if 0x61 <= b <= 0x66 then Some(b - 0x61 + 10)
    else None
  }

  /** strtol with base 16 over exactly the given digits; None if one is missing, which the scanner has ruled out. */
  function Hex(s: Bytes, n: nat, v: nat): Option<nat>
    decreases n
  {
    if n == 0 then Some(v)
    else if s == [] || HexDigit(s[0]).None? then None
    else Hex(s[1..], n - 1, v * 16 + HexDigit(s[0]).value)
  }

  /** strspn over blanks, and over blanks and newlines. */
  function Span(s: Bytes, newlines: bool): (n: nat)
    ensures n <= |s|
  {
    if s != [] && (s[0] in [0x20, 0x09, 0x0D] || (newlines && s[0] == 0x0A)) then 1 + Span(s[1..], newlines) else 0
  }

  function Unicode(s: Bytes, digits: nat): Option<(Bytes, nat)>
    requires |s| >= 2
  {
    var code := Hex(s[2..], digits, 0);
    if code.None? || (digits > 2 && 0xD800 <= code.value <= 0xDFFF) || Encode(code.value).None? then None
    else Some((Encode(code.value).value, 2 + digits))
  }

  /** One escape at the front of s: the bytes it stands for and the bytes it takes. */
  function Escape(s: Bytes): Option<(Bytes, nat)>
    requires |s| >= 2
  {
    var c := s[1];
    if c == QUOTE || c == BACKSLASH then Some(([c], 2))
    else if c == 0x62 then Some(([0x08], 2))
    else if c == 0x74 then Some(([0x09], 2))
    else if c == 0x6E then Some(([0x0A], 2))
    else if c == 0x66 then Some(([0x0C], 2))
    else if c == 0x72 then Some(([0x0D], 2))
    else if c == 0x65 then Some(([0x1B], 2))
    else if c == 0x78 then Unicode(s, 2)
    else if c == 0x75 then Unicode(s, 4)
    else if c == 0x55 then Unicode(s, 8)
    else if c == 0x0A then Some(([], 1 + Span(s[1..], true)))
    else if c == 0x20 || c == 0x09 || c == 0x0D then
      var n := 1 + Span(s[1..], false);
      if n < |s| && s[n] == 0x0A then Some(([], n + 1 + Span(s[n + 1..], true))) else None
    else None
  }

  lemma {:induction false} HexDigitsPresent(s: Bytes, n: nat, v: nat)
    requires Hex(s, n, v).Some?
    ensures n <= |s|
    decreases n
  {
    if n > 0 { HexDigitsPresent(s[1..], n - 1, v * 16 + HexDigit(s[0]).value); }
  }

  /** One character or escape at the front of s: the bytes it stands for and the bytes it takes. */
  function One(s: Bytes): Option<(Bytes, nat)> {
    if s == [] then None
    else if s[0] != BACKSLASH then Some(([s[0]], 1))
    else if |s| < 2 then None
    else Escape(s)
  }

  /** No escape yields more bytes than it takes, so the write cursor cannot pass the read cursor and nothing else is refused. */
  lemma OneShrinks(s: Bytes)
    requires One(s).Some?
    ensures Shrinks(One(s), s)
  {
    if s[0] == BACKSLASH {
      var c := s[1];
      if c == 0x78 { UnicodeShrinks(s, 2); }
      if c == 0x75 { UnicodeShrinks(s, 4); }
      if c == 0x55 { UnicodeShrinks(s, 8); }
    }
  }

  lemma UnicodeShrinks(s: Bytes, digits: nat)
    requires |s| >= 2 && digits in {2, 4, 8} && Unicode(s, digits).Some?
    ensures var (bytes, n) := Unicode(s, digits).value; |bytes| <= n && 2 <= n <= |s|
  {
    HexDigitsPresent(s[2..], digits, 0);
  }

  // ----- translating in place

  /** A reader of one item at the front of a text: the bytes it stands for and the bytes it takes. */
  type Reader = Bytes -> Option<(Bytes, nat)>

  /** An item that was read and does not yield more bytes than it takes. */
  predicate Shrinks(item: Option<(Bytes, nat)>, s: Bytes) {
    item.Some? && |item.value.0| <= item.value.1 && 1 <= item.value.1 <= |s|
  }

  function Prepend(xs: Bytes, r: Option<Bytes>): Option<Bytes> { if r.None? then None else Some(xs + r.value) }

  /** No item that is read yields more bytes than it takes: what makes translating in place safe. */
  ghost predicate Shrinking(read: Reader) { forall s: Bytes :: read(s).Some? ==> Shrinks(read(s), s) }

  /** The text read item by item, up to a NUL. */
  function ReadAll(read: Reader, s: Bytes): Option<Bytes>
    requires Shrinking(read)
    decreases |s|
  {
    if s == [] || s[0] == 0 then Some([])
    else if read(s).None? then None
    else Prepend(read(s).value.0, ReadAll(read, s[read(s).value.1..]))
  }

  /** One item in front of a text that is read to the end. */
  lemma ReadStep(read: Reader, item: Bytes, out: Bytes, rest: Bytes)
    requires Shrinking(read) && item != [] && item[0] != 0 && read(item + rest) == Some((out, |item|))
    ensures ReadAll(read, item + rest) == Prepend(out, ReadAll(read, rest))
  {
    assert (item + rest)[|item|..] == rest;
  }

  lemma OneIsShrinking()
    ensures Shrinking(One)
  {
    forall s: Bytes | One(s).Some? ensures Shrinks(One(s), s) { OneShrinks(s); }
  }

  /** The meaning of a basic string's text. */
  function Unescape(s: Bytes): Option<Bytes> {
    OneIsShrinking();
    ReadAll(One, s)
  }

  /** From p on the buffer still holds the token and its NUL. */
  ghost predicate Unread(buf: array<Byte>, tok: Bytes, p: nat)
    reads buf
  {
    buf.Length == |tok| + 1 && forall i :: p <= i <= |tok| ==> buf[i] == if i < |tok| then tok[i] else 0
  }

  /**
   The loop of parse_norm: reading at p and writing at dst in the same buffer, which is safe because dst never
   passes p.
   */
  method TranslateInPlace(read: Reader, buf: array<Byte>, tok: Bytes, start: nat) returns (ok: bool, dst: nat)
    requires Shrinking(read) && start <= |tok| && Unread(buf, tok, start)
    modifies buf
    ensures start <= dst <= |tok| && ok == ReadAll(read, tok[start..]).Some?
    ensures ok ==> buf[..dst] == old(buf[..start]) + ReadAll(read, tok[start..]).value
  {
    var p := start;
    ok, dst := true, start;
    ghost var done: Bytes, bytes: Bytes := [], [];
    ghost var whole := ReadAll(read, tok[start..]);
    PrependNothing(whole);
    while ok && buf[p] != 0
      invariant start <= dst <= p <= |tok| && Unread(buf, tok, p)
      invariant buf[..dst] == old(buf[..start]) + done
      invariant Progress(read, tok, p, ok, done, whole)
      decreases ok, |tok| - p
    {
      ok, p, dst, bytes := TranslateOne(read, buf, tok, p, dst, done, whole);
      done := done + bytes;
    }
    if ok { ProgressDone(read, tok, p, done, whole); }
  }

  lemma ProgressDone(read: Reader, tok: Bytes, p: nat, done: Bytes, whole: Option<Bytes>)
    requires Shrinking(read) && p <= |tok| && (p < |tok| ==> tok[p] == 0) && Progress(read, tok, p, true, done, whole)
    ensures whole == Some(done)
  {
    assert done + [] == done;
  }

  /** What has been translated and what is left make the whole. */
  ghost predicate Progress(read: Reader, tok: Bytes, p: nat, ok: bool, done: Bytes, whole: Option<Bytes>)
    requires Shrinking(read) && p <= |tok|
  {
    if ok then whole == Prepend(done, ReadAll(read, tok[p..])) else whole.None?
  }

  method TranslateOne(read: Reader, buf: array<Byte>, tok: Bytes, p: nat, dst: nat, ghost done: Bytes, ghost whole: Option<Bytes>)
    returns (ok: bool, p': nat, dst': nat, ghost bytes: Bytes)
    requires Shrinking(read) && dst <= p < |tok| && Unread(buf, tok, p) && tok[p] != 0 && Progress(read, tok, p, true, done, whole)
    modifies buf
    ensures dst' == dst + |bytes| && dst' <= p' <= |tok| && (ok ==> p < p')
    ensures buf.Length == |tok| + 1 && buf[..dst'] == old(buf[..dst]) + bytes && Unread(buf, tok, p')
    ensures Progress(read, tok, p', ok, done + bytes, whole)
  {
    var s := buf[p..|tok|];
    assert s == tok[p..];
    var item := read(s);
    ok, p', dst', bytes := item.Some?, p, dst, [];
    if ok {
      var (out, n) := item.value;
      PrependTwice(done, out, ReadAll(read, s[n..]));
      assert s[n..] == tok[p + n..];
      Store(buf, dst, out, p + n);
      bytes := out;
      p', dst' := p + n, dst + |out|;
    }
  }

  lemma PrependNothing(r: Option<Bytes>)
    ensures Prepend([], r) == r
  {
    if r.Some? { assert [] + r.value == r.value; }
  }

  lemma PrependTwice(a: Bytes, b: Bytes, r: Option<Bytes>)
    ensures Prepend(a, Prepend(b, r)) == Prepend(a + b, r)
  {
    if r.Some? { assert a + (b + r.value) == a + b + r.value; }
  }

  /** Bytes written at the write cursor, which leave everything from the next read position on as it was. */
  method Store(buf: array<Byte>, dst: nat, bytes: Bytes, next: nat)
    requires dst + |bytes| <= next <= buf.Length
    modifies buf
    ensures buf[..dst + |bytes|] == old(buf[..dst]) + bytes
    ensures forall i :: next <= i < buf.Length ==> buf[i] == old(buf[i])
  {
    var k := 0;
    while k < |bytes|
      invariant 0 <= k <= |bytes|
      invariant buf[..dst + k] == old(buf[..dst]) + bytes[..k]
      invariant forall i :: next <= i < buf.Length ==> buf[i] == old(buf[i])
    {
      buf[dst + k] := bytes[k];
      k := k + 1;
    }
  }

  /** parse_norm: a literal or a token without an escape is taken as it is, and the rest from the first escape on is unescaped. */
  function Normalised(tok: Bytes, literal: bool, escp: Option<nat>): Option<Bytes>
    requires escp.Some? ==> escp.value < |tok|
  {
    if literal || escp.None? then Some(tok) else Prepend(tok[..escp.value], Unescape(tok[escp.value..]))
  }

  /** The token is copied into a buffer with a terminating NUL and unescaped there, where the write cursor never passes the read cursor. */
  method ParseNorm(tok: Bytes, literal: bool, escp: Option<nat>) returns (out: Option<Bytes>)
    requires escp.Some? ==> escp.value < |tok|
    ensures out == Normalised(tok, literal, escp)
    ensures out.Some? ==> |out.value| <= |tok|
  {
    if literal || escp.None? { return Some(tok); }
    out := UnescapeFrom(tok, escp.value);
  }

  method UnescapeFrom(tok: Bytes, start: nat) returns (out: Option<Bytes>)
    requires start < |tok|
    ensures out == Prepend(tok[..start], Unescape(tok[start..]))
    ensures out.Some? ==> |out.value| <= |tok|
  {
    var buf := new Byte[|tok| + 1](i requires 0 <= i => if i < |tok| then tok[i] else 0);
    assert buf[..start] == tok[..start];
    OneIsShrinking();
    var ok, dst := TranslateInPlace(One, buf, tok, start);
    if ok {
      buf[dst] := 0;
      out := Some(buf[..dst]);
    } else {
      out := None;
    }
  }

  /** Bytes other than backslash and NUL stand for themselves. */
  lemma {:induction false} PlainBytes(a: Bytes, b: Bytes)
    requires forall i :: 0 <= i < |a| ==> a[i] != BACKSLASH && a[i] != 0
    ensures Unescape(a + b) == Prepend(a, Unescape(b))
    decreases |a|
  {
    if a == [] {
      assert a + b == b;
      PrependNothing(Unescape(b));
    } else {
      var first, rest := [a[0]], a[1..];
      PlainBytes(rest, b);
      PlainByte(a[0], rest + b);
      Assoc(first, rest, b);
      PrependTwice(first, rest, Unescape(b));
      assert a == first + rest;
    }
  }

  lemma PlainByte(c: Byte, rest: Bytes)
    requires c != BACKSLASH && c != 0
    ensures Unescape([c] + rest) == Prepend([c], Unescape(rest))
  {
    OneIsShrinking();
    ReadStep(One, [c], [c], rest);
  }

  /** Where the first escape stands, if there is one. */
  function FirstEscape(tok: Bytes): Option<nat> {
    var i := IndexOf(tok, BACKSLASH);
    if i < |tok| then Some(i) else None
  }

  /** Of a token without NUL parse_norm makes what the whole of it means. */
  lemma NormalisedIsUnescaped(tok: Bytes)
    requires 0 !in tok
    ensures Normalised(tok, false, FirstEscape(tok)) == Unescape(tok)
  {
    var i := IndexOf(tok, BACKSLASH);
    NotBefore(tok, BACKSLASH);
    assert tok == tok[..i] + tok[i..];
    forall k | 0 <= k < i ensures tok[..i][k] != BACKSLASH && tok[..i][k] != 0 { assert tok[..i][k] in tok[..i] && tok[k] in tok; }
    PlainBytes(tok[..i], tok[i..]);
    if i == |tok| { assert tok[i..] == [] && tok[..i] == tok && tok + [] == tok; }
  }

  // ----- escaping, and what unescaping undoes

  /** v >> 4 * k. */
  function Shr4(v: nat, k: nat): nat { if k == 0 then v else Shr4(v, k - 1) / 16 }

  /** The low n hexadecimal digits of v. */
  function HexText(v: nat, n: nat): (r: Bytes)
    ensures |r| == n
  {
    if n == 0 then []
    else
      var d := Shr4(v, n - 1) % 16;
      [if d < 10 then 0x30 + d else 0x41 + d - 10] + HexText(v, n - 1)
  }

  lemma {:induction false} HexBack(v: nat, n: nat, rest: Bytes)
    ensures Hex(HexText(v, n) + rest, n, Shr4(v, n)) == Some(v)
    decreases n
  {
    if n > 0 {
      var s := HexText(v, n) + rest;
      assert s[0] == HexText(v, n)[0] && s[1..] == HexText(v, n - 1) + rest;
      HexBack(v, n - 1, rest);
    }
  }

  /** The letter that stands for a byte behind a backslash, if it has one. */
  function Letter(b: Byte): Option<Byte> {
    if b == QUOTE || b == BACKSLASH then Some(b)
    else if b == 0x08 then Some(0x62)
    else if b == 0x09 then Some(0x74)
    else if b == 0x0A then Some(0x6E)
    else if b == 0x0C then Some(0x66)
    else if b == 0x0D then Some(0x72)
    else if b == 0x1B then Some(0x65)
    else None
  }

  predicate Control(b: Byte) { b < 0x20 || b == 0x7F }

  /** A byte as a basic string spells it: by its letter, in hexadecimal, or as it is. */
  function QuoteOne(b: Byte): Bytes {
    if Letter(b).Some? then [BACKSLASH, Letter(b).value]
    else if Control(b) then [BACKSLASH, 0x78] + HexText(b, 2)
    else [b]
  }

  function Quote(s: Bytes): Bytes {
    if s == [] then [] else QuoteOne(s[0]) + Quote(s[1..])
  }

  /** A unicode escape of two, four or eight digits stands for the UTF-8 form of its code. */
  lemma EscapeBack(letter: Byte, digits: nat, code: nat, rest: Bytes)
    requires (letter == 0x78 && digits == 2) || (letter == 0x75 && digits == 4) || (letter == 0x55 && digits == 8)
    requires Shr4(code, digits) == 0
    ensures One([BACKSLASH, letter] + HexText(code, digits) + rest) ==
      if code > MAX_CODE || (digits > 2 && 0xD800 <= code <= 0xDFFF) then None else Some((Encode(code).value, 2 + digits))
  {
    var s := [BACKSLASH, letter] + HexText(code, digits) + rest;
    assert s[2..] == HexText(code, digits) + rest;
    HexBack(code, digits, rest);
    assert One(s) == Unicode(s, digits);
  }

  lemma LetterBack(b: Byte, rest: Bytes)
    requires Letter(b).Some?
    ensures One([BACKSLASH, Letter(b).value] + rest) == Some(([b], 2))
  {
  }

  lemma OneQuoted(b: Byte, rest: Bytes)
    ensures One(QuoteOne(b) + rest) == Some(([b], |QuoteOne(b)|)) && QuoteOne(b)[0] != 0
  {
    if Letter(b).Some? {
      LetterBack(b, rest);
    } else if Control(b) {
      assert Shr4(b, 1) == b / 16 && Shr4(b, 2) == Shr4(b, 1) / 16;
      EscapeBack(0x78, 2, b, rest);
      assert Encode(b).value == [b];
    }
  }

  /** Unescaping undoes quoting, for every text. */
  lemma {:induction false} UnescapeInvertsQuote(s: Bytes)
    ensures Unescape(Quote(s)) == Some(s)
  {
    if s != [] {
      UnescapeInvertsQuote(s[1..]);
      OneQuoted(s[0], Quote(s[1..]));
      OneIsShrinking();
      ReadStep(One, QuoteOne(s[0]), [s[0]], Quote(s[1..]));
      assert s == [s[0]] + s[1..];
    }
  }

  /** A string that is one unicode escape means the code's UTF-8 form, which decodes to that code; surrogates and larger codes are refused. */
  lemma UnicodeEscape(letter: Byte, digits: nat, code: nat)
    requires (letter == 0x75 && digits == 4) || (letter == 0x55 && digits == 8)
    requires Shr4(code, digits) == 0
    ensures var r := Unescape([BACKSLASH, letter] + HexText(code, digits));
      if code > MAX_CODE || 0xD800 <= code <= 0xDFFF then r == None
      else r == Encode(code) && Decode(r.value) == Some((code, Width(code)))
  {
    var s := [BACKSLASH, letter] + HexText(code, digits);
    assert s + [] == s;
    EscapeBack(letter, digits, code, []);
    SingleItem(s);
    if code <= MAX_CODE {
      DecodeInvertsEncode(code, []);
      assert Encode(code).value + [] == Encode(code).value;
    }
  }

  predicate Skipped(b: Byte, newlines: bool) { b == 0x20 || b == 0x09 || b == 0x0D || (newlines && b == 0x0A) }

  lemma {:induction false} SpanIs(s: Bytes, newlines: bool, n: nat)
    requires n <= |s| && (forall i :: 0 <= i < n ==> Skipped(s[i], newlines)) && (n < |s| ==> !Skipped(s[n], newlines))
    ensures Span(s, newlines) == n
    decreases n
  {
    if n > 0 { SpanIs(s[1..], newlines, n - 1); }
  }

  /** A backslash at the end of a line, blanks allowed behind it, vanishes with the line end and all white space up to the next character. */
  lemma ContinuationVanishes(blanks: Bytes, white: Bytes, rest: Bytes)
    requires (forall i :: 0 <= i < |blanks| ==> Skipped(blanks[i], false)) && (forall i :: 0 <= i < |white| ==> Skipped(white[i], true))
    requires rest == [] || !Skipped(rest[0], true)
    ensures One([BACKSLASH] + blanks + [0x0A] + white + rest) == Some(([], 2 + |blanks| + |white|))
  {
    if blanks == [] {
      assert [BACKSLASH] + blanks + [0x0A] + white + rest == [BACKSLASH] + ([0x0A] + white + rest);
      LineEndAtOnce(white, rest);
    } else {
      assert [BACKSLASH] + blanks + [0x0A] + white + rest == [BACKSLASH] + (blanks + ([0x0A] + (white + rest)));
      LineEndLater(blanks, white, rest);
    }
  }

  lemma LineEndAtOnce(white: Bytes, rest: Bytes)
    requires (forall i :: 0 <= i < |white| ==> Skipped(white[i], true)) && (rest == [] || !Skipped(rest[0], true))
    ensures One([BACKSLASH] + ([0x0A] + white + rest)) == Some(([], 2 + |white|))
  {
    var s := [BACKSLASH] + ([0x0A] + white + rest);
    assert s[1..] == [0x0A] + white + rest;
    SpanIs(s[1..], true, 1 + |white|);
    ContinuedAtOnce(s);
  }

  lemma LineEndLater(blanks: Bytes, white: Bytes, rest: Bytes)
    requires blanks != [] && (forall i :: 0 <= i < |blanks| ==> Skipped(blanks[i], false))
    requires (forall i :: 0 <= i < |white| ==> Skipped(white[i], true)) && (rest == [] || !Skipped(rest[0], true))
    ensures One([BACKSLASH] + (blanks + ([0x0A] + (white + rest)))) == Some(([], 2 + |blanks| + |white|))
  {
    var tail := blanks + ([0x0A] + (white + rest));
    var s, n := [BACKSLASH] + tail, |blanks|;
    assert s[1..] == tail && s[1] == blanks[0];
    SpanIs(tail, false, n);
    assert s[n + 1] == 0x0A && s[n + 2..] == white + rest;
    SpanIs(white + rest, true, |white|);
    ContinuedLater(s, n);
  }

  lemma ContinuedAtOnce(s: Bytes)
    requires |s| >= 2 && s[0] == BACKSLASH && s[1] == 0x0A
    ensures One(s) == Some(([], 1 + Span(s[1..], true)))
  {
  }

  lemma ContinuedLater(s: Bytes, n: nat)
    requires |s| >= n + 2 && s[0] == BACKSLASH && Skipped(s[1], false) && Span(s[1..], false) == n && s[n + 1] == 0x0A
    ensures One(s) == Some(([], n + 2 + Span(s[n + 2..], true)))
  {
  }

  /** A text that is one item means what the item means. */
  lemma SingleItem(s: Bytes)
    requires s != [] && s[0] != 0 && (One(s).Some? ==> One(s).value.1 == |s|)
    ensures Unescape(s) == if One(s).None? then None else Some(One(s).value.0)
  {
    OneIsShrinking();
    OnlyItem(One, s, One(s));
  }

  lemma OnlyItem(read: Reader, s: Bytes, item: Option<(Bytes, nat)>)
    requires Shrinking(read) && s != [] && s[0] != 0 && read(s) == item && (item.Some? ==> item.value.1 == |s|)
    ensures ReadAll(read, s) == if item.None? then None else Some(item.value.0)
  {
    if item.Some? {
      var out := item.value.0;
      assert s + [] == s && out + [] == out;
      ReadStep(read, s, out, []);
    }
  }
}
