/** Command lines and addresses as both SMTP sessions read them (src/smtp/smtp_session.cpp, src/smtp/submission_server.cpp). */
module SmtpText {
  import opened Common

  const SPACE: Byte := 0x20

  function Upper(s: Bytes): (r: Bytes)
    ensures |r| == |s|
  {
    if s == [] then [] else [if 0x61 <= s[0] <= 0x7A then s[0] - 32 else s[0]] + Upper(s[1..])
  }

  lemma {:induction false} UpperIsFixed(s: Bytes)
    requires forall i :: 0 <= i < |s| ==> !(0x61 <= s[i] <= 0x7A)
    ensures Upper(s) == s
  {
    if s != [] {
      UpperIsFixed(s[1..]);
      assert s == [s[0]] + s[1..];
    }
  }

  datatype Verb = EHLO | HELO | MAIL | RCPT | DATA | RSET | NOOP | QUIT | VRFY | AUTH | STARTTLS | Unknown

  /** The verb of a line; VRFY stands for EXPN too. */
  function VerbOf(line: Bytes): Verb {
    var v := Upper(line[..IndexOf(line, SPACE)]);
    if v == [0x45, 0x48, 0x4C, 0x4F] then EHLO
    else if v == [0x48, 0x45, 0x4C, 0x4F] then HELO
    else if v == [0x4D, 0x41, 0x49, 0x4C] then MAIL
    else if v == [0x52, 0x43, 0x50, 0x54] then RCPT
    else if v == [0x44, 0x41, 0x54, 0x41] then DATA
    else if v == [0x52, 0x53, 0x45, 0x54] then RSET
    else if v == [0x4E, 0x4F, 0x4F, 0x50] then NOOP
    else if v == [0x51, 0x55, 0x49, 0x54] then QUIT
    else if v == [0x56, 0x52, 0x46, 0x59] || v == [0x45, 0x58, 0x50, 0x4E] then VRFY
    else if v == [0x41, 0x55, 0x54, 0x48] then AUTH
    else if v == [0x53, 0x54, 0x41, 0x52, 0x54, 0x54, 0x4C, 0x53] then STARTTLS
    else Unknown
  }

  /** What follows the first space. */
  function Rest(line: Bytes): Bytes {
    var sp := IndexOf(line, SPACE);
    if sp < |line| then line[sp + 1..] else []
  }

  function FirstWord(s: Bytes): Bytes { s[..IndexOf(s, SPACE)] }

  predicate IsFrom(arg: Bytes) { |arg| >= 5 && Upper(arg[..5]) == [0x46, 0x52, 0x4F, 0x4D, 0x3A] }
  predicate IsTo(arg: Bytes) { |arg| >= 3 && Upper(arg[..3]) == [0x54, 0x4F, 0x3A] }

  predicate Blank(b: Byte) { b == SPACE || b == 0x09 || b == 0x0D || b == 0x0A }

  function TrimLeft(s: Bytes): Bytes { if s != [] && Blank(s[0]) then TrimLeft(s[1..]) else s }
  function TrimRight(s: Bytes): Bytes { if s != [] && Blank(s[|s| - 1]) then TrimRight(s[..|s| - 1]) else s }
  function Trim(s: Bytes): Bytes { TrimRight(TrimLeft(s)) }

  /** extract_address: the first word, without its angle brackets. */
  function Address(arg: Bytes): Bytes {
    var word := FirstWord(Trim(arg));
    var bare := if |word| >= 2 && word[0] == 0x3C && word[|word| - 1] == 0x3E then word[1..|word| - 1] else word;
    Trim(bare)
  }

  /** Neither white space nor anything trimming removes. */
  predicate Solid(s: Bytes) { forall i :: 0 <= i < |s| ==> !Blank(s[i]) }

  lemma {:induction false} TrimRightKeeps(s: Bytes, rest: Bytes) returns (kept: Bytes)
    requires s != [] && !Blank(s[|s| - 1])
    ensures kept <= rest && TrimRight(s + rest) == s + kept
    decreases |rest|
  {
    var all := s + rest;
    if rest == [] {
      assert all == s;
      kept := [];
    } else if Blank(rest[|rest| - 1]) {
      assert all[..|all| - 1] == s + rest[..|rest| - 1];
      kept := TrimRightKeeps(s, rest[..|rest| - 1]);
    } else {
      kept := rest;
    }
  }

  lemma SolidIsTrimmed(s: Bytes)
    requires Solid(s)
    ensures Trim(s) == s
  {
  }

  lemma SolidHasNoSpace(s: Bytes, rest: Bytes)
    requires Solid(s) && (rest == [] || rest[0] == SPACE)
    ensures FirstWord(s + rest) == s
  {
    assert (s + rest)[..|s|] == s;
    if rest == [] { NoIndex(s + rest, SPACE); } else { FirstIndex(s + rest, SPACE, |s|); }
  }

  lemma {:induction false} NoIndex(s: Bytes, b: Byte)
    requires b !in s
    ensures IndexOf(s, b) == |s|
  {
    if s != [] { NoIndex(s[1..], b); }
  }

  /** An address in angle brackets is read as such, whatever parameters follow it. */
  lemma AddressBack(addr: Bytes, params: Bytes)
    requires Solid(addr) && (params == [] || params[0] == SPACE)
    ensures Address([0x3C] + addr + [0x3E] + params) == addr
  {
    var word := [0x3C] + addr + [0x3E];
    var kept := TrimRightKeeps(word, params);
    assert TrimLeft(word + params) == word + params;
    SolidHasNoSpace(word, kept);
    assert word[1..|word| - 1] == addr;
    SolidIsTrimmed(addr);
  }

  /** A line of a word and what follows its space. */
  lemma WordAndRest(word: Bytes, arg: Bytes)
    requires SPACE !in word
    ensures var line := word + ([SPACE] + arg); FirstWord(line) == word && Rest(line) == arg
  {
    var line := word + ([SPACE] + arg);
    assert line[..|word|] == word && line[|word| + 1..] == arg;
    FirstIndex(line, SPACE, |word|);
  }

  lemma WordAlone(word: Bytes)
    requires SPACE !in word
    ensures FirstWord(word) == word && Rest(word) == []
  {
    NoIndex(word, SPACE);
  }

  // ----- the lines of a dialogue

  const MAIL_WORD: Bytes := [0x4D, 0x41, 0x49, 0x4C]
  const RCPT_WORD: Bytes := [0x52, 0x43, 0x50, 0x54]
  const DATA_WORD: Bytes := [0x44, 0x41, 0x54, 0x41]
  const RSET_WORD: Bytes := [0x52, 0x53, 0x45, 0x54]
  const FROM: Bytes := [0x46, 0x52, 0x4F, 0x4D, 0x3A]
  const TO: Bytes := [0x54, 0x4F, 0x3A]

  function Bracketed(addr: Bytes): Bytes { [0x3C] + addr + [0x3E] }

  function MailText(addr: Bytes): Bytes { MAIL_WORD + ([SPACE] + (FROM + Bracketed(addr))) }
  function RcptText(addr: Bytes): Bytes { RCPT_WORD + ([SPACE] + (TO + Bracketed(addr))) }

  /** An address that can stand in a line. */
  predicate Mailable(addr: Bytes) { addr != [] && Solid(addr) && |addr| <= 1900 }

  lemma BracketedBack(addr: Bytes)
    requires Solid(addr)
    ensures Address(Bracketed(addr)) == addr
  {
    assert Bracketed(addr) + [] == Bracketed(addr);
    AddressBack(addr, []);
  }

  lemma MailTextRead(addr: Bytes)
    requires Solid(addr)
    ensures VerbOf(MailText(addr)) == MAIL && Rest(MailText(addr)) == FROM + Bracketed(addr)
  {
    WordAndRest(MAIL_WORD, FROM + Bracketed(addr));
    UpperIsFixed(MAIL_WORD);
  }

  lemma FromRead(addr: Bytes)
    requires Solid(addr)
    ensures var arg := FROM + Bracketed(addr); IsFrom(arg) && |arg| >= 5 && Address(arg[5..]) == addr
  {
    var arg := FROM + Bracketed(addr);
    assert arg[..5] == FROM && arg[5..] == Bracketed(addr);
    UpperIsFixed(FROM);
    BracketedBack(addr);
  }

  lemma RcptTextRead(addr: Bytes)
    requires Solid(addr)
    ensures VerbOf(RcptText(addr)) == RCPT && Rest(RcptText(addr)) == TO + Bracketed(addr)
  {
    WordAndRest(RCPT_WORD, TO + Bracketed(addr));
    UpperIsFixed(RCPT_WORD);
  }

  lemma ToRead(addr: Bytes)
    requires Solid(addr)
    ensures var arg := TO + Bracketed(addr); IsTo(arg) && |arg| >= 3 && Address(arg[3..]) == addr
  {
    var arg := TO + Bracketed(addr);
    assert arg[..3] == TO && arg[3..] == Bracketed(addr);
    UpperIsFixed(TO);
    BracketedBack(addr);
  }

  lemma DataRead()
    ensures VerbOf(DATA_WORD) == DATA
  {
    WordAlone(DATA_WORD);
    UpperIsFixed(DATA_WORD);
  }

  lemma RsetRead()
    ensures VerbOf(RSET_WORD) == RSET
  {
    WordAlone(RSET_WORD);
    UpperIsFixed(RSET_WORD);
  }

  lemma MailFits(addr: Bytes)
    requires Mailable(addr)
    ensures LF !in MailText(addr) && |MailText(addr)| < 2000 && MailText(addr) != []
  {
  }

  lemma RcptFits(addr: Bytes)
    requires Mailable(addr)
    ensures LF !in RcptText(addr) && |RcptText(addr)| < 2000 && RcptText(addr) != []
  {
  }
}
