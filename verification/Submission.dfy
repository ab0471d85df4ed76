/** The session of the submission port (src/smtp/submission_server.cpp). */
module Submission {
  import opened Common
  import opened SmtpText
  import opened S = Sasl
  import opened F = SmtpFraming

  datatype State = Connected | Greeted | Authenticated | Mail | Rcpt | Data | Done
  datatype Envelope = Envelope(mailFrom: Bytes, rcptTo: seq<Bytes>)
  /** What deliver() was given, and for which user. */
  datatype Delivery = Delivery(user: Bytes, env: Envelope, body: Bytes)

  /** The connection's entry in tls_conns_: none, one whose handshake is not done, or an established one. */
  datatype Tls = Plain | Handshaking | Active

  const NO_ENVELOPE := Envelope([], [])

  /** `down`: an exception has left on_data, and the loop closes the connection. */
  datatype Machine = Machine(state: State, env: Envelope, auth: Auth, tls: Tls, upgrading: bool, pendingClose: bool,
    down: bool, replies: seq<int>, delivered: seq<Delivery>)

  const FRESH := Machine(Connected, NO_ENVELOPE, UNAUTHENTICATED, Plain, false, false, false, [220], [])

  /** The credential store, the recipient checks, delivery, and whether the loop has a TLS context. */
  datatype World = World(store: Store, accepts: (Bytes, nat) -> bool, delivers: (Delivery, nat) -> bool, tlsContext: bool)

  function Reply(m: Machine, code: int): Machine { m.(replies := m.replies + [code]) }

  function AfterHelo(m: Machine): Machine { Reply(m.(env := NO_ENVELOPE, state := Greeted), 250) }

  /** arg.substr(5) comes before the syntax check and throws on a shorter argument. */
  function AfterMail(m: Machine, arg: Bytes): Machine {
    if m.state != Authenticated then Reply(m, if m.state == Greeted then 530 else 503)
    else if |arg| < 5 then m.(down := true)
    else if !IsFrom(arg) then Reply(m, 501)
    else Reply(m.(env := m.env.(mailFrom := Address(arg[5..])), state := Mail), 250)
  }

  function AfterRcpt(w: World, m: Machine, arg: Bytes): Machine {
    if m.state != Mail && m.state != Rcpt then Reply(m, 503)
    else if !IsTo(arg) then Reply(m, 501)
    else AfterRecipient(w, m, Address(arg[3..]))
  }

  function AfterRecipient(w: World, m: Machine, addr: Bytes): Machine {
    if addr == [] then Reply(m, 501)
    else if |m.env.rcptTo| >= 100 then Reply(m, 452)
    else if !w.accepts(addr, |m.replies|) then Reply(m, 550)
    else Reply(m.(env := m.env.(rcptTo := m.env.rcptTo + [addr]), state := Rcpt), 250)
  }

  function AfterData(m: Machine): Machine { if m.state != Rcpt then Reply(m, 503) else Reply(m.(state := Data), 354) }

  function AfterRset(m: Machine): Machine {
    Reply(m.(env := NO_ENVELOPE, state := if m.auth.authenticated then Authenticated else Greeted), 250)
  }

  function AfterQuit(m: Machine): Machine { Reply(m.(state := Done, pendingClose := true), 221) }

  function AfterStarttls(w: World, m: Machine): Machine {
    if m.upgrading || m.tls == Active then Reply(m, 503)
    else Reply(m.(env := NO_ENVELOPE, state := Greeted, upgrading := true, tls := if w.tlsContext then Handshaking else m.tls), 220)
  }

  /** What an exchange does to the machine. */
  function Adopt(m: Machine, auth: Auth, code: int): Machine {
    Reply(m.(auth := auth, state := if code == 235 then Authenticated else m.state), code)
  }

  function AfterAuth(w: World, m: Machine, arg: Bytes): Machine {
    if m.tls != Active then Reply(m, 538)
    else if m.state != Greeted then Reply(m, 503)
    else
      var (auth, code) := AfterBegin(w.store, m.auth, FirstWord(arg), Rest(arg), m.tls == Active);
      Adopt(m, auth, code)
  }

  /** A line while an exchange is in progress. */
  function AfterResponse(w: World, m: Machine, line: Bytes): Machine {
    var (auth, code) := AfterRespond(w.store, m.auth, line, m.tls == Active);
    Adopt(m, auth, code)
  }

  function Command(w: World, m: Machine, verb: Verb, arg: Bytes): Machine {
    if verb == AUTH then AfterAuth(w, m, arg) else Other(w, m, verb, arg)
  }

  function Other(w: World, m: Machine, verb: Verb, arg: Bytes): Machine {
    match verb
    case EHLO => AfterHelo(m)
    case HELO => AfterHelo(m)
    case MAIL => AfterMail(m, arg)
    case RCPT => AfterRcpt(w, m, arg)
    case DATA => AfterData(m)
    case RSET => AfterRset(m)
    case NOOP => Reply(m, 250)
    case QUIT => AfterQuit(m)
    case VRFY => Reply(m, 502)
    case STARTTLS => AfterStarttls(w, m)
    case _ => Reply(m, 500)
  }

  function Line(w: World, m: Machine, line: Bytes): Machine {
    if m.auth.InProgress() then AfterResponse(w, m, line)
    else if line == [] then m
    else Command(w, m, VerbOf(line), Rest(line))
  }

  /** After a delivery the session is only greeted again: RSET brings an authenticated user back. */
  function Deliver(w: World, m: Machine, body: Bytes): Machine {
    var d := Delivery(m.auth.username, m.env, body);
    var m' := m.(delivered := m.delivered + [d]);
    if w.delivers(d, |m.replies|) then Reply(m'.(state := Greeted, env := NO_ENVELOPE), 250) else Reply(m', 452)
  }

  function Behaviour(w: World): F.Handlers<Machine> {
    F.Handlers(
      (m, line) => Line(w, m, line), (m, body) => Deliver(w, m, body), (m: Machine) => Reply(m, 500),
      (m: Machine) => m.state == Data, (m: Machine) => m.upgrading || m.down, (m: Machine) => m.(upgrading := false))
  }

  // ----- the gate

  predicate Inside(s: State) { s == Authenticated || s == Mail || Addressed(s) }
  predicate Addressed(s: State) { s == Rcpt || s == Data }
  predicate Unaddressed(s: State) { s == Connected || s == Greeted || s == Authenticated }

  predicate Vouched(m: Machine, d: Delivery) { Accepted(m.auth.log, d.user) && 1 <= |d.env.rcptTo| <= 100 }

  /**
   Past the gate the store has accepted the recorded user under TLS; an exchange is in progress only before it; and
   every mail was delivered for an accepted user.
   */
  ghost predicate Guarded(m: Machine) {
    S.Sound(m.auth) &&
    (Inside(m.state) ==> m.auth.authenticated) &&
    (m.auth.authenticated ==> m.tls == Active) &&
    (m.auth.InProgress() ==> m.state == Greeted && !m.auth.authenticated && m.tls == Active) &&
    |m.env.rcptTo| <= 100 && (Addressed(m.state) ==> m.env.rcptTo != []) && (Unaddressed(m.state) ==> m.env == NO_ENVELOPE) &&
    forall d | d in m.delivered :: Vouched(m, d)
  }

  /** What TLS and the log do in one step: established TLS stays, and nothing is taken from the log. */
  ghost predicate Onward(m: Machine, m': Machine) {
    (m.tls == Active ==> m'.tls == Active) && m.auth.log <= m'.auth.log
  }

  lemma AdoptKeeps(m: Machine, auth: Auth, code: int)
    requires Guarded(m) && m.state == Greeted && m.tls == Active && m.auth.log <= auth.log && S.Sound(auth)
    requires (code == 235 ==> auth.authenticated) && (auth.InProgress() ==> !auth.authenticated)
    ensures Guarded(Adopt(m, auth, code)) && Onward(m, Adopt(m, auth, code))
  {
    var m' := Adopt(m, auth, code);
    forall d | d in m'.delivered ensures Vouched(m', d) { assert Vouched(m, d); }
  }

  lemma AuthKeeps(w: World, m: Machine, arg: Bytes)
    requires Guarded(m) && !m.auth.InProgress()
    ensures Guarded(AfterAuth(w, m, arg)) && Onward(m, AfterAuth(w, m, arg))
  {
    if m.tls == Active && m.state == Greeted {
      BeginKeeps(w.store, m.auth, FirstWord(arg), Rest(arg));
      var (auth, code) := AfterBegin(w.store, m.auth, FirstWord(arg), Rest(arg), true);
      AdoptKeeps(m, auth, code);
    } else {
      Answered(m, if m.tls != Active then 538 else 503);
    }
  }

  lemma ResponseKeeps(w: World, m: Machine, line: Bytes)
    requires Guarded(m) && m.auth.InProgress()
    ensures Guarded(AfterResponse(w, m, line)) && Onward(m, AfterResponse(w, m, line))
  {
    RespondKeeps(w.store, m.auth, line);
    var (auth, code) := AfterRespond(w.store, m.auth, line, true);
    AdoptKeeps(m, auth, code);
  }

  /** A command that leaves the exchange and the mails alone and stays on its side of the gate. */
  predicate Stays(m: Machine, m': Machine) {
    m'.auth == m.auth && m'.delivered == m.delivered && (m.tls == Active ==> m'.tls == Active) &&
    (Inside(m'.state) ==> Inside(m.state) || m.auth.authenticated) &&
    |m'.env.rcptTo| <= 100 && (Addressed(m'.state) ==> m'.env.rcptTo != []) && (Unaddressed(m'.state) ==> m'.env == NO_ENVELOPE)
  }

  lemma Carry(m: Machine, m': Machine)
    requires Guarded(m) && !m.auth.InProgress() && Stays(m, m')
    ensures Guarded(m') && Onward(m, m')
  {
    forall d | d in m'.delivered ensures Vouched(m', d) { assert Vouched(m, d); }
  }

  lemma CommandKeeps(w: World, m: Machine, verb: Verb, arg: Bytes)
    requires Guarded(m) && !m.auth.InProgress()
    ensures Guarded(Command(w, m, verb, arg)) && Onward(m, Command(w, m, verb, arg))
  {
    if verb == AUTH { AuthKeeps(w, m, arg); } else { OtherKeeps(w, m, verb, arg); }
  }

  lemma OtherKeeps(w: World, m: Machine, verb: Verb, arg: Bytes)
    requires Guarded(m) && !m.auth.InProgress()
    ensures Guarded(Other(w, m, verb, arg)) && Onward(m, Other(w, m, verb, arg))
  {
    OtherStays(w, m, verb, arg);
    Carry(m, Other(w, m, verb, arg));
  }

  lemma OtherStays(w: World, m: Machine, verb: Verb, arg: Bytes)
    requires |m.env.rcptTo| <= 100 && (Addressed(m.state) ==> m.env.rcptTo != []) && (Unaddressed(m.state) ==> m.env == NO_ENVELOPE)
    ensures Stays(m, Other(w, m, verb, arg))
  {
    match verb {
      case MAIL => MailStays(m, arg);
      case RCPT => RcptStays(w, m, arg);
      case STARTTLS => assert Stays(m, AfterStarttls(w, m));
      case _ =>
    }
  }

  lemma MailStays(m: Machine, arg: Bytes)
    requires |m.env.rcptTo| <= 100 && (Addressed(m.state) ==> m.env.rcptTo != []) && (Unaddressed(m.state) ==> m.env == NO_ENVELOPE)
    ensures Stays(m, AfterMail(m, arg))
  {
  }

  lemma RcptStays(w: World, m: Machine, arg: Bytes)
    requires |m.env.rcptTo| <= 100 && (Addressed(m.state) ==> m.env.rcptTo != []) && (Unaddressed(m.state) ==> m.env == NO_ENVELOPE)
    ensures Stays(m, AfterRcpt(w, m, arg))
  {
    if (m.state == Mail || m.state == Rcpt) && IsTo(arg) { RecipientStays(w, m, Address(arg[3..])); }
  }

  lemma RecipientStays(w: World, m: Machine, addr: Bytes)
    requires |m.env.rcptTo| <= 100 && (Addressed(m.state) ==> m.env.rcptTo != []) && (Unaddressed(m.state) ==> m.env == NO_ENVELOPE) && Inside(m.state)
    ensures Stays(m, AfterRecipient(w, m, addr))
  {
  }

  lemma LineKeeps(w: World, m: Machine, line: Bytes)
    requires Guarded(m)
    ensures Guarded(Line(w, m, line)) && Onward(m, Line(w, m, line))
  {
    if m.auth.InProgress() {
      ResponseKeeps(w, m, line);
    } else if line != [] {
      CommandKeeps(w, m, VerbOf(line), Rest(line));
    }
  }

  lemma DeliverKeeps(w: World, m: Machine, body: Bytes)
    requires Guarded(m) && m.state == Data
    ensures Guarded(Deliver(w, m, body)) && Onward(m, Deliver(w, m, body))
  {
    var m' := Deliver(w, m, body);
    forall d | d in m'.delivered ensures Vouched(m', d) {
      if d in m.delivered { assert Vouched(m, d); }
    }
  }

  // ----- every run

  /** A chunk of plaintext reaches the session before STARTTLS or through established TLS; in between, the handshake completes. */
  datatype Event = Chunk(w: World, bytes: Bytes) | Handshake

  predicate Possible(m: Machine, e: Event) {
    !m.down && match e case Chunk(_, _) => m.tls != Handshaking case Handshake => m.tls == Handshaking
  }

  function Step(r: F.Reader<Machine>, e: Event): F.Reader<Machine> {
    match e
    case Chunk(w, bytes) => F.OnData(Behaviour(w), r, bytes)
    case Handshake => r.(m := r.m.(tls := Active))
  }

  function Run(r: F.Reader<Machine>, es: seq<Event>): F.Reader<Machine>
    decreases |es|
  {
    if es == [] then r
    else if !Possible(r.m, es[0]) then r
    else Run(Step(r, es[0]), es[1..])
  }

  lemma {:induction false} ChunkKeeps(w: World, r: F.Reader<Machine>, bytes: Bytes)
    requires Guarded(r.m) && !r.m.upgrading
    ensures var r' := F.OnData(Behaviour(w), r, bytes); Guarded(r'.m) && Onward(r.m, r'.m) && !r'.m.upgrading
    decreases |bytes|
  {
    if bytes != [] {
      var h, b := Behaviour(w), bytes[0];
      ByteKeeps(w, r, b);
      var r' := F.ReadByte(h, r, b);
      if F.Stops(h, r, b) { Resumes(r'.m); } else { ChunkKeeps(w, r', bytes[1..]); }
    }
  }

  /** No chunk leaves the TLS flag set. */
  lemma {:induction false} FlagCleared(w: World, r: F.Reader<Machine>, bytes: Bytes)
    requires !r.m.upgrading
    ensures !F.OnData(Behaviour(w), r, bytes).m.upgrading
    decreases |bytes|
  {
    if bytes != [] {
      var r' := F.ReadByte(Behaviour(w), r, bytes[0]);
      if !F.Stops(Behaviour(w), r, bytes[0]) { FlagCleared(w, r', bytes[1..]); }
    }
  }

  lemma Resumes(m: Machine)
    requires Guarded(m)
    ensures Guarded(m.(upgrading := false))
  {
    forall d | d in m.delivered ensures Vouched(m.(upgrading := false), d) { assert Vouched(m, d); }
  }

  lemma ByteKeeps(w: World, r: F.Reader<Machine>, b: Byte)
    requires Guarded(r.m) && !r.m.upgrading
    ensures var r' := F.ReadByte(Behaviour(w), r, b);
      Guarded(r'.m) && Onward(r.m, r'.m) && (r'.m.upgrading ==> F.Stops(Behaviour(w), r, b))
  {
    if r.m.state == Data { DataByteKeeps(w, r, b); } else { LineByteKeeps(w, r, b); }
  }

  lemma DataByteKeeps(w: World, r: F.Reader<Machine>, b: Byte)
    requires Guarded(r.m) && !r.m.upgrading && r.m.state == Data
    ensures var r' := F.DataByte(Behaviour(w), r, b); Guarded(r'.m) && Onward(r.m, r'.m) && !r'.m.upgrading
  {
    var buf := r.buf + [b];
    if |buf| >= 5 { DeliverKeeps(w, r.m, buf[..|buf| - 5]); }
  }

  lemma LineByteKeeps(w: World, r: F.Reader<Machine>, b: Byte)
    requires Guarded(r.m) && !r.m.upgrading
    ensures var r' := F.LineByte(Behaviour(w), r, b); Guarded(r'.m) && Onward(r.m, r'.m) && (r'.m.upgrading ==> b == LF)
  {
    if b == LF {
      LineKeeps(w, r.m, StripCR(r.buf));
    } else if |r.buf| + 1 > F.MAX_LINE {
      Answered(r.m, 500);
    }
  }

  lemma Answered(m: Machine, code: int)
    requires Guarded(m)
    ensures Guarded(Reply(m, code))
  {
    forall d | d in m.delivered ensures Vouched(Reply(m, code), d) { assert Vouched(m, d); }
  }

  lemma {:induction false} RunKeeps(r: F.Reader<Machine>, es: seq<Event>)
    requires Guarded(r.m) && !r.m.upgrading
    ensures var r' := Run(r, es); Guarded(r'.m) && Onward(r.m, r'.m) && !r'.m.upgrading
    decreases |es|
  {
    if es != [] && Possible(r.m, es[0]) {
      match es[0] {
        case Chunk(w, bytes) => ChunkKeeps(w, r, bytes);
        case Handshake => Established(r.m);
      }
      RunKeeps(Step(r, es[0]), es[1..]);
    }
  }

  lemma Established(m: Machine)
    requires Guarded(m)
    ensures Guarded(m.(tls := Active))
  {
    forall d | d in m.delivered ensures Vouched(m.(tls := Active), d) { assert Vouched(m, d); }
  }

  /**
   In every run: a session past the gate, and every mail delivered, belongs to a user whom the credential store
   accepted on this connection while TLS was active; an exchange in progress means Greeted and not authenticated; TLS
   is active whenever the session is past the gate; never more than three checks come without a cancellation
   between them; and the TLS flag is down between chunks.
   */
  lemma EveryRun(es: seq<Event>)
    ensures var m := Run(F.Reader(FRESH, [], []), es).m;
      (Inside(m.state) ==> Accepted(m.auth.log, m.auth.username) && m.tls == Active) &&
      (m.auth.InProgress() ==> m.state == Greeted && !m.auth.authenticated) &&
      (forall d | d in m.delivered :: Accepted(m.auth.log, d.user)) &&
      Encrypted(m.auth.log) && Paced(m.auth.log) && !m.upgrading && (Unaddressed(m.state) ==> m.env == NO_ENVELOPE)
  {
    RunKeeps(F.Reader(FRESH, [], []), es);
    var m := Run(F.Reader(FRESH, [], []), es).m;
    forall d | d in m.delivered ensures Accepted(m.auth.log, d.user) { assert Vouched(m, d); }
  }

  /** Established TLS stays for the rest of the run, and what the store has said stays on record. */
  lemma TlsStays(es: seq<Event>, more: seq<Event>)
    ensures Onward(Run(F.Reader(FRESH, [], []), es).m, Run(Run(F.Reader(FRESH, [], []), es), more).m)
  {
    RunKeeps(F.Reader(FRESH, [], []), es);
    RunKeeps(Run(F.Reader(FRESH, [], []), es), more);
  }

  // ----- when a session breaks off, and how a user gets back in

  /** The command lines of a run. */
  function RunLines(r: F.Reader<Machine>, es: seq<Event>): seq<F.Handled<Machine>>
    decreases |es|
  {
    if es == [] || !Possible(r.m, es[0]) then []
    else (if es[0].Chunk? then F.Commands(Behaviour(es[0].w), r, es[0].bytes) else []) + RunLines(Step(r, es[0]), es[1..])
  }

  /** A MAIL command of an authenticated session, with an argument too short for substr. */
  predicate ShortMail(m: Machine, line: Bytes) {
    !m.auth.InProgress() && line != [] && VerbOf(line) == MAIL && m.state == Authenticated && |SmtpText.Rest(line)| < 5
  }

  lemma LineDown(w: World, m: Machine, line: Bytes)
    ensures Line(w, m, line).down <==> m.down || ShortMail(m, line)
  {
    if !m.auth.InProgress() && line != [] { CommandDown(w, m, VerbOf(line), SmtpText.Rest(line)); }
  }

  lemma CommandDown(w: World, m: Machine, verb: Verb, arg: Bytes)
    ensures Command(w, m, verb, arg).down <==> m.down || (verb == MAIL && m.state == Authenticated && |arg| < 5)
  {
    if verb != AUTH { OtherDown(w, m, verb, arg); }
  }

  lemma OtherDown(w: World, m: Machine, verb: Verb, arg: Bytes)
    requires verb != AUTH
    ensures Other(w, m, verb, arg).down <==> m.down || (verb == MAIL && m.state == Authenticated && |arg| < 5)
  {
  }

  ghost predicate AnyShortMail(hs: seq<F.Handled<Machine>>) { exists x | x in hs :: ShortMail(x.before, x.line) }

  /** The line that a byte completes, if it does. */
  function Completed(w: World, r: F.Reader<Machine>, b: Byte): seq<F.Handled<Machine>> {
    if r.m.state != Data && b == LF then [F.Handled(r.m, StripCR(r.buf), F.ReadByte(Behaviour(w), r, b).m)] else []
  }

  lemma ByteDown(w: World, r: F.Reader<Machine>, b: Byte)
    ensures F.ReadByte(Behaviour(w), r, b).m.down <==> r.m.down || AnyShortMail(Completed(w, r, b))
  {
    if r.m.state != Data && b == LF {
      LineDown(w, r.m, StripCR(r.buf));
      assert Completed(w, r, b)[0] in Completed(w, r, b);
    }
  }

  lemma {:induction false} ChunkDown(w: World, r: F.Reader<Machine>, bytes: Bytes)
    ensures F.OnData(Behaviour(w), r, bytes).m.down <==> r.m.down || AnyShortMail(F.Commands(Behaviour(w), r, bytes))
    decreases |bytes|
  {
    if bytes != [] {
      var h, b := Behaviour(w), bytes[0];
      var r' := F.ReadByte(h, r, b);
      var rest := if F.Stops(h, r, b) then [] else F.Commands(h, r', bytes[1..]);
      ByteDown(w, r, b);
      if !F.Stops(h, r, b) { ChunkDown(w, r', bytes[1..]); }
      BothShort(Completed(w, r, b), rest);
    }
  }

  lemma BothShort(a: seq<F.Handled<Machine>>, b: seq<F.Handled<Machine>>)
    ensures AnyShortMail(a + b) <==> AnyShortMail(a) || AnyShortMail(b)
  {
    assert forall y :: y in a + b <==> y in a || y in b;
  }

  /** In every run the session breaks off exactly when an authenticated one gets a MAIL command with an argument under five bytes. */
  lemma {:induction false} DownIffShortMail(r: F.Reader<Machine>, es: seq<Event>)
    ensures Run(r, es).m.down <==> r.m.down || AnyShortMail(RunLines(r, es))
    decreases |es|
  {
    if es != [] && Possible(r.m, es[0]) {
      var first := if es[0].Chunk? then F.Commands(Behaviour(es[0].w), r, es[0].bytes) else [];
      if es[0].Chunk? { ChunkDown(es[0].w, r, es[0].bytes); }
      DownIffShortMail(Step(r, es[0]), es[1..]);
      BothShort(first, RunLines(Step(r, es[0]), es[1..]));
    }
  }

  const STARTTLS_LINE: Bytes := [0x53, 0x54, 0x41, 0x52, 0x54, 0x54, 0x4C, 0x53]
  const AUTH_WORD: Bytes := [0x41, 0x55, 0x54, 0x48]

  lemma StarttlsRead()
    ensures VerbOf(STARTTLS_LINE) == STARTTLS
  {
    WordAlone(STARTTLS_LINE);
    UpperIsFixed(STARTTLS_LINE);
  }

  lemma MailRead()
    ensures VerbOf(MAIL_WORD) == MAIL && SmtpText.Rest(MAIL_WORD) == []
  {
    WordAlone(MAIL_WORD);
    UpperIsFixed(MAIL_WORD);
  }

  function PlainArg(response: Bytes): Bytes { PLAIN + ([SPACE] + response) }

  function AuthText(arg: Bytes): Bytes { AUTH_WORD + ([SPACE] + arg) }

  function AuthLine(response: Bytes): Bytes { AuthText(PlainArg(response)) }

  lemma AuthRead(arg: Bytes)
    ensures VerbOf(AuthText(arg)) == AUTH && SmtpText.Rest(AuthText(arg)) == arg
  {
    WordAndRest(AUTH_WORD, arg);
    UpperIsFixed(AUTH_WORD);
  }

  /** A chunk that is one command line. */
  lemma OneLineChunk(w: World, m: Machine, line: Bytes)
    requires m.state != Data && LF !in line && |line| <= F.MAX_LINE && StripCR(line) == line
    ensures var m' := Line(w, m, line);
      F.OnData(Behaviour(w), F.Reader(m, [], []), line + ([LF] + [])) == F.Reader(if m'.upgrading || m'.down then m'.(upgrading := false) else m', [], [])
  {
    F.LineIsRead(Behaviour(w), m, line, []);
  }

  /** Credentials that the store accepts, as the response of an AUTH PLAIN line. */
  predicate Accepts(w: World, response: Bytes, user: Bytes, pass: Bytes) {
    w.store.decode(response) == PlainText([], user, pass) && w.store.verify(user, pass, 0) && 0 !in user && user != [] && pass != [] &&
    response != [] && LF !in response && CR !in response && |response| <= 2000
  }

  lemma StarttlsChunk(w: World, m: Machine)
    requires w.tlsContext && m.state != Data && m.auth.phase == Idle && m.tls == Plain && !m.upgrading
    ensures F.OnData(Behaviour(w), F.Reader(m, [], []), STARTTLS_LINE + ([LF] + [])) == F.Reader(AfterStarttls(w, m).(upgrading := false), [], [])
  {
    StarttlsRead();
    assert Line(w, m, STARTTLS_LINE) == AfterStarttls(w, m);
    OneLineChunk(w, m, STARTTLS_LINE);
  }

  lemma AuthChunk(w: World, m: Machine, response: Bytes, user: Bytes, pass: Bytes) returns (m': Machine)
    requires Accepts(w, response, user, pass) && m.state == Greeted && m.tls == Active && m.auth == UNAUTHENTICATED && !m.upgrading && !m.down
    ensures F.OnData(Behaviour(w), F.Reader(m, [], []), AuthLine(response) + ([LF] + [])) == F.Reader(m', [], [])
    ensures m'.state == Authenticated && m'.tls == Active && m'.auth.phase == Idle && !m'.upgrading && !m'.down
  {
    AuthRead(PlainArg(response));
    m' := AfterAuth(w, m, PlainArg(response));
    WordAndRest(PLAIN, response);
    AcceptedByStore(w.store, m.auth, response, user, pass);
    AuthLineFits(response);
    OneLineChunk(w, m, AuthLine(response));
  }

  lemma AuthLineFits(response: Bytes)
    requires response != [] && LF !in response && CR !in response && |response| <= 2000
    ensures LF !in AuthLine(response) && |AuthLine(response)| <= F.MAX_LINE && StripCR(AuthLine(response)) == AuthLine(response)
  {
    var line := AuthLine(response);
    assert line[|line| - 1] == response[|response| - 1] && response[|response| - 1] in response;
  }

  lemma MailChunk(w: World, m: Machine)
    requires m.state == Authenticated && m.auth.phase == Idle && !m.upgrading
    ensures F.OnData(Behaviour(w), F.Reader(m, [], []), MAIL_WORD + ([LF] + [])) == F.Reader(m.(down := true), [], [])
  {
    MailRead();
    OneLineChunk(w, m, MAIL_WORD);
  }

  function ShortMailEvents(w: World, response: Bytes): seq<Event> {
    [Chunk(w, STARTTLS_LINE + ([LF] + [])), Handshake, Chunk(w, AuthLine(response) + ([LF] + [])), Chunk(w, MAIL_WORD + ([LF] + []))]
  }

  /** A run that breaks off: STARTTLS, the handshake, AUTH PLAIN with credentials that the store accepts, and MAIL without an argument. */
  lemma ShortMailRun(w: World, response: Bytes, user: Bytes, pass: Bytes)
    requires w.tlsContext && Accepts(w, response, user, pass)
    ensures Run(F.Reader(FRESH, [], []), ShortMailEvents(w, response)).m.down
  {
    StarttlsChunk(w, FRESH);
    var m1 := AfterStarttls(w, FRESH).(upgrading := false);
    var m2 := m1.(tls := Active);
    var m3 := AuthChunk(w, m2, response, user, pass);
    MailChunk(w, m3);
    RunOfFour(w, m1, m2, m3, m3.(down := true), response);
  }

  lemma AcceptedByStore(st: Store, a: Auth, response: Bytes, user: Bytes, pass: Bytes)
    requires a == UNAUTHENTICATED && response != [] && st.decode(response) == PlainText([], user, pass)
    requires 0 !in user && user != [] && pass != [] && st.verify(user, pass, 0)
    ensures var (a', code) := AfterBegin(st, a, PLAIN, response, true); code == 235 && a'.authenticated && a'.phase == Idle
  {
    CredentialsBack([], user, pass);
  }

  lemma RunOfFour(w: World, m1: Machine, m2: Machine, m3: Machine, m4: Machine, response: Bytes)
    requires F.OnData(Behaviour(w), F.Reader(FRESH, [], []), STARTTLS_LINE + ([LF] + [])) == F.Reader(m1, [], [])
    requires !m1.down && m1.tls == Handshaking && m2 == m1.(tls := Active)
    requires F.OnData(Behaviour(w), F.Reader(m2, [], []), AuthLine(response) + ([LF] + [])) == F.Reader(m3, [], []) && !m3.down && m3.tls == Active
    requires F.OnData(Behaviour(w), F.Reader(m3, [], []), MAIL_WORD + ([LF] + [])) == F.Reader(m4, [], [])
    ensures Run(F.Reader(FRESH, [], []), ShortMailEvents(w, response)).m == m4
  {
    var es := ShortMailEvents(w, response);
    RunStep(F.Reader(FRESH, [], []), es);
    RunStep(F.Reader(m1, [], []), es[1..]);
    RunStep(F.Reader(m2, [], []), es[1..][1..]);
    RunStep(F.Reader(m3, [], []), es[1..][1..][1..]);
    assert es[1..][1..][1..][1..] == [];
  }

  lemma RunStep(r: F.Reader<Machine>, es: seq<Event>)
    requires es != [] && Possible(r.m, es[0])
    ensures Run(r, es) == Run(Step(r, es[0]), es[1..])
  {
  }

  // ----- AUTH LOGIN over a connection

  /** A response line: no line end in it, and short enough. */
  predicate ResponseLine(line: Bytes) { LF !in line && |line| <= F.MAX_LINE && StripCR(line) == line }

  lemma LoginChunk(w: World, m: Machine)
    requires m.state == Greeted && m.tls == Active && MayBegin(m.auth) && !m.upgrading && !m.down
    ensures F.OnData(Behaviour(w), F.Reader(m, [], []), AuthText(LOGIN) + ([LF] + [])) == F.Reader(AfterAuth(w, m, LOGIN), [], [])
  {
    AuthRead(LOGIN);
    LoginFits(AuthText(LOGIN));
    assert Line(w, m, AuthText(LOGIN)) == AfterAuth(w, m, LOGIN);
    WordAlone(LOGIN);
    OneLineChunk(w, m, AuthText(LOGIN));
  }

  lemma LoginFits(line: Bytes)
    requires line == AuthText(LOGIN)
    ensures ResponseLine(line)
  {
  }

  lemma ResponseChunk(w: World, m: Machine, line: Bytes)
    requires m.state != Data && m.auth.InProgress() && ResponseLine(line) && !m.upgrading && !m.down
    ensures F.OnData(Behaviour(w), F.Reader(m, [], []), line + ([LF] + [])) == F.Reader(AfterResponse(w, m, line), [], [])
  {
    OneLineChunk(w, m, line);
  }

  /** The three lines of AUTH LOGIN, from the machine's side. */
  function AfterLoginLines(w: World, m: Machine, first: Bytes, second: Bytes): Machine {
    AfterResponse(w, AfterResponse(w, AfterAuth(w, m, LOGIN), first), second)
  }

  lemma LoginLines(w: World, m: Machine, first: Bytes, second: Bytes)
    requires m.state == Greeted && m.tls == Active && MayBegin(m.auth) && !m.upgrading && !m.down
    requires first != STAR && second != STAR && w.store.decode(first) != [] && w.store.decode(second) != []
    ensures var m1 := AfterAuth(w, m, LOGIN); var m2 := AfterResponse(w, m1, first);
      m1.auth.InProgress() && m1.state == Greeted && m2.auth.InProgress() && m2.state == Greeted
    ensures var m' := AfterLoginLines(w, m, first, second);
      if w.store.verify(w.store.decode(first), w.store.decode(second), |m.auth.log|) then
        m'.state == Authenticated && m'.auth.username == w.store.decode(first) && m'.replies == m.replies + [334] + [334] + [235]
      else m'.state == Greeted && !m'.auth.authenticated && m'.replies == m.replies + [334] + [334] + [535]
  {
    WordAlone(LOGIN);
    LoginExchange(w.store, m.auth, [], first, second, true);
  }

  /** AUTH LOGIN and two response lines on a greeted connection under TLS: the user passes the gate exactly when the store accepts the first response as user with the second as password. */
  lemma LoginOverConnection(w: World, m: Machine, first: Bytes, second: Bytes)
    requires m.state == Greeted && m.tls == Active && MayBegin(m.auth) && !m.upgrading && !m.down
    requires ResponseLine(first) && ResponseLine(second) && first != STAR && second != STAR
    requires w.store.decode(first) != [] && w.store.decode(second) != []
    ensures var r := Run(F.Reader(m, [], []), LoginEvents(w, first, second));
      r == F.Reader(AfterLoginLines(w, m, first, second), [], []) &&
      (Inside(r.m.state) <==> w.store.verify(w.store.decode(first), w.store.decode(second), |m.auth.log|)) &&
      (Inside(r.m.state) ==> r.m.auth.username == w.store.decode(first))
  {
    var m1 := AfterAuth(w, m, LOGIN);
    var m2 := AfterResponse(w, m1, first);
    LoginLines(w, m, first, second);
    LoginChunk(w, m);
    ResponseChunk(w, m1, first);
    ResponseChunk(w, m2, second);
    RunOfThree(F.Reader(m, [], []), F.Reader(m1, [], []), F.Reader(m2, [], []), LoginEvents(w, first, second));
  }

  lemma RunOfThree(r0: F.Reader<Machine>, r1: F.Reader<Machine>, r2: F.Reader<Machine>, es: seq<Event>)
    requires |es| == 3 && Possible(r0.m, es[0]) && Step(r0, es[0]) == r1 && Possible(r1.m, es[1]) && Step(r1, es[1]) == r2 && Possible(r2.m, es[2])
    ensures Run(r0, es) == Step(r2, es[2])
  {
    RunStep(r0, es);
    RunStep(r1, es[1..]);
    RunStep(r2, es[1..][1..]);
    assert es[1..][1..][1..] == [];
  }

  function LoginEvents(w: World, first: Bytes, second: Bytes): seq<Event> {
    [Chunk(w, AuthText(LOGIN) + ([LF] + [])), Chunk(w, first + ([LF] + [])), Chunk(w, second + ([LF] + []))]
  }

  // ----- a whole dialogue

  /** The recipients that are accepted, asked one by one from a point in time on. */
  function AcceptedOnes(w: World, rs: seq<Bytes>, clock: nat): seq<Bytes> {
    if rs == [] then [] else (if w.accepts(rs[0], clock) then [rs[0]] else []) + AcceptedOnes(w, rs[1..], clock + 1)
  }

  function RcptCodes(w: World, rs: seq<Bytes>, clock: nat): seq<int> {
    if rs == [] then [] else [if w.accepts(rs[0], clock) then 250 else 550] + RcptCodes(w, rs[1..], clock + 1)
  }

  function RcptLines(rs: seq<Bytes>): Bytes { if rs == [] then [] else RcptText(rs[0]) + [CR, LF] + RcptLines(rs[1..]) }

  predicate AllMailable(rs: seq<Bytes>) { forall i :: 0 <= i < |rs| ==> Mailable(rs[i]) }

  lemma LineRuns(w: World, m: Machine, line: Bytes, m': Machine, rest: Bytes)
    requires m.state != Data && Line(w, m, line) == m' && !m'.upgrading && !m'.down && LF !in line && |line| < 2000
    ensures F.OnData(Behaviour(w), F.Reader(m, [], []), line + [CR, LF] + rest) == F.OnData(Behaviour(w), F.Reader(m', [], []), rest)
  {
    F.CrlfLine(Behaviour(w), m, line, rest);
  }

  lemma MailStep(w: World, m: Machine, sender: Bytes, rest: Bytes)
    requires m.state == Authenticated && m.auth.phase == Idle && !m.upgrading && !m.down && Mailable(sender)
    ensures F.OnData(Behaviour(w), F.Reader(m, [], []), MailText(sender) + [CR, LF] + rest) ==
      F.OnData(Behaviour(w), F.Reader(Reply(m.(env := m.env.(mailFrom := sender), state := Mail), 250), [], []), rest)
  {
    MailLine(w, m, sender);
    MailFits(sender);
    LineRuns(w, m, MailText(sender), Reply(m.(env := m.env.(mailFrom := sender), state := Mail), 250), rest);
  }

  lemma MailLine(w: World, m: Machine, sender: Bytes)
    requires m.state == Authenticated && m.auth.phase == Idle && Mailable(sender)
    ensures Line(w, m, MailText(sender)) == Reply(m.(env := m.env.(mailFrom := sender), state := Mail), 250)
  {
    MailTextRead(sender);
    FromRead(sender);
    MailFits(sender);
  }

  lemma RcptStep(w: World, m: Machine, r: Bytes, rest: Bytes)
    requires (m.state == Mail || m.state == Rcpt) && m.auth.phase == Idle && !m.upgrading && !m.down && Mailable(r)
    ensures F.OnData(Behaviour(w), F.Reader(m, [], []), RcptText(r) + [CR, LF] + rest) ==
      F.OnData(Behaviour(w), F.Reader(AfterRecipient(w, m, r), [], []), rest)
  {
    RcptLine(w, m, r);
    RcptFits(r);
    LineRuns(w, m, RcptText(r), AfterRecipient(w, m, r), rest);
  }

  lemma RcptLine(w: World, m: Machine, r: Bytes)
    requires (m.state == Mail || m.state == Rcpt) && m.auth.phase == Idle && Mailable(r)
    ensures Line(w, m, RcptText(r)) == AfterRecipient(w, m, r)
  {
    RcptTextRead(r);
    ToRead(r);
    RcptFits(r);
  }

  lemma DataStep(w: World, m: Machine, rest: Bytes)
    requires m.state == Rcpt && m.auth.phase == Idle && !m.upgrading && !m.down
    ensures F.OnData(Behaviour(w), F.Reader(m, [], []), DATA_WORD + [CR, LF] + rest) ==
      F.OnData(Behaviour(w), F.Reader(Reply(m.(state := Data), 354), [], []), rest)
  {
    DataRead();
    assert Line(w, m, DATA_WORD) == AfterData(m);
    LineRuns(w, m, DATA_WORD, Reply(m.(state := Data), 354), rest);
  }

  /** The session after a list of recipients: the accepted ones follow those before, in order. */
  function WithRecipients(m: Machine, accepted: seq<Bytes>, codes: seq<int>): Machine {
    m.(env := m.env.(rcptTo := m.env.rcptTo + accepted), state := if accepted == [] then m.state else Rcpt, replies := m.replies + codes)
  }

  lemma NoRecipients(m: Machine)
    ensures WithRecipients(m, [], []) == m
  {
    assert m.env.rcptTo + [] == m.env.rcptTo && m.replies + [] == m.replies;
  }

  lemma RecipientsInTurn(m: Machine, a: seq<Bytes>, c: seq<int>, b: seq<Bytes>, d: seq<int>)
    ensures WithRecipients(WithRecipients(m, a, c), b, d) == WithRecipients(m, a + b, c + d)
  {
    Assoc(m.env.rcptTo, a, b);
    Assoc(m.replies, c, d);
  }

  lemma RecipientWithRecipients(w: World, m: Machine, r: Bytes)
    requires r != [] && |m.env.rcptTo| < 100
    ensures AfterRecipient(w, m, r) == if w.accepts(r, |m.replies|) then WithRecipients(m, [r], [250]) else WithRecipients(m, [], [550])
  {
    assert m.env.rcptTo + [] == m.env.rcptTo;
  }

  lemma {:induction false} RcptsRead(w: World, m: Machine, rs: seq<Bytes>, rest: Bytes)
    requires (m.state == Mail || m.state == Rcpt) && m.auth.phase == Idle && !m.upgrading && !m.down && AllMailable(rs) && |m.env.rcptTo| + |rs| <= 100
    ensures F.OnData(Behaviour(w), F.Reader(m, [], []), RcptLines(rs) + rest) ==
      F.OnData(Behaviour(w), F.Reader(WithRecipients(m, AcceptedOnes(w, rs, |m.replies|), RcptCodes(w, rs, |m.replies|)), [], []), rest)
    decreases |rs|
  {
    if rs == [] {
      assert [] + rest == rest;
      NoRecipients(m);
    } else {
      var r, more, clock := rs[0], rs[1..], |m.replies|;
      var ok := w.accepts(r, clock);
      var one, code := if ok then [r] else [], if ok then [250] else [550];
      var m' := WithRecipients(m, one, code);
      Assoc(RcptText(r) + [CR, LF], RcptLines(more), rest);
      RecipientWithRecipients(w, m, r);
      RcptStep(w, m, r, RcptLines(more) + rest);
      RcptsRead(w, m', more, rest);
      RecipientsInTurn(m, one, code, AcceptedOnes(w, more, clock + 1), RcptCodes(w, more, clock + 1));
    }
  }

  function Dialogue(sender: Bytes, rs: seq<Bytes>, body: Bytes): Bytes {
    MailText(sender) + [CR, LF] + (RcptLines(rs) + (DATA_WORD + [CR, LF] + (body + F.TERM)))
  }

  /**
   An authenticated session that is given a sender, up to 100 recipients and a body delivers exactly this mail, for its
   own user: the sender, the recipients that are accepted, in order and no others, and the body.
   */
  lemma DialogueDelivers(w: World, m: Machine, sender: Bytes, rs: seq<Bytes>, body: Bytes)
    requires m.state == Authenticated && m.env == NO_ENVELOPE && m.auth.phase == Idle && !m.upgrading && !m.down
    requires Mailable(sender) && AllMailable(rs) && |rs| <= 100 && F.FirstTermAt(body + F.TERM, |body|)
    requires AcceptedOnes(w, rs, |m.replies| + 1) != []
    ensures var r := F.OnData(Behaviour(w), F.Reader(m, [], []), Dialogue(sender, rs, body));
      var d := Delivery(m.auth.username, Envelope(sender, AcceptedOnes(w, rs, |m.replies| + 1)), body);
      var codes := m.replies + [250] + RcptCodes(w, rs, |m.replies| + 1) + [354];
      r.m.delivered == m.delivered + [d] && r.buf == [] && r.tail == [] &&
      if w.delivers(d, |codes|) then r.m.state == Greeted && r.m.env == NO_ENVELOPE && r.m.replies == codes + [250]
      else r.m.state == Data && r.m.replies == codes + [452]
  {
    DialogueReads(w, m, sender, rs, body);
    var accepted, codes := AcceptedOnes(w, rs, |m.replies| + 1), RcptCodes(w, rs, |m.replies| + 1);
    assert [] + accepted == accepted;
  }

  /** The session before the body. */
  function Collecting(m: Machine, sender: Bytes, accepted: seq<Bytes>, codes: seq<int>): Machine {
    Reply(WithRecipients(Reply(m.(env := m.env.(mailFrom := sender), state := Mail), 250), accepted, codes).(state := Data), 354)
  }

  lemma DialogueReads(w: World, m: Machine, sender: Bytes, rs: seq<Bytes>, body: Bytes)
    requires m.state == Authenticated && m.env.rcptTo == [] && m.auth.phase == Idle && !m.upgrading && !m.down
    requires Mailable(sender) && AllMailable(rs) && |rs| <= 100 && F.FirstTermAt(body + F.TERM, |body|)
    requires AcceptedOnes(w, rs, |m.replies| + 1) != []
    ensures var clock := |m.replies| + 1;
      F.OnData(Behaviour(w), F.Reader(m, [], []), Dialogue(sender, rs, body)) ==
      F.Reader(Deliver(w, Collecting(m, sender, AcceptedOnes(w, rs, clock), RcptCodes(w, rs, clock)), body), [], [])
  {
    var m1 := Reply(m.(env := m.env.(mailFrom := sender), state := Mail), 250);
    AddressesRead(w, m, sender, rs, DATA_WORD + [CR, LF] + (body + F.TERM));
    DataDelivers(w, WithRecipients(m1, AcceptedOnes(w, rs, |m1.replies|), RcptCodes(w, rs, |m1.replies|)), body);
  }

  lemma AddressesRead(w: World, m: Machine, sender: Bytes, rs: seq<Bytes>, rest: Bytes)
    requires m.state == Authenticated && m.env.rcptTo == [] && m.auth.phase == Idle && !m.upgrading && !m.down
    requires Mailable(sender) && AllMailable(rs) && |rs| <= 100
    ensures var m1 := Reply(m.(env := m.env.(mailFrom := sender), state := Mail), 250);
      F.OnData(Behaviour(w), F.Reader(m, [], []), MailText(sender) + [CR, LF] + (RcptLines(rs) + rest)) ==
      F.OnData(Behaviour(w), F.Reader(WithRecipients(m1, AcceptedOnes(w, rs, |m1.replies|), RcptCodes(w, rs, |m1.replies|)), [], []), rest)
  {
    MailStep(w, m, sender, RcptLines(rs) + rest);
    RcptsRead(w, Reply(m.(env := m.env.(mailFrom := sender), state := Mail), 250), rs, rest);
  }

  lemma DataDelivers(w: World, m: Machine, body: Bytes)
    requires m.state == Rcpt && m.auth.phase == Idle && !m.upgrading && !m.down && F.FirstTermAt(body + F.TERM, |body|)
    ensures F.OnData(Behaviour(w), F.Reader(m, [], []), DATA_WORD + [CR, LF] + (body + F.TERM)) ==
      F.Reader(Deliver(w, Reply(m.(state := Data), 354), body), [], [])
  {
    DataStep(w, m, body + F.TERM);
    MailFinished(w, Reply(m.(state := Data), 354), body);
  }

  lemma MailFinished(w: World, m: Machine, body: Bytes)
    requires m.state == Data && F.FirstTermAt(body + F.TERM, |body|)
    ensures F.OnData(Behaviour(w), F.Reader(m, [], []), body + F.TERM) == F.Reader(Deliver(w, m, body), [], [])
  {
    F.DataIsWhole(Behaviour(w), m, body + F.TERM);
    assert (body + F.TERM)[..|body|] == body;
  }

  /** Section 4.1.4 of RFC 5321, and section 3.3 of RFC 6409: a transaction is MAIL by an authenticated user, then RCPT, then DATA. */
  predicate OutOfOrder(m: Machine, verb: Verb) {
    match verb
    case MAIL => m.state != Authenticated
    case RCPT => m.state != Mail && m.state != Rcpt
    case DATA => m.state != Rcpt
    case STARTTLS => m.upgrading || m.tls == Active
    case _ => false
  }

  /** Commands out of order are refused with 503, or with 530 before authentication, and change nothing; those in order never are. */
  lemma OutOfOrderIff(w: World, m: Machine, verb: Verb, arg: Bytes)
    requires verb == MAIL || verb == RCPT || verb == DATA || verb == STARTTLS
    ensures var m' := Command(w, m, verb, arg);
      (m' == Reply(m, 503) || m' == Reply(m, 530) <==> OutOfOrder(m, verb)) &&
      (m' == Reply(m, 530) <==> verb == MAIL && m.state == Greeted)
  {
    var codes503, codes530 := m.replies + [503], m.replies + [530];
    assert codes503[|m.replies|] == 503 && codes530[|m.replies|] == 530;
    match verb {
      case MAIL => assert m.state == Authenticated ==> AfterMail(m, arg) != Reply(m, 503) && AfterMail(m, arg) != Reply(m, 530);
      case RCPT => if m.state == Mail || m.state == Rcpt { RcptIsNotRefused(w, m, arg); }
      case _ =>
    }
  }

  lemma RcptIsNotRefused(w: World, m: Machine, arg: Bytes)
    requires m.state == Mail || m.state == Rcpt
    ensures AfterRcpt(w, m, arg) != Reply(m, 503) && AfterRcpt(w, m, arg) != Reply(m, 530)
  {
    assert AfterRcpt(w, m, arg).replies[|m.replies|] !in {503, 530};
  }

  /** EHLO, HELO and RSET forget what was said before, and so does a STARTTLS that is accepted. */
  lemma Forgets(w: World, m: Machine, verb: Verb, arg: Bytes)
    requires verb == EHLO || verb == HELO || verb == RSET || (verb == STARTTLS && !m.upgrading && m.tls != Active)
    ensures var m' := Command(w, m, verb, arg); m'.env == NO_ENVELOPE && m'.delivered == m.delivered && m'.auth == m.auth
    ensures Command(w, m, verb, arg).state == if verb == RSET && m.auth.authenticated then Authenticated else Greeted
  {
  }

  /** Authenticated, but before the gate: after EHLO, after a delivery or after QUIT. */
  predicate LockedOut(m: Machine) { m.auth.authenticated && m.auth.phase == Idle && !Inside(m.state) }

  predicate IsRset(line: Bytes) { line != [] && VerbOf(line) == RSET }

  lemma LineReenters(w: World, m: Machine, line: Bytes)
    requires LockedOut(m)
    ensures if IsRset(line) then Inside(Line(w, m, line).state) else LockedOut(Line(w, m, line))
  {
    if line != [] { CommandReenters(w, m, VerbOf(line), SmtpText.Rest(line)); }
  }

  lemma CommandReenters(w: World, m: Machine, verb: Verb, arg: Bytes)
    requires LockedOut(m)
    ensures var m' := Command(w, m, verb, arg); if verb == RSET then Inside(m'.state) else LockedOut(m')
  {
  }

  ghost predicate AnyInside(hs: seq<F.Handled<Machine>>) { exists x | x in hs :: Inside(x.after.state) }
  ghost predicate AnyRset(hs: seq<F.Handled<Machine>>) { exists x | x in hs :: IsRset(x.line) }

  lemma Together(a: seq<F.Handled<Machine>>, b: seq<F.Handled<Machine>>)
    ensures AnyInside(a + b) <==> AnyInside(a) || AnyInside(b)
    ensures AnyRset(a + b) <==> AnyRset(a) || AnyRset(b)
  {
    assert forall y :: y in a + b <==> y in a || y in b;
  }

  lemma Alone(x: F.Handled<Machine>)
    ensures AnyInside([x]) <==> Inside(x.after.state)
    ensures AnyRset([x]) <==> IsRset(x.line)
  {
    assert x in [x];
  }

  lemma {:induction false} ChunkReenters(w: World, r: F.Reader<Machine>, bytes: Bytes)
    requires LockedOut(r.m)
    ensures var hs := F.Commands(Behaviour(w), r, bytes);
      (AnyInside(hs) <==> AnyRset(hs)) && (!AnyRset(hs) ==> LockedOut(F.OnData(Behaviour(w), r, bytes).m))
    decreases |bytes|
  {
    if bytes != [] {
      var h, b := Behaviour(w), bytes[0];
      var r' := F.ReadByte(h, r, b);
      var rest := if F.Stops(h, r, b) then [] else F.Commands(h, r', bytes[1..]);
      if b == LF {
        var line := StripCR(r.buf);
        var x := F.Handled(r.m, line, r'.m);
        LineReenters(w, r.m, line);
        assert F.Commands(h, r, bytes) == [x] + rest;
        Alone(x);
        Together([x], rest);
        if !IsRset(line) && !F.Stops(h, r, b) { ChunkReenters(w, r', bytes[1..]); }
      } else {
        assert F.Commands(h, r, bytes) == [] + rest == rest;
        ChunkReenters(w, r', bytes[1..]);
      }
    }
  }

  /** From there, an authenticated user passes the gate again exactly when the run has an RSET line. */
  lemma {:induction false} ReentersIffRset(r: F.Reader<Machine>, es: seq<Event>)
    requires LockedOut(r.m)
    ensures AnyInside(RunLines(r, es)) <==> AnyRset(RunLines(r, es))
    decreases |es|
  {
    if es != [] && Possible(r.m, es[0]) {
      var first := if es[0].Chunk? then F.Commands(Behaviour(es[0].w), r, es[0].bytes) else [];
      Together(first, RunLines(Step(r, es[0]), es[1..]));
      if es[0].Chunk? { ChunkReenters(es[0].w, r, es[0].bytes); }
      if !AnyRset(first) { ReentersIffRset(Step(r, es[0]), es[1..]); }
    }
  }

  /** A delivery leaves its user there. */
  lemma DeliveryLocksOut(w: World, m: Machine, body: Bytes)
    requires Guarded(m) && m.state == Data && w.delivers(Delivery(m.auth.username, m.env, body), |m.replies|)
    ensures LockedOut(Deliver(w, m, body)) && forall arg :: AfterMail(Deliver(w, m, body), arg).replies == Deliver(w, m, body).replies + [530]
  {
  }

  /** One byte of mail data, with what delivery makes of a finished mail. */
  lemma DataByteLaw(w: World, r: F.Reader<Machine>, b: Byte)
    ensures var buf, tail := r.buf + [b], F.Last5(r.tail + [b]);
      F.DataByte(Behaviour(w), r, b) ==
        if tail == F.TERM && |buf| >= 5 then F.Reader(Deliver(w, r.m, buf[..|buf| - 5]), [], []) else F.Reader(r.m, buf, tail)
  {
  }

  // ----- the class

  class SubmissionServer {
    const sasl: SASLSession
    var state: State
    var env: Envelope
    var lineBuf: Bytes
    var dataTail: Bytes
    var pendingClose: bool
    var tlsUpgradePending: bool
    /** The loop's entry for this connection, and whether an exception has left on_data. */
    var tls: Tls
    var down: bool
    /** The reply codes handed to the loop, and the mails handed to deliver(). */
    var replies: seq<int>
    var delivered: seq<Delivery>

    ghost function Now(): Machine reads this, sasl {
      Machine(state, env, sasl.Abs(), tls, tlsUpgradePending, pendingClose, down, replies, delivered)
    }

    ghost function Abs(): F.Reader<Machine> reads this, sasl { F.Reader(Now(), lineBuf, dataTail) }

    ghost predicate Valid() reads this { dataTail == if state == Data then F.Last5(lineBuf) else [] }

    constructor ()
      ensures Valid() && Abs() == F.Reader(FRESH, [], []) && fresh(sasl)
    {
      sasl := new SASLSession();
      state, env, pendingClose, tlsUpgradePending, tls, down := Connected, NO_ENVELOPE, false, false, Plain, false;
      lineBuf, dataTail, replies, delivered := [], [], [220], [];
    }

    method OnData(w: World, bytes: Bytes)
      requires Valid()
      modifies this, sasl
      ensures Valid() && Abs() == F.OnData(Behaviour(w), old(Abs()), bytes)
    {
      var i, stopped := 0, false;
      ghost var h, whole := Behaviour(w), F.OnData(Behaviour(w), Abs(), bytes);
      assert bytes[0..] == bytes;
      while i < |bytes| && !stopped
        invariant 0 <= i <= |bytes| && Valid()
        invariant whole == if stopped then Abs() else F.OnData(h, Abs(), bytes[i..])
        decreases |bytes| - i
      {
        F.OnDataStep(h, Abs(), bytes, i);
        stopped := Consume(w, bytes[i], h);
        i := i + 1;
      }
    }

    method Consume(w: World, b: Byte, ghost h: F.Handlers<Machine>) returns (stopped: bool)
      requires Valid() && h == Behaviour(w)
      modifies this, sasl
      ensures Valid() && stopped == F.Stops(h, old(Abs()), b) && Abs() == F.Next(h, old(Abs()), b)
    {
      stopped := false;
      if state == Data { DataByte(w, b); } else { stopped := LineByte(w, b); }
    }

    method DataByte(w: World, b: Byte)
      requires Valid() && state == Data
      modifies this
      ensures Valid() && Abs() == F.DataByte(Behaviour(w), old(Abs()), b)
    {
      DataByteLaw(w, Abs(), b);
      lineBuf, dataTail := F.Slide(lineBuf, dataTail, b);
      if dataTail == F.TERM {
        var body := lineBuf[..|lineBuf| - 5];
        lineBuf, dataTail := [], [];
        FinishMail(w, body);
      }
    }

    method FinishMail(w: World, body: Bytes)
      requires state == Data && lineBuf == [] && dataTail == []
      modifies this
      ensures lineBuf == [] && dataTail == [] && Now() == Deliver(w, old(Now()), body)
    {
      var d := Delivery(sasl.username, env, body);
      delivered := delivered + [d];
      if w.delivers(d, |replies|) {
        replies, state, env := replies + [250], Greeted, NO_ENVELOPE;
      } else {
        replies := replies + [452];
      }
    }

    method LineByte(w: World, b: Byte) returns (stopped: bool)
      requires Valid() && state != Data
      modifies this, sasl
      ensures Valid() && stopped == F.Stops(Behaviour(w), old(Abs()), b)
      ensures var r := F.LineByte(Behaviour(w), old(Abs()), b);
        Abs() == if stopped then r.(m := r.m.(upgrading := false)) else r
    {
      stopped := false;
      if b == LF {
        ProcessLine(w, StripCR(lineBuf));
        lineBuf := [];
        if tlsUpgradePending || down { tlsUpgradePending, stopped := false, true; }
      } else {
        lineBuf := lineBuf + [b];
        if |lineBuf| > F.MAX_LINE { replies, lineBuf := replies + [500], []; }
      }
    }

    /** Commands leave the window empty, and DATA starts with an empty buffer. */
    ghost predicate Settled() reads this { dataTail == [] && (state == Data ==> lineBuf == []) }

    method ProcessLine(w: World, line: Bytes)
      requires dataTail == [] && state != Data
      modifies this, sasl
      ensures Settled() && Now() == Line(w, old(Now()), line)
    {
      if sasl.phase != Idle {
        Continue(w, line);
      } else if line != [] {
        var verb, arg := VerbOf(line), SmtpText.Rest(line);
        if verb == AUTH { CmdAuth(w, arg); } else { OtherCommand(w, verb, arg); }
      }
    }

    /** A line while an exchange is in progress. */
    method Continue(w: World, line: Bytes)
      requires dataTail == [] && state != Data
      modifies this, sasl
      ensures Settled() && Now() == AfterResponse(w, old(Now()), line)
    {
      var code := sasl.Respond(w.store, line, tls == Active);
      replies := replies + [code];
      if code == 235 { state := Authenticated; }
    }

    method CmdAuth(w: World, arg: Bytes)
      requires dataTail == [] && state != Data
      modifies this, sasl
      ensures Settled() && Now() == AfterAuth(w, old(Now()), arg)
    {
      if tls != Active {
        replies := replies + [538];
      } else if state != Greeted {
        replies := replies + [503];
      } else {
        var code := sasl.Begin(w.store, FirstWord(arg), SmtpText.Rest(arg), true);
        replies := replies + [code];
        if code == 235 { state := Authenticated; }
      }
    }

    method OtherCommand(w: World, verb: Verb, arg: Bytes)
      requires dataTail == [] && state != Data
      modifies this
      ensures Settled() && Now() == Other(w, old(Now()), verb, arg)
    {
      match verb {
        case EHLO => CmdHelo();
        case HELO => CmdHelo();
        case MAIL => CmdMail(arg);
        case RCPT => CmdRcpt(w, arg);
        case DATA => CmdData();
        case RSET => CmdRset();
        case NOOP => replies := replies + [250];
        case QUIT => CmdQuit();
        case VRFY => replies := replies + [502];
        case STARTTLS => CmdStarttls(w);
        case _ => replies := replies + [500];
      }
    }

    method CmdHelo()
      requires dataTail == []
      modifies this
      ensures Settled() && Now() == AfterHelo(old(Now()))
    {
      env, state, replies := NO_ENVELOPE, Greeted, replies + [250];
    }

    method CmdMail(arg: Bytes)
      requires dataTail == [] && state != Data
      modifies this
      ensures Settled() && Now() == AfterMail(old(Now()), arg)
    {
      if state != Authenticated {
        replies := replies + [if state == Greeted then 530 else 503];
      } else if |arg| < 5 {
        down := true;
      } else if !IsFrom(arg) {
        replies := replies + [501];
      } else {
        env, state, replies := env.(mailFrom := Address(arg[5..])), Mail, replies + [250];
      }
    }

    method CmdRcpt(w: World, arg: Bytes)
      requires dataTail == [] && state != Data
      modifies this
      ensures Settled() && Now() == AfterRcpt(w, old(Now()), arg)
    {
      if state != Mail && state != Rcpt {
        replies := replies + [503];
      } else if !IsTo(arg) {
        replies := replies + [501];
      } else {
        var addr := Address(arg[3..]);
        if addr == [] {
          replies := replies + [501];
        } else if |env.rcptTo| >= 100 {
          replies := replies + [452];
        } else if !w.accepts(addr, |replies|) {
          replies := replies + [550];
        } else {
          env, state, replies := env.(rcptTo := env.rcptTo + [addr]), Rcpt, replies + [250];
        }
      }
    }

    method CmdData()
      requires dataTail == [] && state != Data
      modifies this
      ensures Settled() && Now() == AfterData(old(Now()))
    {
      if state != Rcpt {
        replies := replies + [503];
      } else {
        replies, state, lineBuf, dataTail := replies + [354], Data, [], [];
      }
    }

    method CmdRset()
      requires dataTail == []
      modifies this
      ensures Settled() && Now() == AfterRset(old(Now()))
    {
      env, state, replies := NO_ENVELOPE, if sasl.authenticated then Authenticated else Greeted, replies + [250];
    }

    method CmdQuit()
      requires dataTail == []
      modifies this
      ensures Settled() && Now() == AfterQuit(old(Now()))
    {
      replies, state, pendingClose := replies + [221], Done, true;
    }

    method CmdStarttls(w: World)
      requires dataTail == [] && state != Data
      modifies this
      ensures Settled() && Now() == AfterStarttls(w, old(Now()))
    {
      if tlsUpgradePending || tls == Active {
        replies := replies + [503];
      } else {
        replies, env, state, lineBuf, tlsUpgradePending := replies + [220], NO_ENVELOPE, Greeted, [], true;
        if w.tlsContext { tls := Handshaking; }
      }
    }
  }
}
