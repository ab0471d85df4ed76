/** The session of the mail exchange port (src/smtp/smtp_session.cpp). */
module SmtpSession {
  import opened Common
  import opened SmtpText
  import opened F = SmtpFraming

  datatype State = Connected | Greeted | Mail | Rcpt | Data | Done
  datatype Envelope = Envelope(mailFrom: Bytes, rcptTo: seq<Bytes>)
  /** What deliver() was given. */
  datatype Delivery = Delivery(env: Envelope, body: Bytes)

  const NO_ENVELOPE := Envelope([], [])

  /** `replies` are the codes sent, `delivered` the calls of deliver(). */
  datatype Machine = Machine(state: State, env: Envelope, pendingClose: bool, upgrading: bool, replies: seq<int>, delivered: seq<Delivery>)

  /** What the session asks of others: TLS, the recipient checks, and delivery. The answers may change from one call to the next. */
  datatype World = World(tlsActive: bool, accepts: (Bytes, nat) -> bool, delivers: (Delivery, nat) -> bool)

  const FRESH := Machine(Greeted, NO_ENVELOPE, false, false, [220], [])

  function Reply(m: Machine, code: int): Machine { m.(replies := m.replies + [code]) }

  function AfterHelo(m: Machine): Machine { Reply(m.(env := NO_ENVELOPE, state := Greeted), 250) }

  function AfterMail(m: Machine, arg: Bytes): Machine {
    if m.state != Greeted then Reply(m, 503)
    else if !IsFrom(arg) || Address(arg[5..]) == [] then Reply(m, 501)
    else Reply(m.(env := m.env.(mailFrom := Address(arg[5..])), state := Mail), 250)
  }

  function AfterRcpt(w: World, m: Machine, arg: Bytes): Machine {
    if m.state != Mail && m.state != Rcpt then Reply(m, 503)
    else if !IsTo(arg) then Reply(m, 501)
    else AfterRecipient(w, m, Address(arg[3..]))
  }

  function AfterRecipient(w: World, m: Machine, addr: Bytes): Machine {
    if addr == [] then Reply(m, 501)
    else if |m.env.rcptTo| >= 100 then Reply(m, 452)
    else if !w.accepts(addr, |m.replies|) then Reply(m, 550)
    else Reply(m.(env := m.env.(rcptTo := m.env.rcptTo + [addr]), state := Rcpt), 250)
  }

  function AfterData(m: Machine): Machine { if m.state != Rcpt then Reply(m, 503) else Reply(m.(state := Data), 354) }

  function AfterRset(m: Machine): Machine { Reply(m.(env := NO_ENVELOPE, state := Greeted), 250) }

  function AfterQuit(m: Machine): Machine { Reply(m.(state := Done, pendingClose := true), 221) }

  function AfterStarttls(w: World, m: Machine): Machine {
    if m.state == Data || m.upgrading || w.tlsActive then Reply(m, 503)
    else Reply(m.(env := NO_ENVELOPE, state := Greeted, upgrading := true), 220)
  }

  function Command(w: World, m: Machine, verb: Verb, arg: Bytes): Machine {
    match verb
    case EHLO => AfterHelo(m)
    case HELO => AfterHelo(m)
    case MAIL => AfterMail(m, arg)
    case RCPT => AfterRcpt(w, m, arg)
    case DATA => AfterData(m)
    case RSET => AfterRset(m)
    case NOOP => Reply(m, 250)
    case QUIT => AfterQuit(m)
    case STARTTLS => AfterStarttls(w, m)
    case _ => Reply(m, 500)
  }

  function Line(w: World, m: Machine, line: Bytes): Machine {
    if line == [] then m else Command(w, m, VerbOf(line), Rest(line))
  }

  /** A finished mail: after a failed delivery the session stays in data mode. */
  function Deliver(w: World, m: Machine, body: Bytes): Machine {
    var d := Delivery(m.env, body);
    var m' := m.(delivered := m.delivered + [d]);
    if w.delivers(d, |m.replies|) then Reply(m'.(state := Greeted, env := NO_ENVELOPE), 250) else Reply(m', 452)
  }

  function Behaviour(w: World): F.Handlers<Machine> {
    F.Handlers(
      (m, line) => Line(w, m, line), (m, body) => Deliver(w, m, body), (m: Machine) => Reply(m, 500),
      (m: Machine) => m.state == Data, (m: Machine) => m.upgrading, (m: Machine) => m.(upgrading := false))
  }

  // ----- what is delivered

  predicate Complete(env: Envelope) { env.mailFrom != [] && 1 <= |env.rcptTo| <= 100 }

  predicate Ready(m: Machine) {
    (m.state.Mail? || m.state.Rcpt? || m.state.Data? ==> m.env.mailFrom != []) && |m.env.rcptTo| <= 100 &&
    (m.state.Rcpt? || m.state.Data? ==> m.env.rcptTo != []) && (m.state.Greeted? ==> m.env == NO_ENVELOPE) &&
    forall d | d in m.delivered :: Complete(d.env)
  }

  lemma LineKeeps(w: World, m: Machine, line: Bytes)
    requires Ready(m)
    ensures Ready(Line(w, m, line))
  {
    if line != [] { CommandKeeps(w, m, VerbOf(line), Rest(line)); }
  }

  lemma CommandKeeps(w: World, m: Machine, verb: Verb, arg: Bytes)
    requires Ready(m)
    ensures Ready(Command(w, m, verb, arg))
  {
    if verb == RCPT && IsTo(arg) { RecipientKeeps(w, m, Address(arg[3..])); }
  }

  lemma RecipientKeeps(w: World, m: Machine, addr: Bytes)
    requires Ready(m)
    ensures m.state == Mail || m.state == Rcpt ==> Ready(AfterRecipient(w, m, addr))
  {
  }

  lemma DeliverKeeps(w: World, m: Machine, body: Bytes)
    requires Ready(m) && m.state == Data
    ensures Ready(Deliver(w, m, body))
  {
    var d := Delivery(m.env, body);
    assert forall e | e in m.delivered + [d] :: e == d || e in m.delivered;
  }

  lemma SessionKeeps(w: World)
    ensures F.Keeps(Behaviour(w), Ready)
  {
    var h := Behaviour(w);
    forall m, line | Ready(m) ensures Ready(h.line(m, line)) { LineKeeps(w, m, line); }
    forall m, body | Ready(m) && h.inData(m) ensures Ready(h.mail(m, body)) { DeliverKeeps(w, m, body); }
  }

  /** A connection: chunks of bytes, each with the world in which it arrives. */
  function Run(r: F.Reader<Machine>, chunks: seq<(World, Bytes)>): F.Reader<Machine>
    decreases |chunks|
  {
    if chunks == [] then r else Run(F.OnData(Behaviour(chunks[0].0), r, chunks[0].1), chunks[1..])
  }

  ghost predicate Good(r: F.Reader<Machine>) {
    Ready(r.m) && !r.m.upgrading && (if r.m.state == Data then F.Termless(r.buf) && r.tail == F.Last5(r.buf) else r.tail == [])
  }

  /** Between chunks the TLS flag is never left set. */
  lemma {:induction false} FlagCleared(w: World, r: F.Reader<Machine>, bytes: Bytes)
    requires !r.m.upgrading
    ensures !F.OnData(Behaviour(w), r, bytes).m.upgrading
    decreases |bytes|
  {
    if bytes != [] {
      var r' := F.ReadByte(Behaviour(w), r, bytes[0]);
      if !F.Stops(Behaviour(w), r, bytes[0]) { FlagCleared(w, r', bytes[1..]); }
    }
  }

  lemma {:induction false} RunKeeps(r: F.Reader<Machine>, chunks: seq<(World, Bytes)>)
    requires Good(r)
    ensures Good(Run(r, chunks))
    decreases |chunks|
  {
    if chunks != [] {
      var (w, bytes) := chunks[0];
      var h := Behaviour(w);
      SessionKeeps(w);
      F.MachineKept(h, Ready, r, bytes);
      assert F.Framed(h, r);
      F.FramedKept(h, r, bytes);
      FlagCleared(w, r, bytes);
      RunKeeps(F.OnData(h, r, bytes), chunks[1..]);
    }
  }

  /**
   On every connection deliver() runs only with a sender and 1 to 100 recipients, the window is the end of the data
   buffer, and no chunk leaves the TLS flag set.
   */
  lemma EveryConnection(chunks: seq<(World, Bytes)>)
    ensures var r := Run(F.Reader(FRESH, [], []), chunks);
      (forall d | d in r.m.delivered :: Complete(d.env)) && (r.m.state == Greeted ==> r.m.env == NO_ENVELOPE) && !r.m.upgrading && r.tail == if r.m.state == Data then F.Last5(r.buf) else []
  {
    assert forall j: nat :: !F.TermAt([], j);
    RunKeeps(F.Reader(FRESH, [], []), chunks);
  }

  /**
   In data mode the next mail is what stands before the first CRLF.CRLF, counted from the start of data or from the
   last failed delivery.
   */
  lemma BodyDelivered(w: World, r: F.Reader<Machine>, s: Bytes, k: nat)
    requires Good(r) && r.m.state == Data && F.FirstTermAt(r.buf + s, k)
    ensures var h, data := Behaviour(w), r.buf + s;
      F.OnData(h, r, s) == F.OnData(h, F.Reader(Deliver(w, r.m, data[..k]), [], []), data[k + 5..])
  {
    F.DataEndsAtFirstTerm(Behaviour(w), r.m, r.buf, s, k);
  }

  /** Without one nothing is delivered. */
  lemma NothingDelivered(w: World, r: F.Reader<Machine>, s: Bytes)
    requires Good(r) && r.m.state == Data && F.Termless(r.buf + s)
    ensures F.OnData(Behaviour(w), r, s).m == r.m
  {
    F.DataCollects(Behaviour(w), r.m, r.buf, s);
  }

  // ----- a whole dialogue

  /** The recipients that are accepted, asked one by one from a point in time on. */
  function AcceptedOnes(w: World, rs: seq<Bytes>, clock: nat): seq<Bytes> {
    if rs == [] then [] else (if w.accepts(rs[0], clock) then [rs[0]] else []) + AcceptedOnes(w, rs[1..], clock + 1)
  }

  function RcptCodes(w: World, rs: seq<Bytes>, clock: nat): seq<int> {
    if rs == [] then [] else [if w.accepts(rs[0], clock) then 250 else 550] + RcptCodes(w, rs[1..], clock + 1)
  }

  function RcptLines(rs: seq<Bytes>): Bytes { if rs == [] then [] else RcptText(rs[0]) + [CR, LF] + RcptLines(rs[1..]) }

  predicate AllMailable(rs: seq<Bytes>) { forall i :: 0 <= i < |rs| ==> Mailable(rs[i]) }

  lemma LineRuns(w: World, m: Machine, line: Bytes, m': Machine, rest: Bytes)
    requires m.state != Data && Line(w, m, line) == m' && !m'.upgrading && LF !in line && |line| < 2000
    ensures F.OnData(Behaviour(w), F.Reader(m, [], []), line + [CR, LF] + rest) == F.OnData(Behaviour(w), F.Reader(m', [], []), rest)
  {
    F.CrlfLine(Behaviour(w), m, line, rest);
  }

  lemma MailStep(w: World, m: Machine, sender: Bytes, rest: Bytes)
    requires m.state == Greeted && !m.upgrading && Mailable(sender)
    ensures F.OnData(Behaviour(w), F.Reader(m, [], []), MailText(sender) + [CR, LF] + rest) ==
      F.OnData(Behaviour(w), F.Reader(Reply(m.(env := m.env.(mailFrom := sender), state := Mail), 250), [], []), rest)
  {
    MailLine(w, m, sender);
    MailFits(sender);
    LineRuns(w, m, MailText(sender), Reply(m.(env := m.env.(mailFrom := sender), state := Mail), 250), rest);
  }

  lemma MailLine(w: World, m: Machine, sender: Bytes)
    requires m.state == Greeted && Mailable(sender)
    ensures Line(w, m, MailText(sender)) == Reply(m.(env := m.env.(mailFrom := sender), state := Mail), 250)
  {
    MailTextRead(sender);
    FromRead(sender);
    MailFits(sender);
  }

  lemma RcptStep(w: World, m: Machine, r: Bytes, rest: Bytes)
    requires (m.state == Mail || m.state == Rcpt) && !m.upgrading && Mailable(r)
    ensures F.OnData(Behaviour(w), F.Reader(m, [], []), RcptText(r) + [CR, LF] + rest) ==
      F.OnData(Behaviour(w), F.Reader(AfterRecipient(w, m, r), [], []), rest)
  {
    RcptLine(w, m, r);
    RcptFits(r);
    LineRuns(w, m, RcptText(r), AfterRecipient(w, m, r), rest);
  }

  lemma RcptLine(w: World, m: Machine, r: Bytes)
    requires (m.state == Mail || m.state == Rcpt) && Mailable(r)
    ensures Line(w, m, RcptText(r)) == AfterRecipient(w, m, r)
  {
    RcptTextRead(r);
    ToRead(r);
    RcptFits(r);
  }

  lemma DataStep(w: World, m: Machine, rest: Bytes)
    requires m.state == Rcpt && !m.upgrading
    ensures F.OnData(Behaviour(w), F.Reader(m, [], []), DATA_WORD + [CR, LF] + rest) ==
      F.OnData(Behaviour(w), F.Reader(Reply(m.(state := Data), 354), [], []), rest)
  {
    DataRead();
    assert Line(w, m, DATA_WORD) == AfterData(m);
    LineRuns(w, m, DATA_WORD, Reply(m.(state := Data), 354), rest);
  }

  /** The session after a list of recipients: the accepted ones follow those before, in order. */
  function Addressed(m: Machine, accepted: seq<Bytes>, codes: seq<int>): Machine {
    m.(env := m.env.(rcptTo := m.env.rcptTo + accepted), state := if accepted == [] then m.state else Rcpt, replies := m.replies + codes)
  }

  lemma AddressedNothing(m: Machine)
    ensures Addressed(m, [], []) == m
  {
    assert m.env.rcptTo + [] == m.env.rcptTo && m.replies + [] == m.replies;
  }

  lemma AddressedInTurn(m: Machine, a: seq<Bytes>, c: seq<int>, b: seq<Bytes>, d: seq<int>)
    ensures Addressed(Addressed(m, a, c), b, d) == Addressed(m, a + b, c + d)
  {
    Assoc(m.env.rcptTo, a, b);
    Assoc(m.replies, c, d);
  }

  lemma RecipientAddressed(w: World, m: Machine, r: Bytes)
    requires r != [] && |m.env.rcptTo| < 100
    ensures AfterRecipient(w, m, r) == if w.accepts(r, |m.replies|) then Addressed(m, [r], [250]) else Addressed(m, [], [550])
  {
    assert m.env.rcptTo + [] == m.env.rcptTo;
  }

  lemma {:induction false} RcptsRead(w: World, m: Machine, rs: seq<Bytes>, rest: Bytes)
    requires (m.state == Mail || m.state == Rcpt) && !m.upgrading && AllMailable(rs) && |m.env.rcptTo| + |rs| <= 100
    ensures F.OnData(Behaviour(w), F.Reader(m, [], []), RcptLines(rs) + rest) ==
      F.OnData(Behaviour(w), F.Reader(Addressed(m, AcceptedOnes(w, rs, |m.replies|), RcptCodes(w, rs, |m.replies|)), [], []), rest)
    decreases |rs|
  {
    if rs == [] {
      assert [] + rest == rest;
      AddressedNothing(m);
    } else {
      var r, more, clock := rs[0], rs[1..], |m.replies|;
      var ok := w.accepts(r, clock);
      var one, code := if ok then [r] else [], if ok then [250] else [550];
      var m' := Addressed(m, one, code);
      Assoc(RcptText(r) + [CR, LF], RcptLines(more), rest);
      RecipientAddressed(w, m, r);
      RcptStep(w, m, r, RcptLines(more) + rest);
      RcptsRead(w, m', more, rest);
      AddressedInTurn(m, one, code, AcceptedOnes(w, more, clock + 1), RcptCodes(w, more, clock + 1));
    }
  }

  function Dialogue(sender: Bytes, rs: seq<Bytes>, body: Bytes): Bytes {
    MailText(sender) + [CR, LF] + (RcptLines(rs) + (DATA_WORD + [CR, LF] + (body + F.TERM)))
  }

  /**
   A greeted session that is given a sender, up to 100 recipients and a body delivers exactly this mail: the sender, the
   recipients that are accepted, in order and no others, and the body.
   */
  lemma DialogueDelivers(w: World, m: Machine, sender: Bytes, rs: seq<Bytes>, body: Bytes)
    requires m.state == Greeted && m.env == NO_ENVELOPE && !m.upgrading
    requires Mailable(sender) && AllMailable(rs) && |rs| <= 100 && F.FirstTermAt(body + F.TERM, |body|)
    requires AcceptedOnes(w, rs, |m.replies| + 1) != []
    ensures var r := F.OnData(Behaviour(w), F.Reader(m, [], []), Dialogue(sender, rs, body));
      var d := Delivery(Envelope(sender, AcceptedOnes(w, rs, |m.replies| + 1)), body);
      var codes := m.replies + [250] + RcptCodes(w, rs, |m.replies| + 1) + [354];
      r.m.delivered == m.delivered + [d] && r.buf == [] && r.tail == [] &&
      if w.delivers(d, |codes|) then r.m.state == Greeted && r.m.env == NO_ENVELOPE && r.m.replies == codes + [250]
      else r.m.state == Data && r.m.replies == codes + [452]
  {
    DialogueReads(w, m, sender, rs, body);
    var accepted, codes := AcceptedOnes(w, rs, |m.replies| + 1), RcptCodes(w, rs, |m.replies| + 1);
    assert [] + accepted == accepted;
  }

  /** The session before the body. */
  function Collecting(m: Machine, sender: Bytes, accepted: seq<Bytes>, codes: seq<int>): Machine {
    Reply(Addressed(Reply(m.(env := m.env.(mailFrom := sender), state := Mail), 250), accepted, codes).(state := Data), 354)
  }

  lemma DialogueReads(w: World, m: Machine, sender: Bytes, rs: seq<Bytes>, body: Bytes)
    requires m.state == Greeted && m.env.rcptTo == [] && !m.upgrading
    requires Mailable(sender) && AllMailable(rs) && |rs| <= 100 && F.FirstTermAt(body + F.TERM, |body|)
    requires AcceptedOnes(w, rs, |m.replies| + 1) != []
    ensures var clock := |m.replies| + 1;
      F.OnData(Behaviour(w), F.Reader(m, [], []), Dialogue(sender, rs, body)) ==
      F.Reader(Deliver(w, Collecting(m, sender, AcceptedOnes(w, rs, clock), RcptCodes(w, rs, clock)), body), [], [])
  {
    var m1 := Reply(m.(env := m.env.(mailFrom := sender), state := Mail), 250);
    AddressesRead(w, m, sender, rs, DATA_WORD + [CR, LF] + (body + F.TERM));
    DataDelivers(w, Addressed(m1, AcceptedOnes(w, rs, |m1.replies|), RcptCodes(w, rs, |m1.replies|)), body);
  }

  lemma AddressesRead(w: World, m: Machine, sender: Bytes, rs: seq<Bytes>, rest: Bytes)
    requires m.state == Greeted && m.env.rcptTo == [] && !m.upgrading
    requires Mailable(sender) && AllMailable(rs) && |rs| <= 100
    ensures var m1 := Reply(m.(env := m.env.(mailFrom := sender), state := Mail), 250);
      F.OnData(Behaviour(w), F.Reader(m, [], []), MailText(sender) + [CR, LF] + (RcptLines(rs) + rest)) ==
      F.OnData(Behaviour(w), F.Reader(Addressed(m1, AcceptedOnes(w, rs, |m1.replies|), RcptCodes(w, rs, |m1.replies|)), [], []), rest)
  {
    MailStep(w, m, sender, RcptLines(rs) + rest);
    RcptsRead(w, Reply(m.(env := m.env.(mailFrom := sender), state := Mail), 250), rs, rest);
  }

  lemma DataDelivers(w: World, m: Machine, body: Bytes)
    requires m.state == Rcpt && !m.upgrading && F.FirstTermAt(body + F.TERM, |body|)
    ensures F.OnData(Behaviour(w), F.Reader(m, [], []), DATA_WORD + [CR, LF] + (body + F.TERM)) ==
      F.Reader(Deliver(w, Reply(m.(state := Data), 354), body), [], [])
  {
    DataStep(w, m, body + F.TERM);
    MailFinished(w, Reply(m.(state := Data), 354), body);
  }

  lemma MailFinished(w: World, m: Machine, body: Bytes)
    requires m.state == Data && F.FirstTermAt(body + F.TERM, |body|)
    ensures F.OnData(Behaviour(w), F.Reader(m, [], []), body + F.TERM) == F.Reader(Deliver(w, m, body), [], [])
  {
    F.DataIsWhole(Behaviour(w), m, body + F.TERM);
    assert (body + F.TERM)[..|body|] == body;
  }

  /** Section 4.1.4 of RFC 5321: a transaction is MAIL, then RCPT, then DATA; TLS is started once, and not during data. */
  predicate OutOfOrder(w: World, m: Machine, verb: Verb) {
    match verb
    case MAIL => m.state != Greeted
    case RCPT => m.state != Mail && m.state != Rcpt
    case DATA => m.state != Rcpt
    case STARTTLS => m.state == Data || m.upgrading || w.tlsActive
    case _ => false
  }

  /** 503 is answered exactly to commands out of order, and they change nothing. */
  lemma OutOfOrderIff(w: World, m: Machine, verb: Verb, arg: Bytes)
    ensures Command(w, m, verb, arg) == Reply(m, 503) <==> OutOfOrder(w, m, verb)
  {
    assert |m.replies + [503]| != |m.replies|;
    var c := Command(w, m, verb, arg);
    assert (m.replies + [503])[|m.replies|] == 503;
    if !OutOfOrder(w, m, verb) { assert |c.replies| > |m.replies| ==> c.replies[|m.replies|] != 503; }
  }

  /** EHLO, HELO and RSET forget what was said before, and so does a STARTTLS that is accepted. */
  lemma Forgets(w: World, m: Machine, verb: Verb, arg: Bytes)
    requires verb == EHLO || verb == HELO || verb == RSET || (verb == STARTTLS && m.state != Data && !m.upgrading && !w.tlsActive)
    ensures var m' := Command(w, m, verb, arg); m'.state == Greeted && m'.env == NO_ENVELOPE && m'.delivered == m.delivered
  {
  }

  /** Without STARTTLS all that a connection delivers is a function of its byte stream, read mail by mail and line by line. */
  lemma DeliveredFromStream(w: World, chunks: seq<Bytes>)
    requires F.Unbroken(Behaviour(w), F.Reader(FRESH, [], []), F.Flat(chunks))
    ensures F.OnChunks(Behaviour(w), F.Reader(FRESH, [], []), chunks).m.delivered == F.Whole(Behaviour(w), FRESH, F.Flat(chunks)).m.delivered
  {
    F.ChunksMakeWhole(Behaviour(w), FRESH, chunks);
  }

  /** One byte of mail data, with what delivery makes of a finished mail. */
  lemma DataByteLaw(w: World, r: F.Reader<Machine>, b: Byte)
    ensures var buf, tail := r.buf + [b], F.Last5(r.tail + [b]);
      F.DataByte(Behaviour(w), r, b) ==
        if tail == F.TERM && |buf| >= 5 then F.Reader(Deliver(w, r.m, buf[..|buf| - 5]), [], []) else F.Reader(r.m, buf, tail)
  {
  }

  // ----- the class

  class Session {
    var state: State
    var env: Envelope
    var pendingClose: bool
    var tlsUpgradePending: bool
    var lineBuf: Bytes
    var dataTail: Bytes
    /** The reply codes handed to the loop, and the mails handed to deliver(). */
    var replies: seq<int>
    var delivered: seq<Delivery>

    ghost function Now(): Machine reads this { Machine(state, env, pendingClose, tlsUpgradePending, replies, delivered) }

    ghost function Abs(): F.Reader<Machine> reads this { F.Reader(Now(), lineBuf, dataTail) }

    ghost predicate Valid() reads this { dataTail == if state == Data then F.Last5(lineBuf) else [] }

    constructor ()
      ensures Valid() && Abs() == F.Reader(FRESH, [], [])
    {
      state, env, pendingClose, tlsUpgradePending := Greeted, NO_ENVELOPE, false, false;
      lineBuf, dataTail, replies, delivered := [], [], [220], [];
    }

    method OnData(w: World, bytes: Bytes)
      requires Valid()
      modifies this
      ensures Valid() && Abs() == F.OnData(Behaviour(w), old(Abs()), bytes)
    {
      var i, stopped := 0, false;
      ghost var h, whole := Behaviour(w), F.OnData(Behaviour(w), Abs(), bytes);
      assert bytes[0..] == bytes;
      while i < |bytes| && !stopped
        invariant 0 <= i <= |bytes| && Valid()
        invariant whole == if stopped then Abs() else F.OnData(h, Abs(), bytes[i..])
        decreases |bytes| - i
      {
        F.OnDataStep(h, Abs(), bytes, i);
        stopped := Consume(w, bytes[i], h);
        i := i + 1;
      }
    }

    method Consume(w: World, b: Byte, ghost h: F.Handlers<Machine>) returns (stopped: bool)
      requires Valid() && h == Behaviour(w)
      modifies this
      ensures Valid() && stopped == F.Stops(h, old(Abs()), b) && Abs() == F.Next(h, old(Abs()), b)
    {
      stopped := false;
      if state == Data { DataByte(w, b); } else { stopped := LineByte(w, b); }
    }

    method DataByte(w: World, b: Byte)
      requires Valid() && state == Data
      modifies this
      ensures Valid() && Abs() == F.DataByte(Behaviour(w), old(Abs()), b)
    {
      DataByteLaw(w, Abs(), b);
      lineBuf, dataTail := F.Slide(lineBuf, dataTail, b);
      if dataTail == F.TERM {
        var body := lineBuf[..|lineBuf| - 5];
        lineBuf, dataTail := [], [];
        FinishMail(w, body);
      }
    }

    method FinishMail(w: World, body: Bytes)
      requires state == Data && lineBuf == [] && dataTail == []
      modifies this
      ensures lineBuf == [] && dataTail == [] && Now() == Deliver(w, old(Now()), body)
    {
      var d := Delivery(env, body);
      delivered := delivered + [d];
      if w.delivers(d, |replies|) {
        replies, state, env := replies + [250], Greeted, NO_ENVELOPE;
      } else {
        replies := replies + [452];
      }
    }

    method LineByte(w: World, b: Byte) returns (stopped: bool)
      requires Valid() && state != Data
      modifies this
      ensures Valid() && stopped == F.Stops(Behaviour(w), old(Abs()), b)
      ensures var r := F.LineByte(Behaviour(w), old(Abs()), b);
        Abs() == if stopped then r.(m := r.m.(upgrading := false)) else r
    {
      stopped := false;
      if b == LF {
        ProcessLine(w, StripCR(lineBuf));
        lineBuf := [];
        if tlsUpgradePending { tlsUpgradePending, stopped := false, true; }
      } else {
        lineBuf := lineBuf + [b];
        if |lineBuf| > F.MAX_LINE { replies, lineBuf := replies + [500], []; }
      }
    }

    /** The window is only touched by DATA, which clears it. */
    ghost predicate Settled() reads this { dataTail == [] && (state == Data ==> lineBuf == []) }

    method ProcessLine(w: World, line: Bytes)
      requires dataTail == [] && state != Data
      modifies this
      ensures Settled() && Now() == Line(w, old(Now()), line)
    {
      if line != [] {
        var arg := Rest(line);
        match VerbOf(line) {
          case EHLO => CmdHelo();
          case HELO => CmdHelo();
          case MAIL => CmdMail(arg);
          case RCPT => CmdRcpt(w, arg);
          case DATA => CmdData();
          case RSET => CmdRset();
          case NOOP => replies := replies + [250];
          case QUIT => CmdQuit();
          case STARTTLS => CmdStarttls(w);
          case _ => replies := replies + [500];
        }
      }
    }

    method CmdHelo()
      requires dataTail == []
      modifies this
      ensures Settled() && Now() == AfterHelo(old(Now()))
    {
      env, state, replies := NO_ENVELOPE, Greeted, replies + [250];
    }

    method CmdMail(arg: Bytes)
      requires dataTail == [] && state != Data
      modifies this
      ensures Settled() && Now() == AfterMail(old(Now()), arg)
    {
      if state != Greeted {
        replies := replies + [503];
      } else if !IsFrom(arg) {
        replies := replies + [501];
      } else {
        var addr := Address(arg[5..]);
        if addr == [] {
          replies := replies + [501];
        } else {
          env, state, replies := env.(mailFrom := addr), Mail, replies + [250];
        }
      }
    }

    method CmdRcpt(w: World, arg: Bytes)
      requires dataTail == [] && state != Data
      modifies this
      ensures Settled() && Now() == AfterRcpt(w, old(Now()), arg)
    {
      if state != Mail && state != Rcpt {
        replies := replies + [503];
      } else if !IsTo(arg) {
        replies := replies + [501];
      } else {
        var addr := Address(arg[3..]);
        if addr == [] {
          replies := replies + [501];
        } else if |env.rcptTo| >= 100 {
          replies := replies + [452];
        } else if !w.accepts(addr, |replies|) {
          replies := replies + [550];
        } else {
          env, state, replies := env.(rcptTo := env.rcptTo + [addr]), Rcpt, replies + [250];
        }
      }
    }

    method CmdData()
      requires dataTail == [] && state != Data
      modifies this
      ensures Settled() && Now() == AfterData(old(Now()))
    {
      if state != Rcpt {
        replies := replies + [503];
      } else {
        replies, state, lineBuf, dataTail := replies + [354], Data, [], [];
      }
    }

    method CmdRset()
      requires dataTail == []
      modifies this
      ensures Settled() && Now() == AfterRset(old(Now()))
    {
      env, state, replies := NO_ENVELOPE, Greeted, replies + [250];
    }

    method CmdQuit()
      requires dataTail == []
      modifies this
      ensures Settled() && Now() == AfterQuit(old(Now()))
    {
      replies, state, pendingClose := replies + [221], Done, true;
    }

    method CmdStarttls(w: World)
      requires dataTail == [] && state != Data
      modifies this
      ensures Settled() && Now() == AfterStarttls(w, old(Now()))
    {
      if tlsUpgradePending || w.tlsActive {
        replies := replies + [503];
      } else {
        replies, env, state, lineBuf, tlsUpgradePending := replies + [220], NO_ENVELOPE, Greeted, [], true;
      }
    }
  }
}
