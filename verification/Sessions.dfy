/**
 The sessions as the io_uring loop sees them: what on_data does to its connection is a list of actions. Each connection
 keeps its session from accept on, and none of the three sessions returns from on_data with its TLS flag set, so the
 loop's progress needs no assumption about sessions.
 */
module Sessions {
  import opened Common
  import C = Connection
  import L = EventLoop
  import F = SmtpFraming
  import Smtp = SmtpSession
  import Sub = Submission
  import Imap = ImapLiteral

  /** The session of a connection; an IMAP session's commands act on states M. */
  datatype Session<!M> =
    | SmtpSession(smtp: F.Reader<Smtp.Machine>)
    | SubmissionSession(submission: F.Reader<Sub.Machine>)
    | ImapSession(h: Imap.Handlers<M>, reader: Imap.Reader<M>)

  /** What the session factory makes. */
  predicate Fresh<M>(s: Session<M>) {
    match s
    case SmtpSession(r) => r == F.Reader(Smtp.FRESH, [], [])
    case SubmissionSession(r) => r == F.Reader(Sub.FRESH, [], [])
    case ImapSession(_, r) => r.line == [] && r.lit == Imap.Literal(false, 0, [], Imap.Append([], [], 0)) && !r.tls
  }

  predicate TlsPending<M>(s: Session<M>) {
    match s
    case SmtpSession(r) => r.m.upgrading
    case SubmissionSession(r) => r.m.upgrading
    case ImapSession(_, r) => r.tls
  }

  /**
   One call of on_data: the writes, closes and upgrades that it makes on its way, the world it meets, whether the TLS
   handshake completed before it, what an IMAP session then says to wants_close, and the bytes.
   */
  datatype Call = Call(actions: seq<C.Action>, smtp: Smtp.World, submission: Sub.World, handshake: bool, wantsClose: bool, bytes: Bytes)

  /** The session after the call. */
  function OnData<M>(s: Session<M>, call: Call): Session<M> {
    match s
    case SmtpSession(r) => SmtpSession(F.OnData(Smtp.Behaviour(call.smtp), r, call.bytes))
    case SubmissionSession(r) => SubmissionSession(F.OnData(Sub.Behaviour(call.submission), Shaken(r, call.handshake), call.bytes))
    case ImapSession(h, r) => ImapSession(h, Imap.ReadAll(h, r, call.bytes))
  }

  function Shaken(r: F.Reader<Sub.Machine>, handshake: bool): F.Reader<Sub.Machine> {
    if handshake && r.m.tls == Sub.Handshaking then r.(m := r.m.(tls := Sub.Active)) else r
  }

  /** What wants_close and wants_tls_upgrade say. */
  function Flags<M>(s: Session<M>, wantsClose: bool): C.Action {
    match s
    case SmtpSession(r) => C.SetFlags(r.m.pendingClose, r.m.upgrading)
    case SubmissionSession(r) => C.SetFlags(r.m.pendingClose, r.m.upgrading)
    case ImapSession(_, r) => C.SetFlags(wantsClose, r.tls)
  }

  /** A read may bring several calls, since TLS hands over its plaintext piece by piece. */
  function AfterCalls<M>(s: Session<M>, calls: seq<Call>): Session<M>
    decreases |calls|
  {
    if calls == [] then s else AfterCalls(OnData(s, calls[0]), calls[1..])
  }

  /** What the calls do to the connection: their actions, each call's ending with its flags. */
  function Actions<M>(s: Session<M>, calls: seq<Call>): seq<C.Action>
    decreases |calls|
  {
    if calls == [] then []
    else
      var s' := OnData(s, calls[0]);
      calls[0].actions + [Flags(s', calls[0].wantsClose)] + Actions(s', calls[1..])
  }

  // ----- no call leaves the flag set

  lemma CallClearsFlag<M>(s: Session<M>, call: Call)
    requires !TlsPending(s)
    ensures !TlsPending(OnData(s, call))
  {
    match s
    case SmtpSession(r) => Smtp.FlagCleared(call.smtp, r, call.bytes);
    case SubmissionSession(r) => Sub.FlagCleared(call.submission, Shaken(r, call.handshake), call.bytes);
    case ImapSession(h, r) => Imap.FlagCleared(h, r, call.bytes);
  }

  lemma {:induction false} TlsFlagInTurn(a: seq<C.Action>, b: seq<C.Action>, was: bool)
    ensures C.TlsFlag(a + b, was) == C.TlsFlag(b, C.TlsFlag(a, was))
    decreases |a|
  {
    if a == [] {
      assert a + b == b;
    } else {
      assert (a + b)[0] == a[0] && (a + b)[1..] == a[1..] + b;
      TlsFlagInTurn(a[1..], b, if a[0].SetFlags? then a[0].wantsTls else was);
    }
  }

  lemma LastFlagCounts(a: seq<C.Action>, last: C.Action, was: bool)
    requires last.SetFlags?
    ensures C.TlsFlag(a + [last], was) == last.wantsTls
  {
    TlsFlagInTurn(a, [last], was);
    assert [last][1..] == [];
  }

  /** A read leaves the session, and what the loop knows of it, with the TLS flag down. */
  lemma {:induction false} CallsClearFlag<M>(s: Session<M>, calls: seq<Call>)
    requires !TlsPending(s)
    ensures !TlsPending(AfterCalls(s, calls)) && !C.TlsFlag(Actions(s, calls), false)
    decreases |calls|
  {
    if calls != [] {
      var call, s' := calls[0], OnData(s, calls[0]);
      CallClearsFlag(s, call);
      CallsClearFlag(s', calls[1..]);
      LastFlagCounts(call.actions, Flags(s', call.wantsClose), false);
      TlsFlagInTurn(call.actions + [Flags(s', call.wantsClose)], Actions(s', calls[1..]), false);
    }
  }

  // ----- a server of sessions

  /** What goes with an event: the session that an accept makes, and the calls that a read brings. */
  datatype Script<!M> = Script(session: Session<M>, calls: seq<Call>)

  predicate Reads(e: L.Event) { e.Done? && e.completion.ReadDone? && e.completion.res > 0 }

  /** The event is what its script says: a fresh session for an accept, and for a read the actions of the connection's own session. */
  ghost predicate Follows<M>(w: L.World, sessions: map<nat, Session<M>>, e: L.Event, script: Script<M>) {
    (L.Admits(w, e) ==> Fresh(script.session)) &&
    (e.Done? ==> !C.Cancelled(e.completion)) &&
    (Reads(e) && e.id in sessions ==> e.completion.io.actions == Actions(sessions[e.id], script.calls))
  }

  /** Sessions are carried from event to event. */
  function NextSessions<M>(w: L.World, sessions: map<nat, Session<M>>, e: L.Event, script: Script<M>): map<nat, Session<M>> {
    if L.Admits(w, e) then sessions[w.next := script.session]
    else if Reads(e) && e.id in sessions then sessions[e.id := AfterCalls(sessions[e.id], script.calls)]
    else sessions
  }

  /** A run of a server without cancelled reads, each read handed to the session that its connection has had since accept. */
  ghost predicate Served<M>(w: L.World, sessions: map<nat, Session<M>>, run: seq<L.Event>, scripts: seq<Script<M>>)
    decreases |run|
  {
    |scripts| == |run| &&
    (run != [] ==>
      L.Possible(w, run[0]) && Follows(w, sessions, run[0], scripts[0]) &&
      Served(L.Step(w, run[0]), NextSessions(w, sessions, run[0], scripts[0]), run[1..], scripts[1..]))
  }

  /** Every connection has a session, and no session has its flag set. */
  ghost predicate Settled<M>(w: L.World, sessions: map<nat, Session<M>>) {
    (forall id | id in w.conns :: id in sessions) && (forall id | id in sessions :: !TlsPending(sessions[id]))
  }

  lemma StepSettles<M>(w: L.World, sessions: map<nat, Session<M>>, e: L.Event, script: Script<M>)
    requires Settled(w, sessions) && L.Possible(w, e) && Follows(w, sessions, e, script)
    ensures L.Orderly([e]) && Settled(L.Step(w, e), NextSessions(w, sessions, e, script))
  {
    if e.Done? { assert e.id in w.conns; }
    if Reads(e) { CallsClearFlag(sessions[e.id], script.calls); }
  }

  lemma {:induction false} ServedIsOrderly<M>(w: L.World, sessions: map<nat, Session<M>>, run: seq<L.Event>, scripts: seq<Script<M>>)
    requires Settled(w, sessions) && Served(w, sessions, run, scripts)
    ensures L.IsRun(w, run) && L.Orderly(run)
    decreases |run|
  {
    if run != [] {
      StepSettles(w, sessions, run[0], scripts[0]);
      ServedIsOrderly(L.Step(w, run[0]), NextSessions(w, sessions, run[0], scripts[0]), run[1..], scripts[1..]);
      OneMoreEvent(run);
    }
  }

  lemma OneMoreEvent(run: seq<L.Event>)
    requires run != [] && L.Orderly([run[0]]) && L.Orderly(run[1..])
    ensures L.Orderly(run)
  {
    assert [run[0]][0] == run[0];
    forall i | 0 <= i < |run| && run[i].Done? ensures C.FlagCleared(run[i].completion) && !C.Cancelled(run[i].completion) {
      if i > 0 { assert run[i] == run[1..][i - 1]; }
    }
  }

  /** A server that starts empty and whose reads are not cancelled strands no connection: each has an operation outstanding, and one that is not closing exactly one read. */
  lemma ServerProgresses<M>(run: seq<L.Event>, scripts: seq<Script<M>>, id: nat)
    requires Served(L.START, map[], run, scripts)
    ensures L.IsRun(L.START, run)
    ensures var c := L.After(L.START, run).Get(id); c.Live() ==> c.buf.value.inflight > 0 && (!c.Closing() ==> c.kernel.recvs == 1)
  {
    ServedIsOrderly(L.START, map[], run, scripts);
    L.ServerRun(run, id);
  }
}
