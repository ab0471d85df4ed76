/**
 The asynchronous resolver (src/dns/resolver.cpp) as a step system over its pending queries. Completions may come in
 any order and for any transaction id; a callback may start further queries before it returns.
 */
module DnsResolver {
  import opened Common
  import M = DnsMessage

  type Txid = t: int | 1 <= t < 0x1_0000 witness 1
  const MAX_RETRIES := 1

  datatype Status = OK | NXDomain | ServFail | Timeout | Truncated | ParseError

  /** What resolve is asked for. */
  datatype Ask = Ask(name: Bytes, qtype: M.U16Value)
  /** A callback is known by the number of the resolve call that brought it. */
  datatype PendingQuery = PendingQuery(ask: Ask, callback: nat, retries: nat, wire: Bytes)

  /** What has been handed to the kernel, and what callbacks have been told and why. */
  datatype Sent = Sent(callback: nat, txid: Txid, wire: Bytes)
  datatype Fired = Fired(callback: nat, txid: Txid, status: Status, records: seq<M.Record>, cause: Cause)

  /** -ETIME or -ECANCELED; another error; or a datagram, decoded. */
  datatype Received = Cancelled | Failed | Got(reply: Option<M.Message>)

  /** A send completion, or a receive completion with or without its receive buffer. */
  datatype Cause = Sending | Receiving(res: Received, buffered: bool)

  datatype State = State(pending: map<Txid, PendingQuery>, ctxs: set<Txid>, asked: seq<Ask>, sent: seq<Sent>, fired: seq<Fired>)

  const START := State(map[], {}, [], [], [])

  /** A query together with the random numbers drawn for its transaction id. */
  datatype Request = Request(ask: Ask, draws: seq<Txid>)

  // ----- operations

  /** Some draw is not pending; the loop of alloc_txid goes on until then. */
  predicate Lucky(draws: seq<Txid>, pending: map<Txid, PendingQuery>) { exists i :: 0 <= i < |draws| && draws[i] !in pending }

  /** alloc_txid. */
  function FirstFree(draws: seq<Txid>, pending: map<Txid, PendingQuery>): (t: Txid)
    requires Lucky(draws, pending)
    ensures t in draws && t !in pending
  {
    if draws[0] !in pending then draws[0] else FirstFree(draws[1..], pending)
  }

  function WireFor(ask: Ask, t: Txid): Bytes { M.Query(ask.name, ask.qtype, t) }

  function Submit(s: State, t: Txid, ask: Ask, callback: nat, retries: nat): State {
    var wire := WireFor(ask, t);
    s.(pending := s.pending[t := PendingQuery(ask, callback, retries, wire)], ctxs := s.ctxs + {t},
       sent := s.sent + [Sent(callback, t, wire)])
  }

  function Enter(s: State, ask: Ask): State { s.(asked := s.asked + [ask]) }

  /** resolve. */
  function AfterResolve(s: State, r: Request): State {
    if !Lucky(r.draws, s.pending) then s
    else Submit(Enter(s, r.ask), FirstFree(r.draws, s.pending), r.ask, |s.asked|, 0)
  }

  function ResolveAll(s: State, rs: seq<Request>): State
    decreases |rs|
  {
    if rs == [] then s else ResolveAll(AfterResolve(s, rs[0]), rs[1..])
  }

  function Erase(s: State, t: Txid): State { s.(pending := s.pending - {t}, ctxs := s.ctxs - {t}) }

  /** A reply that was received into its buffer and decoded. */
  predicate HasReply(cause: Cause) { cause.Receiving? && cause.buffered && cause.res.Got? && cause.res.reply.Some? }

  function ReplyIn(cause: Cause): M.Message
    requires HasReply(cause)
  {
    cause.res.reply.value
  }

  function Fire(s: State, t: Txid, status: Status, cause: Cause): State
    requires t in s.pending
  {
    var records := if status == OK && HasReply(cause) then ReplyIn(cause).answers else [];
    s.(fired := s.fired + [Fired(s.pending[t].callback, t, status, records, cause)])
  }

  /** The callback is told, starts further queries, and only then is the entry erased. */
  function AfterFinish(s: State, t: Txid, status: Status, cause: Cause, nested: seq<Request>): State
    requires t in s.pending
  {
    Erase(ResolveAll(Fire(s, t, status, cause), nested), t)
  }

  /** on_send: a completion of either sign ends a query that is still pending. */
  function AfterSend(s: State, t: Txid, nested: seq<Request>): State {
    if t in s.pending then AfterFinish(s, t, ServFail, Sending, nested) else s
  }

  /** What the outcome of a receive means: retry, receive again, or a status for the callback. */
  datatype Verdict = Retry | Rearm | Tell(status: Status)

  function Judge(s: State, t: Txid, res: Received): Verdict
    requires t in s.pending
  {
    match res
    case Cancelled => if s.pending[t].retries < MAX_RETRIES then Retry else Tell(Timeout)
    case Failed => Tell(ServFail)
    case Got(reply) =>
      if t !in s.ctxs || reply.None? then Tell(ParseError)
      else if reply.value.id != t then Rearm
      else if reply.value.flags.rcode == 3 then Tell(NXDomain)
      else if reply.value.flags.rcode != 0 || reply.value.flags.tc then Tell(ServFail)
      else Tell(OK)
  }

  /** on_recv. */
  function AfterRecv(s: State, t: Txid, res: Received, draws: seq<Txid>, nested: seq<Request>): State {
    if t !in s.pending then s.(ctxs := s.ctxs - {t})
    else
      match Judge(s, t, res)
      case Retry => RetryAs(s, t, draws)
      case Rearm => s.(ctxs := s.ctxs - {t})
      case Tell(status) => AfterFinish(s, t, status, Receiving(res, t in s.ctxs), nested)
  }

  /** A second try under a new id, drawn while the old one is still pending. */
  function RetryAs(s: State, t: Txid, draws: seq<Txid>): State
    requires t in s.pending
  {
    if !Lucky(draws, s.pending) then s else Resubmit(Erase(s, t), s.pending[t], FirstFree(draws, s.pending))
  }

  function Resubmit(s: State, q: PendingQuery, t: Txid): State { Submit(s, t, q.ask, q.callback, q.retries + 1) }

  datatype Event =
    | Resolving(request: Request)
    | SendDone(txid: Txid, nested: seq<Request>)
    | RecvDone(txid: Txid, res: Received, draws: seq<Txid>, nested: seq<Request>)
    | TimeoutDone(txid: Txid)

  function Step(s: State, e: Event): State {
    match e
    case Resolving(request) => AfterResolve(s, request)
    case SendDone(t, nested) => AfterSend(s, t, nested)
    case RecvDone(t, res, draws, nested) => AfterRecv(s, t, res, draws, nested)
    case TimeoutDone(_) => s
  }

  function Run(s: State, es: seq<Event>): State
    decreases |es|
  {
    if es == [] then s else Run(Step(s, es[0]), es[1..])
  }

  // ----- the discipline

  function TimesFired(fired: seq<Fired>, c: nat): nat {
    if fired == [] then 0 else TimesFired(fired[..|fired| - 1], c) + if fired[|fired| - 1].callback == c then 1 else 0
  }

  function TimesSent(sent: seq<Sent>, c: nat): nat {
    if sent == [] then 0 else TimesSent(sent[..|sent| - 1], c) + if sent[|sent| - 1].callback == c then 1 else 0
  }

  predicate Held(s: State, c: nat) { exists t :: t in s.pending && s.pending[t].callback == c }

  /** A pending entry is the query it was asked for, under its own id, sent once more than it was retried. */
  predicate EntryOk(s: State, t: Txid)
    requires t in s.pending
  {
    var q := s.pending[t];
    q.callback < |s.asked| && q.ask == s.asked[q.callback] && q.wire == WireFor(q.ask, t) && q.retries <= MAX_RETRIES &&
    TimesSent(s.sent, q.callback) == q.retries + 1 && Sent(q.callback, t, q.wire) in s.sent
  }

  predicate SentOk(s: State, x: Sent) { x.callback < |s.asked| && x.wire == WireFor(s.asked[x.callback], x.txid) }

  /** An untruncated reply without error to the query with this id. */
  predicate Answers(m: M.Message, t: Txid) { m.id == t && m.flags.rcode == 0 && !m.flags.tc }

  /** A callback was told only about a query of its own, and OK only about a reply with the id of that query. */
  predicate FiredOk(s: State, f: Fired) {
    f.callback < |s.asked| && Sent(f.callback, f.txid, WireFor(s.asked[f.callback], f.txid)) in s.sent && Honest(f) &&
    (f.status == Timeout ==> TimesSent(s.sent, f.callback) >= 1 + MAX_RETRIES)
  }

  predicate Honest(f: Fired) {
    Justified(f.status, f.cause, f.txid) && f.records == if f.status == OK then ReplyIn(f.cause).answers else []
  }

  /** What each status means; for every cause at most one of them fits, and Truncated never. */
  predicate Justified(status: Status, cause: Cause, t: Txid) {
    match status
    case OK => HasReply(cause) && Answers(ReplyIn(cause), t)
    case NXDomain => HasReply(cause) && ReplyIn(cause).id == t && ReplyIn(cause).flags.rcode == 3
    case ServFail => cause.Sending? || cause.res.Failed? || (HasReply(cause) && Refused(ReplyIn(cause), t))
    case Timeout => cause.Receiving? && cause.res.Cancelled?
    case ParseError => cause.Receiving? && cause.res.Got? && !HasReply(cause)
    case Truncated => false
  }

  /** A reply to the query with this id that reports another error than a missing name, or is truncated. */
  predicate Refused(m: M.Message, t: Txid) { m.id == t && m.flags.rcode != 3 && (m.flags.rcode != 0 || m.flags.tc) }

  /**
   Every callback is held by exactly one pending id and has not been told, or has been told exactly once and is held
   by none. The callbacks in `moving` are in the middle of a step.
   */
  ghost predicate Owned(s: State, moving: set<nat>) {
    (forall t, u | t in s.pending && u in s.pending :: s.pending[t].callback == s.pending[u].callback ==> t == u) &&
    (forall t | t in s.pending :: s.pending[t].callback !in moving ==> TimesFired(s.fired, s.pending[t].callback) == 0) &&
    (forall c: nat | c < |s.asked| && c !in moving :: TimesFired(s.fired, c) == 1 || Held(s, c))
  }

  ghost predicate Recorded(s: State) {
    (forall t | t in s.pending :: EntryOk(s, t)) &&
    (forall x | x in s.sent :: SentOk(s, x)) &&
    (forall f | f in s.fired :: FiredOk(s, f)) &&
    (forall c: nat :: TimesSent(s.sent, c) <= 1 + MAX_RETRIES) &&
    s.ctxs <= s.pending.Keys
  }

  ghost predicate Inv(s: State, moving: set<nat>) { Owned(s, moving) && Recorded(s) }

  // ----- a callback enters, is submitted, is told, and leaves

  lemma {:induction false} NeverFired(fired: seq<Fired>, c: nat)
    requires forall f | f in fired :: f.callback < c
    ensures TimesFired(fired, c) == 0
  {
    if fired != [] { NeverFired(fired[..|fired| - 1], c); }
  }

  lemma {:induction false} NeverSent(sent: seq<Sent>, c: nat)
    requires forall x | x in sent :: x.callback < c
    ensures TimesSent(sent, c) == 0
  {
    if sent != [] { NeverSent(sent[..|sent| - 1], c); }
  }

  lemma SentOneMore(sent: seq<Sent>, x: Sent)
    ensures forall c: nat :: TimesSent(sent + [x], c) == TimesSent(sent, c) + if x.callback == c then 1 else 0
  {
    assert (sent + [x])[..|sent|] == sent;
  }

  lemma FiredOneMore(fired: seq<Fired>, f: Fired)
    ensures forall c: nat :: TimesFired(fired + [f], c) == TimesFired(fired, c) + if f.callback == c then 1 else 0
  {
    assert (fired + [f])[..|fired|] == fired;
  }

  lemma EnterOwned(s: State, ask: Ask, moving: set<nat>)
    requires Owned(s, moving)
    ensures Owned(Enter(s, ask), moving + {|s.asked|})
  {
    var s' := Enter(s, ask);
    forall c: nat | c < |s'.asked| && c !in moving + {|s.asked|} ensures TimesFired(s'.fired, c) == 1 || Held(s', c) {
      assert TimesFired(s.fired, c) == 1 || Held(s, c);
    }
  }

  lemma EnterRecorded(s: State, ask: Ask)
    requires Recorded(s)
    ensures Recorded(Enter(s, ask))
  {
    var s' := Enter(s, ask);
    forall t | t in s'.pending ensures EntryOk(s', t) { assert EntryOk(s, t); }
    forall x | x in s'.sent ensures SentOk(s', x) { assert SentOk(s, x); }
    forall f | f in s'.fired ensures FiredOk(s', f) { assert FiredOk(s, f); }
  }

  /** A callback that has not been asked for yet is nowhere. */
  lemma NewcomerIsNew(s: State)
    requires Recorded(s)
    ensures !Held(s, |s.asked|) && TimesFired(s.fired, |s.asked|) == 0 && TimesSent(s.sent, |s.asked|) == 0
  {
    forall f | f in s.fired ensures f.callback < |s.asked| { assert FiredOk(s, f); }
    forall x | x in s.sent ensures x.callback < |s.asked| { assert SentOk(s, x); }
    forall t | t in s.pending ensures s.pending[t].callback < |s.asked| { assert EntryOk(s, t); }
    NeverFired(s.fired, |s.asked|);
    NeverSent(s.sent, |s.asked|);
  }

  lemma EnterKeeps(s: State, ask: Ask, moving: set<nat>)
    requires Inv(s, moving)
    ensures var s', c := Enter(s, ask), |s.asked|;
      Inv(s', moving + {c}) && !Held(s', c) && TimesFired(s'.fired, c) == 0 && TimesSent(s'.sent, c) == 0
  {
    EnterOwned(s, ask, moving);
    EnterRecorded(s, ask);
    NewcomerIsNew(s);
  }

  lemma SubmitKeeps(s: State, t: Txid, c: nat, retries: nat, moving: set<nat>)
    requires Inv(s, moving) && t !in s.pending && c < |s.asked| && retries <= MAX_RETRIES
    requires !Held(s, c) && TimesFired(s.fired, c) == 0 && TimesSent(s.sent, c) == retries
    ensures Inv(Submit(s, t, s.asked[c], c, retries), moving - {c})
  {
    SubmitOwned(s, t, c, retries, moving);
    SubmitRecorded(s, t, c, retries);
  }

  lemma SubmitOwned(s: State, t: Txid, c: nat, retries: nat, moving: set<nat>)
    requires Owned(s, moving) && t !in s.pending && c < |s.asked|
    requires !Held(s, c) && TimesFired(s.fired, c) == 0
    ensures Owned(Submit(s, t, s.asked[c], c, retries), moving - {c})
  {
    var s' := Submit(s, t, s.asked[c], c, retries);
    forall d: nat | d < |s'.asked| && d !in moving - {c} ensures TimesFired(s'.fired, d) == 1 || Held(s', d) {
      if d == c {
        assert t in s'.pending;
      } else if TimesFired(s.fired, d) != 1 {
        var u :| u in s.pending && s.pending[u].callback == d;
        assert u in s'.pending;
      }
    }
  }

  lemma SubmitRecorded(s: State, t: Txid, c: nat, retries: nat)
    requires Recorded(s) && t !in s.pending && c < |s.asked| && retries <= MAX_RETRIES
    requires !Held(s, c) && TimesSent(s.sent, c) == retries
    ensures Recorded(Submit(s, t, s.asked[c], c, retries))
  {
    var s' := Submit(s, t, s.asked[c], c, retries);
    SentOneMore(s.sent, Sent(c, t, WireFor(s.asked[c], t)));
    SubmitLogged(s, s', s'.sent[|s.sent|]);
    SubmitEntries(s, t, c, retries);
  }

  lemma SubmitEntries(s: State, t: Txid, c: nat, retries: nat)
    requires Recorded(s) && t !in s.pending && c < |s.asked| && retries <= MAX_RETRIES
    requires !Held(s, c) && TimesSent(s.sent, c) == retries
    ensures var s' := Submit(s, t, s.asked[c], c, retries); forall u | u in s'.pending :: EntryOk(s', u)
  {
    var s' := Submit(s, t, s.asked[c], c, retries);
    SentOneMore(s.sent, Sent(c, t, WireFor(s.asked[c], t)));
    forall u | u in s'.pending ensures EntryOk(s', u) {
      if u != t { assert EntryOk(s, u); }
    }
  }

  /** One more query sent leaves the log in order. */
  lemma SubmitLogged(s: State, s': State, x: Sent)
    requires Recorded(s) && s'.asked == s.asked && s'.fired == s.fired && s'.sent == s.sent + [x] && SentOk(s, x)
    ensures forall f | f in s'.fired :: FiredOk(s', f)
    ensures forall y | y in s'.sent :: SentOk(s', y)
  {
    SentOneMore(s.sent, x);
    forall f | f in s'.fired ensures FiredOk(s', f) { assert FiredOk(s, f); }
    forall y | y in s'.sent ensures SentOk(s', y) {
      if y != x { assert SentOk(s, y); }
    }
  }

  lemma FireKeeps(s: State, t: Txid, status: Status, cause: Cause, moving: set<nat>)
    requires Inv(s, moving) && t in s.pending && s.pending[t].callback !in moving
    requires Justified(status, cause, t) && (status == Timeout ==> s.pending[t].retries == MAX_RETRIES)
    ensures var c := s.pending[t].callback; var s' := Fire(s, t, status, cause);
      Inv(s', moving + {c}) && TimesFired(s'.fired, c) == 1
  {
    var s' := Fire(s, t, status, cause);
    FiredOneMore(s.fired, s'.fired[|s.fired|]);
    assert EntryOk(s, t);
    forall u | u in s'.pending ensures EntryOk(s', u) { assert EntryOk(s, u); }
    forall f | f in s'.fired ensures FiredOk(s', f) {
      if f in s.fired { assert FiredOk(s, f); }
    }
    forall c: nat | c < |s'.asked| && c !in moving + {s.pending[t].callback} ensures TimesFired(s'.fired, c) == 1 || Held(s', c) {
      assert TimesFired(s.fired, c) == 1 || Held(s, c);
    }
  }

  /** An erased entry leaves its callback moving, or settled if it has been told. */
  lemma EraseKeeps(s: State, t: Txid, moving: set<nat>, moving': set<nat>)
    requires Inv(s, moving) && t in s.pending
    requires var c := s.pending[t].callback;
      moving' == moving + {c} || (moving' == moving - {c} && TimesFired(s.fired, c) == 1)
    ensures Inv(Erase(s, t), moving') && !Held(Erase(s, t), s.pending[t].callback)
  {
    var c := s.pending[t].callback;
    var s' := Erase(s, t);
    EraseRecorded(s, t);
    forall d: nat | d < |s'.asked| && d !in moving && d != c ensures TimesFired(s'.fired, d) == 1 || Held(s', d) {
      if TimesFired(s.fired, d) != 1 {
        var u :| u in s.pending && s.pending[u].callback == d;
        assert u in s'.pending;
      }
    }
  }

  lemma EraseRecorded(s: State, t: Txid)
    requires Recorded(s)
    ensures Recorded(Erase(s, t))
  {
    var s' := Erase(s, t);
    forall u | u in s'.pending ensures EntryOk(s', u) { assert EntryOk(s, u); }
    forall f | f in s'.fired ensures FiredOk(s', f) { assert FiredOk(s, f); }
  }

  // ----- steps and runs

  lemma ResolveKeeps(s: State, r: Request, moving: set<nat>)
    requires Inv(s, moving) && forall c | c in moving :: c < |s.asked|
    ensures Inv(AfterResolve(s, r), moving)
  {
    if Lucky(r.draws, s.pending) {
      EnterKeeps(s, r.ask, moving);
      assert moving + {|s.asked|} - {|s.asked|} == moving;
      NewcomerKeeps(Enter(s, r.ask), FirstFree(r.draws, s.pending), |s.asked|, moving + {|s.asked|}, moving);
    }
  }

  lemma NewcomerKeeps(s: State, t: Txid, c: nat, moving: set<nat>, moving': set<nat>)
    requires Inv(s, moving) && moving' == moving - {c} && t !in s.pending && c < |s.asked|
    requires !Held(s, c) && TimesFired(s.fired, c) == 0 && TimesSent(s.sent, c) == 0
    ensures Inv(Submit(s, t, s.asked[c], c, 0), moving')
  {
    SubmitKeeps(s, t, c, 0, moving);
  }

  lemma {:induction false} ResolveAllKeeps(s: State, rs: seq<Request>, moving: set<nat>)
    requires Inv(s, moving) && forall c | c in moving :: c < |s.asked|
    ensures var s' := ResolveAll(s, rs); Inv(s', moving) && s'.fired == s.fired && |s.asked| <= |s'.asked|
    ensures forall t | t in s.pending :: t in ResolveAll(s, rs).pending && ResolveAll(s, rs).pending[t] == s.pending[t]
    decreases |rs|
  {
    if rs != [] {
      ResolveKeeps(s, rs[0], moving);
      ResolveAllKeeps(AfterResolve(s, rs[0]), rs[1..], moving);
    }
  }

  lemma FinishKeeps(s: State, t: Txid, status: Status, cause: Cause, nested: seq<Request>)
    requires Inv(s, {}) && t in s.pending
    requires Justified(status, cause, t) && (status == Timeout ==> s.pending[t].retries == MAX_RETRIES)
    ensures Inv(AfterFinish(s, t, status, cause, nested), {})
  {
    var c := s.pending[t].callback;
    assert EntryOk(s, t);
    FireKeeps(s, t, status, cause, {});
    var s1 := Fire(s, t, status, cause);
    assert {} + {c} == {c};
    ResolveAllKeeps(s1, nested, {c});
    assert {c} - {c} == {};
    EraseKeeps(ResolveAll(s1, nested), t, {c}, {});
  }

  /** An entry taken out for a second try. */
  lemma Withdraw(s: State, t: Txid)
    requires Inv(s, {}) && t in s.pending
    ensures var q := s.pending[t]; Inv(Erase(s, t), {q.callback}) && Withdrawn(Erase(s, t), q)
  {
    var q := s.pending[t];
    assert EntryOk(s, t);
    assert {} + {q.callback} == {q.callback};
    EraseKeeps(s, t, {}, {q.callback});
  }

  predicate Withdrawn(s: State, q: PendingQuery) {
    !Held(s, q.callback) && q.callback < |s.asked| && q.ask == s.asked[q.callback] &&
    TimesFired(s.fired, q.callback) == 0 && TimesSent(s.sent, q.callback) == q.retries + 1
  }

  lemma ResubmitKeeps(s: State, q: PendingQuery, t: Txid)
    requires Inv(s, {q.callback}) && Withdrawn(s, q) && q.retries < MAX_RETRIES && t !in s.pending
    ensures Inv(Resubmit(s, q, t), {})
  {
    assert {q.callback} - {q.callback} == {};
    SubmitKeeps(s, t, q.callback, q.retries + 1, {q.callback});
  }

  lemma RetryKeeps(s: State, t: Txid, t': Txid)
    requires Inv(s, {}) && t in s.pending && s.pending[t].retries < MAX_RETRIES && t' !in s.pending
    ensures Inv(Resubmit(Erase(s, t), s.pending[t], t'), {})
  {
    Withdraw(s, t);
    ResubmitKeeps(Erase(s, t), s.pending[t], t');
  }

  lemma StepKeeps(s: State, e: Event)
    requires Inv(s, {})
    ensures Inv(Step(s, e), {})
  {
    match e {
      case Resolving(r) => ResolveKeeps(s, r, {});
      case SendDone(t, nested) =>
        if t in s.pending { FinishKeeps(s, t, ServFail, Sending, nested); }
      case RecvDone(t, res, draws, nested) => RecvKeeps(s, t, res, draws, nested);
      case TimeoutDone(_) =>
    }
  }

  lemma RecvKeeps(s: State, t: Txid, res: Received, draws: seq<Txid>, nested: seq<Request>)
    requires Inv(s, {})
    ensures Inv(AfterRecv(s, t, res, draws, nested), {})
  {
    if t !in s.pending {
      FewerContexts(s, t);
    } else {
      match Judge(s, t, res) {
        case Retry => if Lucky(draws, s.pending) { RetryKeeps(s, t, FirstFree(draws, s.pending)); }
        case Rearm => FewerContexts(s, t);
        case Tell(status) => FinishKeeps(s, t, status, Receiving(res, t in s.ctxs), nested);
      }
    }
  }

  lemma FewerContexts(s: State, t: Txid)
    requires Inv(s, {})
    ensures Inv(s.(ctxs := s.ctxs - {t}), {})
  {
    var s' := s.(ctxs := s.ctxs - {t});
    forall u | u in s'.pending ensures EntryOk(s', u) { assert EntryOk(s, u); }
    forall f | f in s'.fired ensures FiredOk(s', f) { assert FiredOk(s, f); }
    forall c: nat | c < |s'.asked| ensures TimesFired(s'.fired, c) == 1 || Held(s', c) {
      assert TimesFired(s.fired, c) == 1 || Held(s, c);
    }
  }

  lemma {:induction false} RunKeeps(s: State, es: seq<Event>)
    requires Inv(s, {})
    ensures Inv(Run(s, es), {})
    decreases |es|
  {
    if es != [] {
      StepKeeps(s, es[0]);
      RunKeeps(Step(s, es[0]), es[1..]);
    }
  }

  /**
   In every run: a callback is told at most once, and until then exactly one pending id holds it; each query is sent
   at most twice, each time with the wire form of its own name, type and id; and OK is told only for a clean reply that
   carries the id under which the callback's own query was sent.
   */
  lemma EveryRun(es: seq<Event>)
    ensures var s := Run(START, es);
      (forall c: nat | c < |s.asked| ::
         TimesFired(s.fired, c) <= 1 && TimesSent(s.sent, c) <= 2 && (Held(s, c) <==> TimesFired(s.fired, c) == 0)) &&
      (forall t, u | t in s.pending && u in s.pending && t != u :: s.pending[t].callback != s.pending[u].callback) &&
      (forall t | t in s.pending :: EntryOk(s, t)) &&
      (forall x | x in s.sent :: SentOk(s, x)) &&
      (forall f | f in s.fired :: FiredOk(s, f))
  {
    RunKeeps(START, es);
    var s := Run(START, es);
    forall c: nat | c < |s.asked|
      ensures TimesFired(s.fired, c) <= 1 && (Held(s, c) <==> TimesFired(s.fired, c) == 0)
    {
      assert TimesFired(s.fired, c) == 1 || Held(s, c);
    }
  }

  // ----- two ways to lose an answer

  /** Whatever a send completion reports, it ends the query: the callback is told ServFail and the entry is gone. */
  lemma SendEndsQuery(s: State, t: Txid, nested: seq<Request>)
    requires t in s.pending
    ensures var s' := Step(s, SendDone(t, nested));
      t !in s'.pending && Fired(s.pending[t].callback, t, ServFail, [], Sending) in s'.fired
  {
    ResolveAllLeaves(Fire(s, t, ServFail, Sending), nested, t);
  }

  lemma {:induction false} ResolveAllLeaves(s: State, rs: seq<Request>, t: Txid)
    requires t in s.pending
    ensures var s' := ResolveAll(s, rs);
      s'.fired == s.fired && t in s'.pending && s'.pending[t] == s.pending[t] && (t in s'.ctxs <==> t in s.ctxs)
    decreases |rs|
  {
    if rs != [] { ResolveAllLeaves(AfterResolve(s, rs[0]), rs[1..], t); }
  }

  /** What an event tells, to the one callback that it ends. */
  function Told(s: State, e: Event): seq<Fired> {
    match e
    case Resolving(_) => []
    case TimeoutDone(_) => []
    case SendDone(t, _) => if t in s.pending then [LastFired(Fire(s, t, ServFail, Sending))] else []
    case RecvDone(t, res, _, _) =>
      if t in s.pending && Judge(s, t, res).Tell? then [LastFired(Fire(s, t, Judge(s, t, res).status, Receiving(res, t in s.ctxs)))] else []
  }

  function LastFired(s: State): Fired
    requires s.fired != []
  {
    s.fired[|s.fired| - 1]
  }

  lemma StepTells(s: State, e: Event)
    ensures Step(s, e).fired == s.fired + Told(s, e)
  {
    match e {
      case SendDone(t, nested) => if t in s.pending { ResolveAllLeaves(Fire(s, t, ServFail, Sending), nested, t); }
      case RecvDone(t, res, draws, nested) =>
        if t in s.pending && Judge(s, t, res).Tell? {
          ResolveAllLeaves(Fire(s, t, Judge(s, t, res).status, Receiving(res, t in s.ctxs)), nested, t);
        }
      case _ =>
    }
  }

  predicate Tells(fs: seq<Fired>, t: Txid, status: Status) { exists f | f in fs :: f.txid == t && f.status == status }

  predicate TellsOk(fs: seq<Fired>, t: Txid) { Tells(fs, t, OK) }

  /** A datagram for a pending id. */
  predicate Hears(s: State, e: Event, t: Txid) { e.RecvDone? && e.txid == t && t in s.pending && e.res.Got? }

  /** A datagram for a pending id, received into its buffer and decoded. */
  predicate HearsReply(s: State, e: Event, t: Txid) { Hears(s, e, t) && t in s.ctxs && e.res.reply.Some? }

  /** An event tells OK for a query exactly when it is a datagram for its id, the receive buffer is there and the reply answers the query. */
  lemma OkIff(s: State, e: Event, t: Txid)
    ensures TellsOk(Told(s, e), t) <==> HearsReply(s, e, t) && Answers(e.res.reply.value, t)
  {
    ToldIs(s, e, t, OK);
  }

  lemma NXDomainIff(s: State, e: Event, t: Txid)
    ensures Tells(Told(s, e), t, NXDomain) <==> HearsReply(s, e, t) && e.res.reply.value.id == t && e.res.reply.value.flags.rcode == 3
  {
    ToldIs(s, e, t, NXDomain);
  }

  lemma ServFailIff(s: State, e: Event, t: Txid)
    ensures Tells(Told(s, e), t, ServFail) <==>
      (e.SendDone? && e.txid == t && t in s.pending) || (e.RecvDone? && e.txid == t && t in s.pending && e.res.Failed?) ||
      (HearsReply(s, e, t) && Refused(e.res.reply.value, t))
  {
    ToldIs(s, e, t, ServFail);
  }

  lemma TimeoutIff(s: State, e: Event, t: Txid)
    ensures Tells(Told(s, e), t, Timeout) <==>
      e.RecvDone? && e.txid == t && t in s.pending && e.res.Cancelled? && s.pending[t].retries >= MAX_RETRIES
  {
    ToldIs(s, e, t, Timeout);
  }

  lemma ParseErrorIff(s: State, e: Event, t: Txid)
    ensures Tells(Told(s, e), t, ParseError) <==> Hears(s, e, t) && !HearsReply(s, e, t)
  {
    ToldIs(s, e, t, ParseError);
  }

  /** Nothing is told when the reply has a foreign id, or a cancelled query may be tried again. */
  lemma SilentIff(s: State, e: Event, t: Txid)
    requires e.RecvDone? && e.txid == t && t in s.pending
    ensures Told(s, e) == [] <==> (HearsReply(s, e, t) && e.res.reply.value.id != t) || (e.res.Cancelled? && s.pending[t].retries < MAX_RETRIES)
  {
  }

  lemma ToldIs(s: State, e: Event, t: Txid, status: Status)
    ensures Tells(Told(s, e), t, status) <==> Told(s, e) != [] && Told(s, e)[0].txid == t && Told(s, e)[0].status == status
  {
    if Told(s, e) != [] { assert Told(s, e)[0] in Told(s, e); }
  }

  /** A reply with a foreign id costs the query its receive buffer... */
  lemma StrayReplyLosesBuffer(s: State, t: Txid, reply: M.Message, draws: seq<Txid>, nested: seq<Request>)
    requires t in s.pending && t in s.ctxs && reply.id != t
    ensures var s' := Step(s, RecvDone(t, Got(Some(reply)), draws, nested)); s' == s.(ctxs := s.ctxs - {t})
  {
  }

  lemma LostStaysLost(s: State, e: Event, t: Txid)
    requires t in s.pending && t !in s.ctxs
    ensures t in Step(s, e).pending ==> t !in Step(s, e).ctxs
  {
    match e {
      case Resolving(r) => ResolveAllLeaves(s, [r], t); assert ResolveAll(s, [r]) == AfterResolve(s, r);
      case SendDone(u, nested) =>
        if u in s.pending { ResolveAllLeaves(Fire(s, u, ServFail, Sending), nested, t); }
      case RecvDone(u, res, draws, nested) =>
        if u in s.pending && Judge(s, u, res).Tell? {
          ResolveAllLeaves(Fire(s, u, Judge(s, u, res).status, Receiving(res, u in s.ctxs)), nested, t);
        }
      case TimeoutDone(_) =>
    }
  }

  /** The query is pending under this id whenever an event comes. */
  predicate PendingThroughout(s: State, es: seq<Event>, t: Txid)
    decreases |es|
  {
    es == [] || (t in s.pending && PendingThroughout(Step(s, es[0]), es[1..], t))
  }

  /** What a run tells. */
  function ToldBy(s: State, es: seq<Event>): seq<Fired>
    decreases |es|
  {
    if es == [] then [] else Told(s, es[0]) + ToldBy(Step(s, es[0]), es[1..])
  }

  lemma {:induction false} RunTells(s: State, es: seq<Event>)
    ensures Run(s, es).fired == s.fired + ToldBy(s, es)
    decreases |es|
  {
    if es != [] {
      StepTells(s, es[0]);
      RunTells(Step(s, es[0]), es[1..]);
      Assoc(s.fired, Told(s, es[0]), ToldBy(Step(s, es[0]), es[1..]));
    }
  }

  /** ...and as long as the query stays pending under this id, no later event tells its callback OK. */
  lemma {:induction false} LostBufferStaysLost(s: State, es: seq<Event>, t: Txid)
    requires t !in s.ctxs && PendingThroughout(s, es, t)
    ensures !TellsOk(ToldBy(s, es), t)
    decreases |es|
  {
    if es != [] {
      var s', rest := Step(s, es[0]), es[1..];
      OkIff(s, es[0], t);
      LostStaysLost(s, es[0], t);
      if rest != [] { LostBufferStaysLost(s', rest, t); }
      assert forall f :: f in Told(s, es[0]) + ToldBy(s', rest) <==> f in Told(s, es[0]) || f in ToldBy(s', rest);
    }
  }

  /** Only a retry brings a buffer back: the same callback then waits under a new id, and a good reply to that id is told OK. */
  lemma RetryRestoresBuffer(s: State, t: Txid, draws: seq<Txid>, nested: seq<Request>)
    requires t in s.pending && s.pending[t].retries < MAX_RETRIES && Lucky(draws, s.pending)
    ensures var t', s' := FirstFree(draws, s.pending), Step(s, RecvDone(t, Cancelled, draws, nested));
      t !in s'.pending && t' in s'.pending && t' in s'.ctxs && s'.pending[t'].callback == s.pending[t].callback &&
      forall reply, draws', nested' :: Answers(reply, t') ==> TellsOk(Told(s', RecvDone(t', Got(Some(reply)), draws', nested')), t')
  {
    var t', s' := FirstFree(draws, s.pending), Step(s, RecvDone(t, Cancelled, draws, nested));
    forall reply, draws', nested' | Answers(reply, t') ensures TellsOk(Told(s', RecvDone(t', Got(Some(reply)), draws', nested')), t') {
      OkIff(s', RecvDone(t', Got(Some(reply)), draws', nested'), t');
    }
  }

  // ----- the class

  const ETIME := 62
  const ECANCELED := 125

  /** A completed receive: the result, the datagram, and what a decoder that ran past its end would have made of it. */
  function Receive(res: int, datagram: Bytes, beyond: Option<M.Message>): Received {
    if res == -ETIME || res == -ECANCELED then Cancelled
    else if res < 0 then Failed
    else
      match M.Decode(datagram)
      case Ok(m) => Got(Some(m))
      case Reject => Got(None)
      case Fault => Got(beyond)
  }

  class Resolver {
    var pending: map<Txid, PendingQuery>
    var ctxs: set<Txid>
    ghost var asked: seq<Ask>
    ghost var sent: seq<Sent>
    ghost var fired: seq<Fired>
    var callbacks: nat

    ghost predicate Valid() reads this { callbacks == |asked| }

    ghost function Abs(): State reads this { State(pending, ctxs, asked, sent, fired) }

    constructor ()
      ensures Valid() && Abs() == START
    {
      pending, ctxs, asked, sent, fired, callbacks := map[], {}, [], [], [], 0;
    }

    method AllocTxid(draws: seq<Txid>) returns (t: Option<Txid>)
      ensures t == if Lucky(draws, pending) then Some(FirstFree(draws, pending)) else None
    {
      var i := 0;
      assert draws[0..] == draws;
      while i < |draws| && draws[i] in pending
        invariant 0 <= i <= |draws|
        invariant Lucky(draws, pending) <==> Lucky(draws[i..], pending)
        invariant Lucky(draws, pending) ==> FirstFree(draws, pending) == FirstFree(draws[i..], pending)
      {
        SkipDraw(draws[i..], pending);
        assert draws[i..][1..] == draws[i + 1..];
        i := i + 1;
      }
      if i < |draws| {
        assert draws[i..][0] !in pending;
        t := Some(draws[i]);
      } else {
        t := None;
      }
    }

    method SubmitQuery(t: Txid, q: PendingQuery)
      requires Valid()
      modifies this
      ensures Valid() && callbacks == old(callbacks)
      ensures Abs() == Submit(old(Abs()), t, q.ask, q.callback, q.retries)
    {
      var wire := M.EncodeQuery(q.ask.name, q.ask.qtype, t);
      sent := sent + [Sent(q.callback, t, wire)];
      ctxs := ctxs + {t};
      pending := pending[t := q.(wire := wire)];
    }

    method Resolve(r: Request)
      requires Valid()
      modifies this
      ensures Valid() && Abs() == AfterResolve(old(Abs()), r)
    {
      var t := AllocTxid(r.draws);
      if t.Some? {
        asked, callbacks := asked + [r.ask], callbacks + 1;
        SubmitQuery(t.value, PendingQuery(r.ask, callbacks - 1, 0, []));
      }
    }

    /** The callback runs, with the queries it starts, before the entry is erased. */
    method Finish(t: Txid, status: Status, cause: Cause, nested: seq<Request>)
      requires Valid() && t in pending
      modifies this
      ensures Valid() && Abs() == AfterFinish(old(Abs()), t, status, cause, nested)
    {
      fired := Fire(Abs(), t, status, cause).fired;
      ghost var whole := ResolveAll(Abs(), nested);
      var i := 0;
      assert nested[0..] == nested;
      while i < |nested|
        invariant 0 <= i <= |nested| && Valid()
        invariant ResolveAll(Abs(), nested[i..]) == whole
      {
        assert nested[i..][1..] == nested[i + 1..];
        Resolve(nested[i]);
        i := i + 1;
      }
      pending, ctxs := pending - {t}, ctxs - {t};
    }

    method OnSend(t: Txid, nested: seq<Request>)
      requires Valid()
      modifies this
      ensures Valid() && Abs() == AfterSend(old(Abs()), t, nested)
    {
      if t in pending { Finish(t, ServFail, Sending, nested); }
    }

    method OnRecv(t: Txid, res: int, datagram: Bytes, beyond: Option<M.Message>, draws: seq<Txid>, nested: seq<Request>)
      requires Valid()
      modifies this
      ensures Valid() && Abs() == AfterRecv(old(Abs()), t, Receive(res, datagram, beyond), draws, nested)
    {
      if t !in pending {
        ctxs := ctxs - {t};
      } else if res == -ETIME || res == -ECANCELED {
        if pending[t].retries < MAX_RETRIES { Retry(t, draws); } else { Finish(t, Timeout, Receiving(Cancelled, t in ctxs), nested); }
      } else if res < 0 {
        Finish(t, ServFail, Receiving(Failed, t in ctxs), nested);
      } else {
        var decoded := M.DecodeMessage(datagram);
        var reply := if decoded.Ok? then Some(decoded.value) else if decoded.Fault? then beyond else None;
        OnReply(t, reply, nested);
      }
    }

    method Retry(t: Txid, draws: seq<Txid>)
      requires Valid() && t in pending
      modifies this
      ensures Valid() && Abs() == RetryAs(old(Abs()), t, draws)
    {
      var t' := AllocTxid(draws);
      if t'.Some? {
        var q := pending[t];
        pending, ctxs := pending - {t}, ctxs - {t};
        SubmitQuery(t'.value, q.(retries := q.retries + 1));
      }
    }

    /** A datagram for a pending id. */
    method OnReply(t: Txid, reply: Option<M.Message>, nested: seq<Request>)
      requires Valid() && t in pending
      modifies this
      ensures Valid() && Abs() == AfterRecv(old(Abs()), t, Got(reply), [], nested)
    {
      var cause := Receiving(Got(reply), t in ctxs);
      if t !in ctxs || reply.None? {
        Finish(t, ParseError, cause, nested);
      } else if reply.value.id != t {
        ctxs := (ctxs + {t}) - {t};
      } else if reply.value.flags.rcode == 3 {
        Finish(t, NXDomain, cause, nested);
      } else if reply.value.flags.rcode != 0 || reply.value.flags.tc {
        Finish(t, ServFail, cause, nested);
      } else {
        Finish(t, OK, cause, nested);
      }
    }
  }

  lemma SkipDraw(draws: seq<Txid>, pending: map<Txid, PendingQuery>)
    requires draws != [] && draws[0] in pending
    ensures Lucky(draws, pending) <==> Lucky(draws[1..], pending)
    ensures Lucky(draws, pending) ==> FirstFree(draws, pending) == FirstFree(draws[1..], pending)
  {
    if i :| 0 <= i < |draws| && draws[i] !in pending { assert draws[1..][i - 1] !in pending; }
  }
}
