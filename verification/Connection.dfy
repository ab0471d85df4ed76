/**
 One connection of the io_uring loop (src/io/io_uring_loop.cpp), cut out of the loop's tables: its entries in
 buffers_, sessions_ and tls_conns_, and what the kernel holds for it.  Every handler of the loop touches the
 entries of one connection id only, so a handler is a function on this slice; module EventLoop puts the slices
 together into runs, and its class works on the tables themselves.
 */
module Connection {
  import opened Common

  type Chunk = Bytes

  const ECANCELED := 125
  const ENOENT := 2

  datatype Buffer = Buffer(queue: seq<Chunk>, pending: bool, closing: bool, inflight: int)

  /** What the loop asks a session: wants_close() and wants_tls_upgrade(). */
  datatype Session = Session(wantsClose: bool, wantsTls: bool)

  /** The kernel's side: reads and writes it holds, every chunk queued so far, and every chunk popped on completion. */
  datatype Kernel = Kernel(recvs: nat, sends: seq<Chunk>, submitted: seq<Chunk>, completed: seq<Chunk>)

  /** tls is the handshake_done flag of the connection's entry in tls_conns_. */
  datatype Conn = Conn(buf: Option<Buffer>, session: Option<Session>, tls: Option<bool>, kernel: Kernel)
  {
    predicate Live() { buf.Some? }
    predicate Closing() { buf.Some? && buf.value.closing }
  }

  /** A connection id that was never accepted. */
  const NO_CONN := Conn(None, None, None, Kernel(0, [], [], []))

  /** What session code may do with its own connection.  `cipher` is the outcome of TLS::Connection::encrypt: None when it throws. */
  datatype Action =
    | Write(data: Chunk, cipher: Option<Chunk>)
    | Close
    | Upgrade
    | SetFlags(wantsClose: bool, wantsTls: bool)

  /** What happens while a successful read is processed: feed_encryption may throw, finish the handshake and return ciphertext. */
  datatype Reading = Reading(actions: seq<Action>, feedThrows: bool, handshakeDone: bool, toSend: Chunk)

  const EMPTY_BUFFER := Buffer([], false, false, 0)

  /** flush_write names buffers_[conn_id] in its log line, so a missing entry would be created. */
  function FlushWrite(c: Conn): Conn {
    if c.buf.None? then c.(buf := Some(EMPTY_BUFFER))
    else if c.buf.value.queue == [] then c
    else
      var b := c.buf.value;
      c.(buf := Some(b.(pending := true, inflight := b.inflight + 1)),
         kernel := c.kernel.(sends := c.kernel.sends + [b.queue[0]]))
  }

  function Enqueue(c: Conn, data: Chunk): Conn {
    if c.buf.None? then c
    else
      var b := c.buf.value;
      var c' := c.(buf := Some(b.(queue := b.queue + [data])),
                   kernel := c.kernel.(submitted := c.kernel.submitted + [data]));
      if b.pending then c' else FlushWrite(c')
  }

  function SubmitWrite(c: Conn, data: Chunk, raw: bool, cipher: Option<Chunk>): Conn {
    if c.buf.None? then c
    else if !raw && c.tls == Some(true) then
      if cipher.None? then SubmitClose(c) else Enqueue(c, cipher.value)
    else Enqueue(c, data)
  }

  function SubmitClose(c: Conn): Conn {
    if c.buf.None? then c
    else if c.buf.value.inflight > 0 then c.(buf := Some(c.buf.value.(closing := true)))
    else c.(buf := None, session := None, tls := None)
  }

  function UpgradeTls(c: Conn): Conn {
    if c.session.None? then c else c.(tls := Some(false))
  }

  function Act(c: Conn, a: Action): Conn {
    match a
    case Write(data, cipher) => SubmitWrite(c, data, false, cipher)
    case Close => SubmitClose(c)
    case Upgrade => UpgradeTls(c)
    case SetFlags(wc, wt) => if c.session.None? then c else c.(session := Some(Session(wc, wt)))
  }

  function ActAll(c: Conn, actions: seq<Action>): Conn
    decreases |actions|
  {
    if actions == [] then c else ActAll(Act(c, actions[0]), actions[1..])
  }

  function ArmRead(c: Conn): Conn
    requires c.Live()
  {
    c.(buf := Some(c.buf.value.(inflight := c.buf.value.inflight + 1)), kernel := c.kernel.(recvs := c.kernel.recvs + 1))
  }

  /** on_accept for a fresh id: the session's constructor queues its greeting before the session is registered. */
  function Accepted(greeting: seq<Chunk>): Conn {
    var c := ActAll(NO_CONN.(buf := Some(EMPTY_BUFFER)), Greet(greeting));
    if c.Live() then ArmRead(c.(session := Some(Session(false, false)))) else c
  }

  function Greet(greeting: seq<Chunk>): seq<Action> {
    seq(|greeting|, i requires 0 <= i < |greeting| => Write(greeting[i], None))
  }

  /** on_read from the re-lookup on: close when the session wants it or the connection is closing, otherwise re-arm. */
  function AfterRead(c: Conn): Conn {
    if c.buf.None? then c
    else if c.session.Some? && c.session.value.wantsClose then SubmitClose(c)
    else if !c.buf.value.closing then ArmRead(c)
    else SubmitClose(c)
  }

  /** tls_conns_ after feed_encryption: the handshake may have finished. */
  function Shake(c: Conn, io: Reading): Conn {
    if c.tls.Some? then c.(tls := Some(c.tls.value || io.handshakeDone)) else c
  }

  function Process(c: Conn, io: Reading): Conn {
    var c1 := ActAll(c, io.actions);
    if c.tls.None? then AfterRead(c1)
    else if io.feedThrows then SubmitClose(Shake(c1, io))
    else if io.toSend == [] then AfterRead(Shake(c1, io))
    else AfterRead(SubmitWrite(Shake(c1, io), io.toSend, true, None))
  }

  function OnRead(c: Conn, res: int, io: Reading): Conn {
    if c.buf.None? || c.session.None? then c
    else
      var c1 := c.(buf := Some(c.buf.value.(inflight := c.buf.value.inflight - 1)));
      if res == -ECANCELED || res == -ENOENT then c1
      else if res <= 0 then SubmitClose(c1)
      else Process(c1, io)
  }

  function PopWrite(c: Conn): Conn
    requires c.Live()
  {
    var b := c.buf.value;
    if b.queue == [] then c.(buf := Some(b.(pending := false)))
    else c.(buf := Some(b.(pending := false, queue := b.queue[1..])),
            kernel := c.kernel.(completed := c.kernel.completed + [b.queue[0]]))
  }

  function UpgradeAndListen(c: Conn): Conn
    requires c.Live() && c.session.Some?
  {
    var c' := UpgradeTls(c.(session := Some(c.session.value.(wantsTls := false))));
    if c'.buf.value.closing then c' else ArmRead(c')
  }

  function OnWrite(c: Conn, res: int): Conn {
    if c.buf.None? then c
    else
      var c1 := c.(buf := Some(c.buf.value.(inflight := c.buf.value.inflight - 1)));
      if res < 0 then SubmitClose(c1)
      else
        var c2 := PopWrite(c1);
        if c2.session.Some? && c2.session.value.wantsTls then
          UpgradeAndListen(c2)
        else if c2.buf.value.queue != [] && !c2.buf.value.closing then FlushWrite(c2)
        else if c2.buf.value.closing then SubmitClose(c2)
        else c2
  }

  // ----- completions: the kernel gives an operation back, then the handler runs

  datatype Completion = ReadDone(res: int, io: Reading) | WriteDone(res: int)

  /** The kernel can only complete what it holds. */
  predicate Enabled(c: Conn, e: Completion) {
    match e
    case ReadDone(_, _) => c.kernel.recvs > 0
    case WriteDone(_) => c.kernel.sends != []
  }

  function Complete(c: Conn, e: Completion): Conn
    requires Enabled(c, e)
  {
    match e
    case ReadDone(res, io) => OnRead(c.(kernel := c.kernel.(recvs := c.kernel.recvs - 1)), res, io)
    case WriteDone(res) => OnWrite(c.(kernel := c.kernel.(sends := c.kernel.sends[1..])), res)
  }

  // ----- what every completion keeps

  /** inflight is exactly what the kernel holds, and an id without a buffer holds nothing anywhere. */
  ghost predicate Counted(c: Conn) {
    && (c.buf.None? ==> c.session.None? && c.tls.None? && c.kernel.recvs == 0 && c.kernel.sends == [])
    && (c.Live() ==> c.buf.value.inflight == c.kernel.recvs + |c.kernel.sends|)
  }

  /** At most one write is in the kernel, it is the head of the queue, and popped chunks followed by the queue are all chunks in order. */
  ghost predicate Fifo(c: Conn) {
    && c.kernel.completed <= c.kernel.submitted
    && (c.Live() ==>
      var b := c.buf.value;
      && c.kernel.completed + b.queue == c.kernel.submitted
      && (c.kernel.sends != [] ==> b.pending && b.queue != [] && c.kernel.sends == [b.queue[0]]))
  }

  /** Inside a handler: the invariant without the session entry, which on_accept adds last. */
  ghost predicate Sound(c: Conn) { Counted(c) && Fifo(c) }

  ghost predicate Safe(c: Conn) { Sound(c) && (c.Live() ==> c.session.Some?) }

  lemma WriteKeeps(c: Conn, data: Chunk, raw: bool, cipher: Option<Chunk>)
    requires Sound(c)
    ensures Sound(SubmitWrite(c, data, raw, cipher))
    ensures Flowing(c) ==> Flowing(SubmitWrite(c, data, raw, cipher))
  {
    EnqueueKeeps(c, data);
    if cipher.Some? { EnqueueKeeps(c, cipher.value); }
  }

  lemma EnqueueKeeps(c: Conn, data: Chunk)
    requires Sound(c)
    ensures Sound(Enqueue(c, data)) && (Flowing(c) ==> Flowing(Enqueue(c, data)))
  {
    if c.Live() { Assoc(c.kernel.completed, c.buf.value.queue, [data]); }
  }

  lemma {:induction false} ActionsKeep(c: Conn, actions: seq<Action>)
    requires Sound(c)
    ensures var c' := ActAll(c, actions);
      && Sound(c')
      && (Flowing(c) ==> Flowing(c'))
      && c'.kernel.recvs == c.kernel.recvs
      && (c'.Live() ==> c.Live() && c'.session.Some? == c.session.Some?)
      && (c'.session.Some? ==> c.session.Some? && c'.session.value.wantsTls == TlsFlag(actions, c.session.value.wantsTls))
    decreases |actions|
  {
    if actions != [] {
      match actions[0] {
        case Write(data, cipher) => WriteKeeps(c, data, false, cipher);
        case _ =>
      }
      ActionsKeep(Act(c, actions[0]), actions[1..]);
    }
  }

  /** What session code does to the connection it runs for. */
  ghost predicate Handled(c: Conn, c': Conn, tlsFlag: bool) {
    && Safe(c')
    && (c'.Live() ==>
      && c.Live()
      && (Flowing(c) ==> Flowing(c'))
      && (c.Closing() ==> c'.Closing())
      && c'.kernel.recvs == c.kernel.recvs
      && c'.session.value.wantsTls == tlsFlag)
  }

  /** How a connection that survives a processed read stands: re-armed, or closing with something left to wait for. */
  ghost predicate Settled(c: Conn, c': Conn, tlsFlag: bool) {
    && Safe(c')
    && (c'.Live() ==>
      && c.Live()
      && (Flowing(c) ==> Flowing(c'))
      && (c.Closing() ==> c'.Closing())
      && c'.kernel.recvs == c.kernel.recvs + (if c'.Closing() then 0 else 1)
      && c'.session.value.wantsTls == tlsFlag
      && (c'.Closing() ==> c'.buf.value.inflight > 0))
  }

  lemma Settles(c: Conn, c': Conn, tlsFlag: bool)
    requires Handled(c, c', tlsFlag)
    ensures Settled(c, AfterRead(c'), tlsFlag)
    ensures Settled(c, SubmitClose(c'), tlsFlag)
  {
  }

  lemma ActionsHandle(c: Conn, io: Reading)
    requires Safe(c) && c.Live()
    ensures Handled(c, ActAll(c, io.actions), TlsFlag(io.actions, c.session.value.wantsTls))
    ensures Handled(c, Shake(ActAll(c, io.actions), io), TlsFlag(io.actions, c.session.value.wantsTls))
  {
    ActionsKeep(c, io.actions);
    if c.Closing() { ClosingStays(c, io.actions); }
  }

  lemma WriteHandles(c: Conn, c': Conn, tlsFlag: bool, data: Chunk)
    requires Handled(c, c', tlsFlag)
    ensures Handled(c, SubmitWrite(c', data, true, None), tlsFlag)
  {
    WriteKeeps(c', data, true, None);
  }

  lemma ProcessKeeps(c: Conn, io: Reading)
    requires Safe(c) && c.Live()
    ensures Settled(c, Process(c, io), TlsFlag(io.actions, c.session.value.wantsTls))
  {
    var flag := TlsFlag(io.actions, c.session.value.wantsTls);
    var c1 := ActAll(c, io.actions);
    ActionsHandle(c, io);
    WriteHandles(c, Shake(c1, io), flag, io.toSend);
    Settles(c, c1, flag);
    Settles(c, Shake(c1, io), flag);
    Settles(c, SubmitWrite(Shake(c1, io), io.toSend, true, None), flag);
  }

  lemma {:induction false} ClosingStays(c: Conn, actions: seq<Action>)
    requires c.Closing() || !c.Live()
    ensures ActAll(c, actions).Closing() || !ActAll(c, actions).Live()
    decreases |actions|
  {
    if actions != [] { ClosingStays(Act(c, actions[0]), actions[1..]); }
  }

  /** The state a handler works on: the operation is back from the kernel and inflight is decremented. */
  function Released(c: Conn, e: Completion): Conn
    requires c.Live() && Enabled(c, e)
  {
    var c' := c.(buf := Some(c.buf.value.(inflight := c.buf.value.inflight - 1)));
    if e.ReadDone? then c'.(kernel := c.kernel.(recvs := c.kernel.recvs - 1))
    else c'.(kernel := c.kernel.(sends := c.kernel.sends[1..]))
  }

  lemma PopKeeps(c: Conn, res: int)
    requires Safe(c) && c.Live() && c.kernel.sends != []
    ensures Safe(PopWrite(Released(c, WriteDone(res)))) && PopWrite(Released(c, WriteDone(res))).kernel.sends == []
    ensures Sound(SubmitClose(Released(c, WriteDone(res))))
  {
    var b := c.buf.value;
    assert c.kernel.completed + [b.queue[0]] + b.queue[1..] == c.kernel.submitted;
  }

  /** Safety of one completion, for every session behaviour and every result code.  The lookups that guard the handlers never miss. */
  lemma CompletionKeeps(c: Conn, e: Completion)
    requires Safe(c) && Enabled(c, e)
    ensures c.Live() && c.session.Some?
    ensures Safe(Complete(c, e))
  {
    match e {
      case ReadDone(res, io) => if res > 0 { ProcessKeeps(Released(c, e), io); }
      case WriteDone(res) => PopKeeps(c, res);
    }
  }

  lemma AcceptedIsSafe(greeting: seq<Chunk>)
    ensures Safe(Accepted(greeting)) && Accepted(greeting).Live() && Progressing(Accepted(greeting))
  {
    GreetingQueued(NO_CONN.(buf := Some(EMPTY_BUFFER)), greeting);
  }

  lemma {:induction false} GreetingQueued(c: Conn, greeting: seq<Chunk>)
    requires Sound(c) && c.Live() && c.tls.None? && Flowing(c) && !c.Closing()
    ensures var c' := ActAll(c, Greet(greeting));
      Sound(c') && c'.Live() && Flowing(c') && !c'.Closing() && c'.kernel.recvs == c.kernel.recvs
    decreases |greeting|
  {
    if greeting != [] {
      WriteKeeps(c, greeting[0], false, None);
      assert Greet(greeting)[1..] == Greet(greeting[1..]);
      GreetingQueued(SubmitWrite(c, greeting[0], false, None), greeting[1..]);
    }
  }

  // ----- no connection is stranded

  /** While a connection is not closing, queued chunks are being sent: pending, a write in the kernel and a non-empty queue coincide. */
  ghost predicate Flowing(c: Conn) {
    c.Live() && !c.Closing() ==>
      (c.buf.value.pending <==> c.kernel.sends != []) && (c.buf.value.queue != [] <==> c.kernel.sends != [])
  }

  /** The value of tls_upgrade_pending_ when on_data returns. */
  function TlsFlag(actions: seq<Action>, was: bool): bool
    decreases |actions|
  {
    if actions == [] then was
    else TlsFlag(actions[1..], if actions[0].SetFlags? then actions[0].wantsTls else was)
  }

  /** A connection that will hear from the kernel again: one read outstanding unless closing, something outstanding even then. */
  ghost predicate Progressing(c: Conn) {
    && Safe(c)
    && Flowing(c)
    && c.kernel.recvs <= 1
    && (c.Live() ==>
      && !c.session.value.wantsTls
      && (c.Closing() ==> c.buf.value.inflight > 0)
      && (!c.Closing() ==> c.kernel.recvs == 1))
  }

  predicate Cancelled(e: Completion) { e.ReadDone? && (e.res == -ECANCELED || e.res == -ENOENT) }

  /** on_data returns with its TLS flag cleared, as the sessions do. */
  predicate FlagCleared(e: Completion) { e.ReadDone? && e.res > 0 ==> !TlsFlag(e.io.actions, false) }

  /** Progress is kept exactly when the completion is not a cancelled read that leaves nothing else to wait for. */
  lemma ProgressKept(c: Conn, e: Completion)
    requires Progressing(c) && Enabled(c, e) && FlagCleared(e)
    ensures Progressing(Complete(c, e)) <==> !(Cancelled(e) && !(c.Closing() && c.kernel.sends != []))
  {
    CompletionKeeps(c, e);
    match e {
      case ReadDone(res, io) =>
        if res > 0 { ProcessKeeps(Released(c, e), io); }
      case WriteDone(res) => PopKeeps(c, res);
    }
  }

  /** A closing connection's drain measure: a read may still queue one last write. */
  function Remaining(c: Conn): nat { 2 * c.kernel.recvs + |c.kernel.sends| }

  lemma DrainStep(c: Conn, e: Completion)
    requires Progressing(c) && Enabled(c, e) && FlagCleared(e) && !Cancelled(e) && c.Closing()
    ensures Remaining(Complete(c, e)) < Remaining(c) <= 3
    ensures !Complete(c, e).Live() || Complete(c, e).Closing()
  {
    CompletionKeeps(c, e);
    if e.ReadDone? && e.res > 0 {
      ProcessKeeps(Released(c, e), e.io);
    }
  }

  /** Why cancelled reads are excluded: an idle connection whose read is cancelled stays in the tables with nothing outstanding. */
  lemma CancelledReadStrands()
    ensures var c := Complete(Accepted([]), ReadDone(-ECANCELED, Reading([], false, false, [])));
      Safe(c) && c.Live() && !c.Closing() && c.kernel.recvs == 0 && c.kernel.sends == []
  {
    AcceptedIsSafe([]);
  }

  /** Why the TLS flag must be cleared: a flag left set makes the next write completion arm a second read. */
  lemma LingeringFlagReadsTwice(chunk: Chunk)
    ensures var c := Conn(Some(Buffer([chunk], true, false, 2)), Some(Session(false, false)), None, Kernel(1, [chunk], [chunk], []));
      && c == Accepted([chunk])
      && var c' := Complete(c, ReadDone(1, Reading([SetFlags(false, true)], false, false, [])));
      && c' == c.(session := Some(Session(false, true)))
      && Complete(c', WriteDone(1)).kernel.recvs == 2
  {
    var c0 := NO_CONN.(buf := Some(EMPTY_BUFFER));
    assert c0.kernel.sends + [chunk] == [chunk];
    var w := [Write(chunk, None)];
    assert Greet([chunk]) == w && w[1..] == [];
    calc {
      ActAll(c0, w);
      ActAll(SubmitWrite(c0, chunk, false, None), []);
      SubmitWrite(c0, chunk, false, None);
      Conn(Some(Buffer([chunk], true, false, 1)), None, None, Kernel(0, [chunk], [chunk], []));
    }
    var a := [SetFlags(false, true)];
    forall c: Conn ensures ActAll(c, a) == Act(c, a[0]) { assert ActAll(Act(c, a[0]), a[1..]) == Act(c, a[0]); }
  }

  // ----- what is handed to the kernel

  /** The chunks that actions queue, read off the actions: the ciphertext of a write once TLS is established, the data before that, nothing when encryption fails. */
  function Sealed(actions: seq<Action>, tls: Option<bool>, hasSession: bool): seq<Chunk>
    decreases |actions|
  {
    if actions == [] then []
    else
      var rest := actions[1..];
      match actions[0]
      case Write(data, cipher) =>
        (if tls != Some(true) then [data] else if cipher.Some? then [cipher.value] else []) + Sealed(rest, tls, hasSession)
      case Upgrade => Sealed(rest, if hasSession then Some(false) else tls, hasSession)
      case _ => Sealed(rest, tls, hasSession)
  }

  /** The connection has queued these chunks behind what it had queued before; if it is gone, only the first of them. */
  ghost predicate Queued(c: Conn, before: seq<Chunk>, chunks: seq<Chunk>) {
    c.kernel.submitted <= before + chunks && (c.Live() ==> c.kernel.submitted == before + chunks)
  }

  lemma QueuedInTurn(c: Conn, before: seq<Chunk>, a: seq<Chunk>, b: seq<Chunk>)
    requires Queued(c, before + a, b)
    ensures Queued(c, before, a + b)
  {
    Assoc(before, a, b);
  }

  /** What one write queues. */
  function WriteSealed(data: Chunk, cipher: Option<Chunk>, tls: Option<bool>): seq<Chunk> {
    if tls != Some(true) then [data] else if cipher.Some? then [cipher.value] else []
  }

  lemma EnqueueQueues(c: Conn, data: Chunk)
    requires c.Live()
    ensures Queued(Enqueue(c, data), c.kernel.submitted, [data])
    ensures Enqueue(c, data).tls == c.tls && Enqueue(c, data).session == c.session && Enqueue(c, data).Live()
  {
  }

  lemma WriteQueues(c: Conn, data: Chunk, cipher: Option<Chunk>)
    requires c.Live()
    ensures var c' := SubmitWrite(c, data, false, cipher);
      Queued(c', c.kernel.submitted, WriteSealed(data, cipher, c.tls)) && (c'.Live() ==> c'.tls == c.tls && c'.session == c.session)
  {
    if c.tls != Some(true) {
      EnqueueQueues(c, data);
    } else if cipher.Some? {
      EnqueueQueues(c, cipher.value);
    } else {
      assert c.kernel.submitted + [] == c.kernel.submitted;
    }
  }

  lemma {:induction false} GoneQueuesNothing(c: Conn, actions: seq<Action>)
    requires !c.Live()
    ensures !ActAll(c, actions).Live() && ActAll(c, actions).kernel == c.kernel
    decreases |actions|
  {
    if actions != [] { GoneQueuesNothing(Act(c, actions[0]), actions[1..]); }
  }

  /** Session code hands over exactly its sealed chunks, in order: under established TLS no plaintext. */
  lemma {:induction false} ActionsQueue(c: Conn, actions: seq<Action>)
    requires c.Live()
    ensures Queued(ActAll(c, actions), c.kernel.submitted, Sealed(actions, c.tls, c.session.Some?))
    decreases |actions|
  {
    var before := c.kernel.submitted;
    if actions == [] {
      assert before + [] == before;
    } else {
      var a, rest, c' := actions[0], actions[1..], Act(c, actions[0]);
      var first := if a.Write? then WriteSealed(a.data, a.cipher, c.tls) else [];
      var tls := if a.Upgrade? && c.session.Some? then Some(false) else c.tls;
      var later := Sealed(rest, tls, c.session.Some?);
      if a.Write? { WriteQueues(c, a.data, a.cipher); } else { assert before + [] == before; }
      assert Sealed(actions, c.tls, c.session.Some?) == first + later by { assert [] + later == later; }
      if c'.Live() {
        assert c'.tls == tls && c'.session.Some? == c.session.Some?;
        ActionsQueue(c', rest);
        QueuedInTurn(ActAll(c', rest), before, first, later);
      } else {
        GoneQueuesNothing(c', rest);
        Assoc(before, first, later);
      }
    }
  }

  /** Under established TLS that is not replaced, every chunk handed over is what encryption made of some write. */
  lemma {:induction false} SealedIsCiphertext(actions: seq<Action>, hasSession: bool, x: Chunk)
    requires x in Sealed(actions, Some(true), hasSession) && forall a | a in actions :: !a.Upgrade?
    ensures exists a | a in actions :: a.Write? && a.cipher == Some(x)
    decreases |actions|
  {
    var a, rest := actions[0], actions[1..];
    if a.Write? && a.cipher == Some(x) {
      assert a in actions;
    } else {
      SealedIsCiphertext(rest, hasSession, x);
      var b :| b in rest && b.Write? && b.cipher == Some(x);
      assert b in actions;
    }
  }

  /** What a completion hands over: the sealed chunks of session code, and after them what the TLS engine has to send. */
  function HandedOver(c: Conn, e: Completion): seq<Chunk> {
    if e.WriteDone? || e.res <= 0 then []
    else
      Sealed(e.io.actions, c.tls, c.session.Some?) +
      if c.tls.Some? && !e.io.feedThrows && e.io.toSend != [] then [e.io.toSend] else []
  }

  lemma CompletionQueues(c: Conn, e: Completion)
    requires Safe(c) && Enabled(c, e)
    ensures Queued(Complete(c, e), c.kernel.submitted, HandedOver(c, e))
  {
    CompletionKeeps(c, e);
    if e.ReadDone? && e.res > 0 {
      ProcessQueues(Released(c, e), e.io);
    } else {
      assert c.kernel.submitted + [] == c.kernel.submitted;
    }
  }

  lemma ProcessQueues(c: Conn, io: Reading)
    requires c.Live()
    ensures Queued(Process(c, io), c.kernel.submitted,
      Sealed(io.actions, c.tls, c.session.Some?) + if c.tls.Some? && !io.feedThrows && io.toSend != [] then [io.toSend] else [])
  {
    var chunks := Sealed(io.actions, c.tls, c.session.Some?);
    var c1 := ActAll(c, io.actions);
    ActionsQueue(c, io.actions);
    assert chunks + [] == chunks;
    if c.tls.Some? && !io.feedThrows && io.toSend != [] {
      var shaken := Shake(c1, io);
      if shaken.Live() {
        EnqueueQueues(shaken, io.toSend);
        QueuedInTurn(SubmitWrite(shaken, io.toSend, true, None), c.kernel.submitted, chunks, [io.toSend]);
      } else {
        Assoc(c.kernel.submitted, chunks, [io.toSend]);
      }
    }
  }

  /** A new connection has queued its greeting. */
  lemma AcceptedQueues(greeting: seq<Chunk>)
    ensures Accepted(greeting).Live() && Accepted(greeting).kernel.submitted == greeting && Accepted(greeting).kernel.recvs == 1
  {
    AcceptedIsSafe(greeting);
    var c := NO_CONN.(buf := Some(EMPTY_BUFFER));
    ActionsQueue(c, Greet(greeting));
    GreetingSealed(greeting);
    assert [] + greeting == greeting;
  }

  lemma {:induction false} GreetingSealed(greeting: seq<Chunk>)
    ensures Sealed(Greet(greeting), None, false) == greeting
    decreases |greeting|
  {
    if greeting != [] {
      GreetingSealed(greeting[1..]);
      assert Greet(greeting)[1..] == Greet(greeting[1..]) && Greet(greeting)[0] == Write(greeting[0], None);
      assert greeting == [greeting[0]] + greeting[1..];
    }
  }

  // ----- established TLS

  /** No new upgrade is asked for, as by sessions that refuse STARTTLS once TLS is up. */
  predicate NoUpgrade(e: Completion) {
    e.ReadDone? ==> forall a | a in e.io.actions :: !a.Upgrade? && (a.SetFlags? ==> !a.wantsTls)
  }

  ghost predicate Established(c: Conn) { c.Live() ==> c.tls == Some(true) && c.session.Some? && !c.session.value.wantsTls }

  /** What the TLS engine made: ciphertext of a write, or a record of its own. */
  predicate Encrypted(e: Completion, x: Chunk) {
    e.ReadDone? && (x == e.io.toSend || exists a | a in e.io.actions :: a.Write? && a.cipher == Some(x))
  }

  lemma {:induction false} ActionsStayEstablished(c: Conn, actions: seq<Action>)
    requires Established(c) && forall a | a in actions :: !a.Upgrade? && (a.SetFlags? ==> !a.wantsTls)
    ensures Established(ActAll(c, actions))
    decreases |actions|
  {
    if actions != [] { ActionsStayEstablished(Act(c, actions[0]), actions[1..]); }
  }

  /** Established TLS stays, and all that is then handed over is encrypted. */
  lemma EstablishedStays(c: Conn, e: Completion)
    requires Safe(c) && Enabled(c, e) && Established(c) && NoUpgrade(e)
    ensures Established(Complete(c, e))
    ensures forall x | x in HandedOver(c, e) :: Encrypted(e, x)
  {
    CompletionKeeps(c, e);
    if e.ReadDone? && e.res > 0 { ActionsStayEstablished(Released(c, e), e.io.actions); }
    HandedIsEncrypted(c, e);
  }

  lemma HandedIsEncrypted(c: Conn, e: Completion)
    requires c.tls == Some(true) && c.session.Some? && NoUpgrade(e)
    ensures forall x | x in HandedOver(c, e) :: Encrypted(e, x)
  {
    if e.ReadDone? && e.res > 0 {
      forall x | x in Sealed(e.io.actions, Some(true), true) ensures Encrypted(e, x) {
        SealedIsCiphertext(e.io.actions, true, x);
      }
    }
  }

  /** Where TLS stands after a completion, read off the completion: an upgrade starts a handshake, and only the TLS engine finishes it. */
  function TlsAfter(c: Conn, e: Completion): Option<bool> {
    match e
    case ReadDone(res, io) =>
      if res <= 0 then c.tls
      else
        var t := if Upgrade in io.actions then Some(false) else c.tls;
        if c.tls.Some? then Some(t.value || io.handshakeDone) else t
    case WriteDone(res) => if res >= 0 && c.session.Some? && c.session.value.wantsTls then Some(false) else c.tls
  }

  lemma {:induction false} ActionsTls(c: Conn, actions: seq<Action>)
    requires Safe(c) && c.Live()
    ensures var c' := ActAll(c, actions); c'.Live() ==> c'.tls == if Upgrade in actions then Some(false) else c.tls
    decreases |actions|
  {
    if actions != [] {
      var a, c' := actions[0], Act(c, actions[0]);
      if a.Write? { WriteKeeps(c, a.data, false, a.cipher); }
      if c'.Live() { ActionsTls(c', actions[1..]); } else { GoneQueuesNothing(c', actions[1..]); }
    }
  }

  lemma TlsMoves(c: Conn, e: Completion)
    requires Safe(c) && Enabled(c, e)
    ensures Complete(c, e).Live() ==> Complete(c, e).tls == TlsAfter(c, e)
  {
    CompletionKeeps(c, e);
    if e.ReadDone? && e.res > 0 { ProcessTls(Released(c, e), e.io); }
  }

  lemma ProcessTls(c: Conn, io: Reading)
    requires Safe(c) && c.Live()
    ensures var t := if Upgrade in io.actions then Some(false) else c.tls;
      Process(c, io).Live() ==> Process(c, io).tls == if c.tls.Some? then Some(t.value || io.handshakeDone) else t
  {
    ActionsTls(c, io.actions);
  }

  // ----- when a connection ends

  /** Session code closes its connection: it says so, or a write cannot be encrypted. */
  predicate Closes(actions: seq<Action>, tls: Option<bool>)
    decreases |actions|
  {
    actions != [] &&
    match actions[0]
    case Close => true
    case Write(_, cipher) => (tls == Some(true) && cipher.None?) || Closes(actions[1..], tls)
    case Upgrade => Closes(actions[1..], Some(false))
    case SetFlags(_, _) => Closes(actions[1..], tls)
  }

  /** What wants_close() answers when on_data returns. */
  function CloseFlag(actions: seq<Action>, was: bool): bool
    decreases |actions|
  {
    if actions == [] then was
    else CloseFlag(actions[1..], if actions[0].SetFlags? then actions[0].wantsClose else was)
  }

  /** A read that reports the end of the stream or an error, or whose processing closes; or a write that fails. */
  predicate EndsIt(c: Conn, e: Completion) {
    match e
    case ReadDone(res, io) =>
      if res <= 0 then !Cancelled(e)
      else
        Closes(io.actions, c.tls) || CloseFlag(io.actions, c.session.Some? && c.session.value.wantsClose) ||
        (c.tls.Some? && io.feedThrows)
    case WriteDone(res) => res < 0
  }

  predicate Ended(c: Conn) { !c.Live() || c.Closing() }

  lemma {:induction false} ActionsEnd(c: Conn, actions: seq<Action>)
    requires Safe(c) && !Ended(c)
    ensures var c' := ActAll(c, actions);
      (Ended(c') <==> Closes(actions, c.tls)) &&
      (c'.Live() ==> c'.session.Some? && c'.session.value.wantsClose == CloseFlag(actions, c.session.value.wantsClose))
    decreases |actions|
  {
    if actions != [] {
      var a, c' := actions[0], Act(c, actions[0]);
      if a.Write? { WriteKeeps(c, a.data, false, a.cipher); }
      if Ended(c') { EndedKeepsFlag(c', actions[1..]); } else { ActionsEnd(c', actions[1..]); }
    }
  }

  lemma {:induction false} EndedKeepsFlag(c: Conn, actions: seq<Action>)
    requires Safe(c) && Ended(c)
    ensures var c' := ActAll(c, actions);
      Ended(c') && (c'.Live() ==> c.Live() && c'.session.Some? && c'.session.value.wantsClose == CloseFlag(actions, c.session.value.wantsClose))
    decreases |actions|
  {
    if actions != [] {
      if actions[0].Write? { WriteKeeps(c, actions[0].data, false, actions[0].cipher); }
      EndedKeepsFlag(Act(c, actions[0]), actions[1..]);
    }
  }

  /** An open connection is closing or gone after a completion if and only if this completion ends it... */
  lemma EndsIff(c: Conn, e: Completion)
    requires Safe(c) && Enabled(c, e) && !Ended(c)
    ensures Ended(Complete(c, e)) <==> EndsIt(c, e)
  {
    CompletionKeeps(c, e);
    if e.ReadDone? && e.res > 0 { ProcessEnds(Released(c, e), e.io); }
  }

  lemma ProcessEnds(c: Conn, io: Reading)
    requires Safe(c) && !Ended(c)
    ensures Ended(Process(c, io)) <==>
      Closes(io.actions, c.tls) || CloseFlag(io.actions, c.session.value.wantsClose) || (c.tls.Some? && io.feedThrows)
  {
    ActionsEnd(c, io.actions);
  }

  /** ...and what is closing or gone stays so. */
  lemma EndedStays(c: Conn, e: Completion)
    requires Safe(c) && Enabled(c, e) && Ended(c)
    ensures Ended(Complete(c, e))
  {
    CompletionKeeps(c, e);
    if e.ReadDone? && e.res > 0 { ClosingStays(Released(c, e), e.io.actions); }
  }
}
