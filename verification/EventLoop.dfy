/**
 The io_uring loop as a whole (src/io/io_uring_loop.cpp): runs of accepted connections and completions in any
 order the kernel chooses, with arbitrary session behaviour, and the loop's tables as a class.
 */
module EventLoop {
  import opened Common
  import opened C = Connection

  const MAX_CONNECTIONS := 100

  /** Every id ever accepted, with what is left of it, and next_conn_id. */
  datatype World = World(conns: map<nat, Conn>, next: nat)
  {
    function Get(id: nat): Conn { if id in conns then conns[id] else NO_CONN }
    function LiveIds(): set<nat> { set id | id in conns && conns[id].Live() }
  }

  const START := World(map[], 1)

  /** An accept completion, or the completion of an operation on a connection. */
  datatype Event = Accept(res: int, greeting: seq<Chunk>) | Done(id: nat, completion: Completion)

  predicate Possible(w: World, e: Event) { e.Done? ==> Enabled(w.Get(e.id), e.completion) }

  function Step(w: World, e: Event): World
    requires Possible(w, e)
  {
    match e
    case Accept(res, greeting) =>
      if |w.LiveIds()| >= MAX_CONNECTIONS || res <= 0 then w
      else World(w.conns[w.next := Accepted(greeting)], w.next + 1)
    case Done(id, completion) => w.(conns := w.conns[id := Complete(w.Get(id), completion)])
  }

  /** A run: every completion is of an operation the kernel holds at that point. */
  ghost predicate IsRun(w: World, run: seq<Event>)
    decreases |run|
  {
    run == [] || (Possible(w, run[0]) && IsRun(Step(w, run[0]), run[1..]))
  }

  ghost function After(w: World, run: seq<Event>): World
    requires IsRun(w, run)
    decreases |run|
  {
    if run == [] then w else After(Step(w, run[0]), run[1..])
  }

  // ----- safety over every run

  ghost predicate SafeWorld(w: World) {
    && (forall id :: id in w.conns ==> id < w.next && Safe(w.conns[id]))
    && |w.LiveIds()| <= MAX_CONNECTIONS
  }

  /** One connection changed or added, within the limit. */
  lemma UpdateIsSafe(w: World, id: nat, c: Conn, next: nat)
    requires SafeWorld(w) && Safe(c) && id < next && w.next <= next
    requires c.Live() ==> id in w.LiveIds() || |w.LiveIds()| < MAX_CONNECTIONS
    ensures SafeWorld(World(w.conns[id := c], next))
  {
    var w' := World(w.conns[id := c], next);
    if c.Live() && id !in w.LiveIds() {
      assert w'.LiveIds() == w.LiveIds() + {id};
    } else {
      assert w'.LiveIds() <= w.LiveIds();
      SubsetSize(w'.LiveIds(), w.LiveIds());
    }
  }

  lemma StepIsSafe(w: World, e: Event)
    requires SafeWorld(w) && Possible(w, e)
    ensures SafeWorld(Step(w, e))
  {
    match e {
      case Accept(res, greeting) =>
        AcceptedIsSafe(greeting);
        if |w.LiveIds()| < MAX_CONNECTIONS { UpdateIsSafe(w, w.next, Accepted(greeting), w.next + 1); }
      case Done(id, completion) =>
        CompletionKeeps(w.Get(id), completion);
        UpdateIsSafe(w, id, Complete(w.Get(id), completion), w.next);
    }
  }

  /**
   In every run, with any session behaviour and completion order: inflight is the exact number of operations the
   kernel holds, ids without a buffer hold none, writes are FIFO, and at most 100 connections are live.
   */
  lemma {:induction false} RunIsSafe(w: World, run: seq<Event>)
    requires SafeWorld(w) && IsRun(w, run)
    ensures SafeWorld(After(w, run))
    decreases |run|
  {
    if run != [] {
      StepIsSafe(w, run[0]);
      RunIsSafe(Step(w, run[0]), run[1..]);
    }
  }

  /** A removed connection never hears from the kernel again: no completion for its id is possible in the rest of any run, and its slice stays as it was. */
  lemma {:induction false} RemovedStaysRemoved(w: World, run: seq<Event>, id: nat)
    requires SafeWorld(w) && IsRun(w, run) && id < w.next && !w.Get(id).Live()
    ensures After(w, run).Get(id) == w.Get(id)
    ensures forall i :: 0 <= i < |run| && run[i].Done? ==> run[i].id != id
    decreases |run|
  {
    if run != [] {
      if run[0].Done? { CompletionKeeps(w.Get(run[0].id), run[0].completion); }
      StepIsSafe(w, run[0]);
      RemovedStaysRemoved(Step(w, run[0]), run[1..], id);
    }
  }

  // ----- no connection is stranded

  ghost predicate ProgressingWorld(w: World) {
    SafeWorld(w) && forall id :: id in w.conns ==> Progressing(w.conns[id])
  }

  /** Reads are not cancelled under the loop, and sessions clear their TLS flag before on_data returns. */
  ghost predicate Orderly(run: seq<Event>) {
    forall i :: 0 <= i < |run| && run[i].Done? ==> FlagCleared(run[i].completion) && !Cancelled(run[i].completion)
  }

  lemma {:induction false} RunProgresses(w: World, run: seq<Event>)
    requires ProgressingWorld(w) && IsRun(w, run) && Orderly(run)
    ensures ProgressingWorld(After(w, run))
    decreases |run|
  {
    if run != [] {
      StepProgresses(w, run[0]);
      RunProgresses(Step(w, run[0]), run[1..]);
    }
  }

  lemma StepProgresses(w: World, e: Event)
    requires ProgressingWorld(w) && Possible(w, e) && Orderly([e])
    ensures ProgressingWorld(Step(w, e))
  {
    StepIsSafe(w, e);
    match e {
      case Accept(res, greeting) => AcceptedIsSafe(greeting);
      case Done(id, completion) =>
        assert [e][0] == e;
        CompletionKeeps(w.Get(id), completion);
        ProgressKept(w.Get(id), completion);
    }
  }

  ghost function Heard(run: seq<Event>, id: nat): nat {
    if run == [] then 0 else (if run[0].Done? && run[0].id == id then 1 else 0) + Heard(run[1..], id)
  }

  /** Once closing, a connection is gone after at most three of its completions: each one lowers what remains, and nothing is left only when it is removed. */
  lemma {:induction false} ClosingDrains(w: World, run: seq<Event>, id: nat)
    requires ProgressingWorld(w) && IsRun(w, run) && Orderly(run) && w.Get(id).Closing()
    ensures Heard(run, id) + Remaining(After(w, run).Get(id)) <= Remaining(w.Get(id)) <= 3
    ensures After(w, run).Get(id).Live() <==> Remaining(After(w, run).Get(id)) > 0
    ensures After(w, run).Get(id).Live() ==> After(w, run).Get(id).Closing()
    decreases |run|
  {
    if run != [] {
      var e, w' := run[0], Step(w, run[0]);
      StepProgresses(w, e);
      if e.Done? && e.id == id { DrainStep(w.Get(id), e.completion); }
      if w'.Get(id).Live() {
        ClosingDrains(w', run[1..], id);
      } else {
        RemovedStaysRemoved(w', run[1..], id);
        NotHeard(run[1..], id);
      }
    }
  }

  lemma {:induction false} NotHeard(run: seq<Event>, id: nat)
    requires forall i :: 0 <= i < |run| && run[i].Done? ==> run[i].id != id
    ensures Heard(run, id) == 0
  {
    if run != [] { NotHeard(run[1..], id); }
  }

  /** The whole statement for a server that starts empty. */
  lemma ServerRun(run: seq<Event>, id: nat)
    requires IsRun(START, run)
    ensures var c := After(START, run).Get(id);
      && |After(START, run).LiveIds()| <= MAX_CONNECTIONS
      && (c.Live() ==> c.buf.value.inflight == c.kernel.recvs + |c.kernel.sends|)
      && (!c.Live() ==> c.kernel.recvs == 0 && c.kernel.sends == [])
      && |c.kernel.sends| <= 1
      && c.kernel.completed <= c.kernel.submitted
      && (c.Live() ==> c.kernel.completed + c.buf.value.queue == c.kernel.submitted)
      && (c.kernel.sends != [] ==> c.Live() && c.buf.value.queue != [] && c.kernel.sends[0] == c.buf.value.queue[0])
      && (Orderly(run) && c.Live() ==> c.buf.value.inflight > 0)
      && (Orderly(run) && c.Live() && !c.Closing() ==> c.kernel.recvs == 1 && (c.buf.value.queue != [] ==> c.kernel.sends != []))
  {
    assert START.LiveIds() == {};
    RunIsSafe(START, run);
    if Orderly(run) { RunProgresses(START, run); }
  }

  // ----- what a run admits, hands over and ends

  predicate Admits(w: World, e: Event) { e.Accept? && |w.LiveIds()| < MAX_CONNECTIONS && e.res > 0 }

  /** Below the limit an accepted socket becomes a live connection that sends its greeting and listens; otherwise nothing changes. */
  lemma AcceptAdmits(w: World, e: Event)
    requires e.Accept?
    ensures var w' := Step(w, e);
      if Admits(w, e) then
        var c := w'.Get(w.next);
        w'.next == w.next + 1 && c.Live() && !c.Closing() && c.kernel.submitted == e.greeting && c.kernel.recvs == 1
      else w' == w
  {
    AcceptedQueues(e.greeting);
    AcceptedIsSafe(e.greeting);
    AcceptedIsOpen(e.greeting);
  }

  lemma AcceptedIsOpen(greeting: seq<Chunk>)
    ensures !Accepted(greeting).Closing()
  {
    GreetingQueued(NO_CONN.(buf := Some(EMPTY_BUFFER)), greeting);
  }

  /** What an event hands over for a connection. */
  ghost function HandedBy(w: World, e: Event, id: nat): seq<Chunk> {
    if Admits(w, e) && id == w.next then e.greeting
    else if e.Done? && e.id == id then HandedOver(w.Get(id), e.completion)
    else []
  }

  ghost function HandedInRun(w: World, run: seq<Event>, id: nat): seq<Chunk>
    requires IsRun(w, run)
    decreases |run|
  {
    if run == [] then [] else HandedBy(w, run[0], id) + HandedInRun(Step(w, run[0]), run[1..], id)
  }

  lemma StepHands(w: World, e: Event, id: nat)
    requires SafeWorld(w) && Possible(w, e)
    ensures Queued(Step(w, e).Get(id), w.Get(id).kernel.submitted, HandedBy(w, e, id))
  {
    var before := w.Get(id).kernel.submitted;
    assert before + [] == before;
    if Admits(w, e) && id == w.next {
      AcceptedQueues(e.greeting);
      assert [] + e.greeting == e.greeting;
    } else if e.Done? && e.id == id {
      assert Safe(w.Get(id));
      CompletionQueues(w.Get(id), e.completion);
    }
  }

  /** In every run a connection queues exactly what its greeting, its session's sealed writes and its TLS engine hand over, in order: no plaintext of a write made under established TLS. */
  lemma {:induction false} RunHandsOver(w: World, run: seq<Event>, id: nat)
    requires SafeWorld(w) && IsRun(w, run)
    ensures Queued(After(w, run).Get(id), w.Get(id).kernel.submitted, HandedInRun(w, run, id))
    decreases |run|
  {
    var before := w.Get(id).kernel.submitted;
    if run == [] {
      assert before + [] == before;
    } else {
      var e, rest, w' := run[0], run[1..], Step(w, run[0]);
      StepHands(w, e, id);
      StepIsSafe(w, e);
      RunHandsOver(w', rest, id);
      var first, later := HandedBy(w, e, id), HandedInRun(w', rest, id);
      if w'.Get(id).Live() || id >= w'.next {
        Unaccepted(w', id);
        QueuedInTurn(After(w', rest).Get(id), before, first, later);
      } else {
        RemovedStaysRemoved(w', rest, id);
        Assoc(before, first, later);
      }
    }
  }

  lemma Unaccepted(w: World, id: nat)
    requires SafeWorld(w)
    ensures id >= w.next ==> w.Get(id) == NO_CONN
  {
  }

  /** No plaintext goes out once TLS is established: every chunk queued in the rest of the run is what the TLS engine made in one of its events. */
  lemma {:induction false} NoPlaintext(w: World, run: seq<Event>, id: nat, x: Chunk)
    requires SafeWorld(w) && IsRun(w, run) && id < w.next && Established(w.Get(id))
    requires forall e | e in run :: e.Done? && e.id == id ==> NoUpgrade(e.completion)
    requires x in HandedInRun(w, run, id)
    ensures exists e | e in run :: e.Done? && e.id == id && Encrypted(e.completion, x)
    decreases |run|
  {
    var e, rest, w' := run[0], run[1..], Step(w, run[0]);
    assert e in run && forall e | e in rest :: e in run;
    assert Safe(w.Get(id));
    StepIsSafe(w, e);
    if e.Done? && e.id == id { EstablishedStays(w.Get(id), e.completion); }
    if x !in HandedBy(w, e, id) {
      NoPlaintext(w', rest, id, x);
      var f :| f in rest && f.Done? && f.id == id && Encrypted(f.completion, x);
      assert f in run;
    }
  }

  /** Some event of the run ends the connection. */
  ghost predicate EndsInRun(w: World, run: seq<Event>, id: nat)
    requires IsRun(w, run)
    decreases |run|
  {
    run != [] && ((run[0].Done? && run[0].id == id && EndsIt(w.Get(id), run[0].completion)) || EndsInRun(Step(w, run[0]), run[1..], id))
  }

  /** An open connection is closing or gone after a run if and only if an event of the run ends it: a failed write, a read at its end, or session code that closes. */
  lemma {:induction false} EndedIff(w: World, run: seq<Event>, id: nat)
    requires SafeWorld(w) && IsRun(w, run) && id < w.next && !Ended(w.Get(id))
    ensures Ended(After(w, run).Get(id)) <==> EndsInRun(w, run, id)
    decreases |run|
  {
    if run != [] {
      var e, rest, w' := run[0], run[1..], Step(w, run[0]);
      assert Safe(w.Get(id));
      StepIsSafe(w, e);
      if e.Done? && e.id == id { EndsIff(w.Get(id), e.completion); }
      if Ended(w'.Get(id)) { EndedForever(w', rest, id); } else { EndedIff(w', rest, id); }
    }
  }

  lemma {:induction false} EndedForever(w: World, run: seq<Event>, id: nat)
    requires SafeWorld(w) && IsRun(w, run) && id < w.next && Ended(w.Get(id))
    ensures Ended(After(w, run).Get(id))
    decreases |run|
  {
    if run != [] {
      var e := run[0];
      assert Safe(w.Get(id));
      StepIsSafe(w, e);
      if e.Done? && e.id == id { EndedStays(w.Get(id), e.completion); }
      EndedForever(Step(w, e), run[1..], id);
    }
  }

  // ----- the loop's tables

  datatype Tables = Tables(buffers: map<nat, Buffer>, sessions: map<nat, Session>, tlsConns: map<nat, bool>, kernel: map<nat, Kernel>)
  {
    ghost function Slice(id: nat): Conn {
      Conn(if id in buffers then Some(buffers[id]) else None,
           if id in sessions then Some(sessions[id]) else None,
           if id in tlsConns then Some(tlsConns[id]) else None,
           if id in kernel then kernel[id] else NO_CONN.kernel)
    }

    ghost function Without(id: nat): Tables {
      Tables(buffers - {id}, sessions - {id}, tlsConns - {id}, kernel - {id})
    }

    ghost predicate Represent(w: World) {
      forall id: nat :: Slice(id) == w.Get(id)
    }
  }

  /** A handler that changed only `id`, as the step did, carries the representation over. */
  lemma Adopt(t: Tables, t': Tables, w: World, w': World, id: nat)
    requires t.Represent(w) && t'.Slice(id) == w'.Get(id)
    requires t.Without(id) == t'.Without(id)
    requires forall j: nat :: j != id ==> w.Get(j) == w'.Get(j)
    ensures t'.Represent(w')
  {
    forall j: nat | j != id ensures t'.Slice(j) == w'.Get(j) {
      assert t.Without(id).Slice(j) == t'.Without(id).Slice(j);
      assert t.Slice(j) == w.Get(j);
    }
  }

  lemma LiveMatches(t: Tables, w: World)
    requires t.Represent(w) && SafeWorld(w)
    ensures t.buffers.Keys == w.LiveIds() && t.Slice(w.next) == NO_CONN
  {
    forall id: nat ensures id in t.buffers <==> id in w.LiveIds() {
      assert t.Slice(id) == w.Get(id);
    }
    assert t.Slice(w.next) == w.Get(w.next);
  }

  lemma AdoptAccept(t: Tables, t': Tables, w: World, res: int, greeting: seq<Chunk>)
    requires t.Represent(w) && |w.LiveIds()| < MAX_CONNECTIONS && res > 0
    requires t'.Slice(w.next) == Accepted(greeting) && t.Without(w.next) == t'.Without(w.next)
    ensures var w' := Step(w, Accept(res, greeting)); t'.Represent(w') && w'.next == w.next + 1
  {
    Adopt(t, t', w, Step(w, Accept(res, greeting)), w.next);
  }

  class IoUringLoop {
    var buffers: map<nat, Buffer>
    var sessions: map<nat, Session>
    var tlsConns: map<nat, bool>
    var nextConnId: nat
    ghost var kernel: map<nat, Kernel>

    ghost function State(): Tables
      reads this
    {
      Tables(buffers, sessions, tlsConns, kernel)
    }

    ghost function Slice(id: nat): Conn
      reads this
    {
      State().Slice(id)
    }

    /** Nothing but the entries of `id` changed. */
    twostate predicate Only(id: nat)
      reads this
    {
      nextConnId == old(nextConnId) && State().Without(id) == old(State()).Without(id)
    }

    ghost predicate Represents(w: World)
      reads this
    {
      nextConnId == w.next && State().Represent(w)
    }

    constructor ()
      ensures Represents(START)
    {
      buffers, sessions, tlsConns, kernel, nextConnId := map[], map[], map[], map[], 1;
    }

    method FlushWrite(id: nat)
      modifies this
      ensures Slice(id) == C.FlushWrite(old(Slice(id))) && Only(id)
    {
      if id !in buffers { buffers := buffers[id := EMPTY_BUFFER]; }
      var b := buffers[id];
      if b.queue == [] { return; }
      kernel := kernel[id := Slice(id).kernel.(sends := Slice(id).kernel.sends + [b.queue[0]])];
      buffers := buffers[id := b.(pending := true, inflight := b.inflight + 1)];
    }

    method SubmitWrite(id: nat, plain: Chunk, raw: bool, cipher: Option<Chunk>)
      modifies this
      ensures Slice(id) == C.SubmitWrite(old(Slice(id)), plain, raw, cipher) && Only(id)
    {
      if id !in buffers { return; }
      var data := plain;
      if !raw && id in tlsConns && tlsConns[id] {
        if cipher.None? { SubmitClose(id); return; }
        data := cipher.value;
      }
      kernel := kernel[id := Slice(id).kernel.(submitted := Slice(id).kernel.submitted + [data])];
      buffers := buffers[id := buffers[id].(queue := buffers[id].queue + [data])];
      if !buffers[id].pending { FlushWrite(id); }
    }

    method SubmitClose(id: nat)
      modifies this
      ensures Slice(id) == C.SubmitClose(old(Slice(id))) && Only(id)
    {
      if id !in buffers { return; }
      if !buffers[id].closing { buffers := buffers[id := buffers[id].(closing := true)]; }
      if buffers[id].inflight > 0 { return; }
      buffers := buffers - {id};
      sessions := sessions - {id};
      tlsConns := tlsConns - {id};
    }

    method UpgradeTls(id: nat)
      modifies this
      ensures Slice(id) == C.UpgradeTls(old(Slice(id))) && Only(id)
    {
      if id !in sessions { return; }
      tlsConns := tlsConns[id := false];
    }

    method ArmRead(id: nat)
      requires id in buffers
      modifies this
      ensures Slice(id) == C.ArmRead(old(Slice(id))) && Only(id)
    {
      kernel := kernel[id := Slice(id).kernel.(recvs := Slice(id).kernel.recvs + 1)];
      buffers := buffers[id := buffers[id].(inflight := buffers[id].inflight + 1)];
    }

    /** Session code running for `id`. */
    method Perform(id: nat, actions: seq<Action>)
      modifies this
      ensures Slice(id) == ActAll(old(Slice(id)), actions) && Only(id)
    {
      var i := 0;
      while i < |actions|
        invariant 0 <= i <= |actions|
        invariant ActAll(Slice(id), actions[i..]) == ActAll(old(Slice(id)), actions)
        invariant Only(id)
      {
        match actions[i] {
          case Write(data, cipher) => SubmitWrite(id, data, false, cipher);
          case Close => SubmitClose(id);
          case Upgrade => UpgradeTls(id);
          case SetFlags(wc, wt) =>
            if id in sessions { sessions := sessions[id := Session(wc, wt)]; }
        }
        assert actions[i..][1..] == actions[i + 1..];
        i := i + 1;
      }
    }

    method OnAccept(res: int, greeting: seq<Chunk>, ghost w: World)
      requires Represents(w) && SafeWorld(w)
      modifies this
      ensures Represents(Step(w, Accept(res, greeting)))
    {
      LiveMatches(State(), w);
      if |buffers| < MAX_CONNECTIONS && res > 0 {
        var cid := nextConnId;
        nextConnId := nextConnId + 1;
        Admit(cid, greeting);
        AdoptAccept(old(State()), State(), w, res, greeting);
      }
    }

    /** on_accept once the id is allocated: buffer, session, first read. */
    method Admit(cid: nat, greeting: seq<Chunk>)
      requires Slice(cid) == NO_CONN
      modifies this
      ensures Slice(cid) == Accepted(greeting) && Only(cid)
    {
      buffers := buffers[cid := EMPTY_BUFFER];
      Perform(cid, Greet(greeting));
      GreetingQueued(NO_CONN.(buf := Some(EMPTY_BUFFER)), greeting);
      assert Slice(cid).Live();
      sessions := sessions[cid := Session(false, false)];
      ArmRead(cid);
    }

    method OnRead(id: nat, res: int, io: Reading)
      modifies this
      ensures Slice(id) == C.OnRead(old(Slice(id)), res, io) && Only(id)
    {
      if id !in buffers || id !in sessions { return; }
      buffers := buffers[id := buffers[id].(inflight := buffers[id].inflight - 1)];
      if res <= 0 {
        if res == -ECANCELED || res == -ENOENT { return; }
        SubmitClose(id);
        return;
      }
      Process(id, io);
    }

    /** on_read from the point where data has arrived. */
    method Process(id: nat, io: Reading)
      modifies this
      ensures Slice(id) == C.Process(old(Slice(id)), io) && Only(id)
    {
      var encrypted := id in tlsConns;
      Perform(id, io.actions);
      if encrypted {
        if id in tlsConns { tlsConns := tlsConns[id := tlsConns[id] || io.handshakeDone]; }
        if io.feedThrows { SubmitClose(id); return; }
        if io.toSend != [] { SubmitWrite(id, io.toSend, true, None); }
      }
      AfterRead(id);
    }

    method AfterRead(id: nat)
      modifies this
      ensures Slice(id) == C.AfterRead(old(Slice(id))) && Only(id)
    {
      if id !in buffers { return; }
      if id in sessions && sessions[id].wantsClose { SubmitClose(id); return; }
      if !buffers[id].closing { ArmRead(id); } else { SubmitClose(id); }
    }

    method PopWrite(id: nat)
      requires id in buffers
      modifies this
      ensures Slice(id) == C.PopWrite(old(Slice(id))) && Only(id)
    {
      var b := buffers[id];
      if b.queue != [] {
        kernel := kernel[id := Slice(id).kernel.(completed := Slice(id).kernel.completed + [b.queue[0]])];
        b := b.(queue := b.queue[1..]);
      }
      buffers := buffers[id := b.(pending := false)];
    }

    method OnWrite(id: nat, res: int)
      modifies this
      ensures Slice(id) == C.OnWrite(old(Slice(id)), res) && Only(id)
    {
      if id !in buffers { return; }
      buffers := buffers[id := buffers[id].(inflight := buffers[id].inflight - 1)];
      if res < 0 { SubmitClose(id); return; }
      PopWrite(id);
      assert Slice(id).Live();
      if id in sessions && sessions[id].wantsTls {
        UpgradeAndListen(id);
      } else if buffers[id].queue != [] && !buffers[id].closing {
        FlushWrite(id);
      } else if buffers[id].closing {
        SubmitClose(id);
      }
    }

    /** The branch of on_write for a session that asked for TLS. */
    method UpgradeAndListen(id: nat)
      requires id in buffers && id in sessions
      modifies this
      ensures Slice(id) == C.UpgradeAndListen(old(Slice(id))) && Only(id)
    {
      sessions := sessions[id := sessions[id].(wantsTls := false)];
      UpgradeTls(id);
      assert Slice(id).Live();
      if !buffers[id].closing { ArmRead(id); }
    }

    /** The kernel hands an operation of `id` back and its handler runs. */
    method OnCompletion(id: nat, e: Completion)
      requires Enabled(Slice(id), e)
      modifies this
      ensures Slice(id) == Complete(old(Slice(id)), e) && Only(id)
    {
      match e {
        case ReadDone(res, io) =>
          kernel := kernel[id := Slice(id).kernel.(recvs := Slice(id).kernel.recvs - 1)];
          OnRead(id, res, io);
        case WriteDone(res) =>
          kernel := kernel[id := Slice(id).kernel.(sends := Slice(id).kernel.sends[1..])];
          OnWrite(id, res);
      }
    }

    /** One turn of run(). */
    method Dispatch(e: Event, ghost w: World)
      requires Represents(w) && SafeWorld(w) && Possible(w, e)
      modifies this
      ensures Represents(Step(w, e)) && SafeWorld(Step(w, e))
    {
      StepIsSafe(w, e);
      match e {
        case Accept(res, greeting) => OnAccept(res, greeting, w);
        case Done(id, completion) =>
          assert State().Slice(id) == w.Get(id);
          OnCompletion(id, completion);
          Adopt(old(State()), State(), w, Step(w, e), id);
      }
    }
  }
}
