/** The message list of an IMAP session (src/imap/session.cpp): sequence numbers, STORE, EXPUNGE and new mail. */
module ImapMailbox {
  import opened Common

  datatype Message = Message(uid: nat, seqno: nat, filename: Bytes, flags: Bytes, inCur: bool)

  /** "\Deleted". */
  const DELETED: Bytes := [0x5C, 0x44, 0x65, 0x6C, 0x65, 0x74, 0x65, 0x64]

  /** std::string::find: whether `part` stands somewhere in s. */
  predicate Contains(s: Bytes, part: Bytes) { part <= s || (s != [] && Contains(s[1..], part)) }

  predicate Deleted(m: Message) { Contains(m.flags, DELETED) }

  /** Every message carries its position, counted from 1. */
  predicate Numbered(ms: seq<Message>) { forall i :: 0 <= i < |ms| ==> ms[i].seqno == i + 1 }

  function Renumber(ms: seq<Message>): (r: seq<Message>)
    ensures |r| == |ms| && Numbered(r)
    ensures forall i :: 0 <= i < |ms| ==> r[i] == ms[i].(seqno := i + 1)
  {
    seq(|ms|, i requires 0 <= i < |ms| => ms[i].(seqno := i + 1))
  }

  /** The messages that stay when those that are `gone` go; EXPUNGE asks for Deleted. */
  function Kept(gone: Message -> bool, ms: seq<Message>): seq<Message> {
    if ms == [] then [] else (if gone(ms[0]) then [] else [ms[0]]) + Kept(gone, ms[1..])
  }

  // ----- EXPUNGE

  /** The numbers sent: each is the message's position in the list as it is by then, `before` messages being kept before it. */
  function Responses(gone: Message -> bool, ms: seq<Message>, before: nat): seq<nat> {
    if ms == [] then []
    else if gone(ms[0]) then [before + 1] + Responses(gone, ms[1..], before)
    else Responses(gone, ms[1..], before + 1)
  }

  /** A client's list after one "n EXPUNGE" (section 7.4.1 of RFC 3501); None if it has no message n. */
  function Remove<T>(list: seq<T>, n: nat): Option<seq<T>> {
    if 1 <= n <= |list| then Some(list[..n - 1] + list[n..]) else None
  }

  function RemoveAll<T>(list: seq<T>, ns: seq<nat>): Option<seq<T>>
    decreases |ns|
  {
    if ns == [] then Some(list)
    else
      var next := Remove(list, ns[0]);
      if next.None? then None else RemoveAll(next.value, ns[1..])
  }

  lemma RemoveBehind<T>(front: seq<T>, x: T, rest: seq<T>, ns: seq<nat>)
    ensures RemoveAll(front + ([x] + rest), [|front| + 1] + ns) == RemoveAll(front + rest, ns)
  {
    var list, n := front + ([x] + rest), |front| + 1;
    assert list[..n - 1] + list[n..] == front + rest;
    assert ([n] + ns)[1..] == ns;
  }

  /** The responses, applied one by one behind messages that stay, remove exactly the deleted ones. */
  lemma {:induction false} ResponsesRemove(gone: Message -> bool, front: seq<Message>, ms: seq<Message>)
    ensures RemoveAll(front + ms, Responses(gone, ms, |front|)) == Some(front + Kept(gone, ms))
    decreases |ms|
  {
    if ms == [] {
      assert front + ms == front && front + Kept(gone, ms) == front;
    } else {
      var x, rest := ms[0], ms[1..];
      assert ms == [x] + rest;
      if gone(x) {
        RemoveBehind(front, x, rest, Responses(gone, rest, |front|));
        ResponsesRemove(gone, front, rest);
        assert Kept(gone, ms) == Kept(gone, rest);
      } else {
        ResponsesRemove(gone, front + [x], rest);
        Assoc(front, [x], rest);
        Assoc(front, [x], Kept(gone, rest));
      }
    }
  }

  /** A client that applies the EXPUNGE responses to the old list has the messages that are not deleted, in order. */
  lemma ClientFollowsExpunge(gone: Message -> bool, ms: seq<Message>)
    ensures RemoveAll(ms, Responses(gone, ms, 0)) == Some(Kept(gone, ms))
  {
    assert [] + ms == ms && [] + Kept(gone, ms) == Kept(gone, ms);
    ResponsesRemove(gone, [], ms);
  }

  /** What is kept: the messages that are not deleted, each as often as before. */
  lemma {:induction false} KeptIsTheRest(gone: Message -> bool, ms: seq<Message>, m: Message)
    ensures multiset(Kept(gone, ms))[m] == if gone(m) then 0 else multiset(ms)[m]
  {
    if ms != [] {
      KeptIsTheRest(gone, ms[1..], m);
      assert ms == [ms[0]] + ms[1..];
    }
  }

  /** The files of the deleted messages, which EXPUNGE and CLOSE unlink. */
  function DeletedFiles(gone: Message -> bool, ms: seq<Message>): seq<Bytes> {
    if ms == [] then [] else (if gone(ms[0]) then [ms[0].filename] else []) + DeletedFiles(gone, ms[1..])
  }

  /** `part` stands in s at index k. */
  predicate StandsAt(s: Bytes, k: nat, part: Bytes) { k + |part| <= |s| && s[k..k + |part|] == part }

  lemma {:induction false} ContainsIff(s: Bytes, part: Bytes)
    ensures Contains(s, part) <==> exists k: nat | k <= |s| :: StandsAt(s, k, part)
    decreases |s|
  {
    if part <= s {
      assert StandsAt(s, 0, part);
    } else {
      assert !StandsAt(s, 0, part);
      if s != [] {
        var tail := s[1..];
        ContainsIff(tail, part);
        forall k: nat ensures StandsAt(s, k + 1, part) <==> StandsAt(tail, k, part) {
          if k + 1 + |part| <= |s| { assert s[k + 1..k + 1 + |part|] == tail[k..k + |part|]; }
        }
        if k: nat :| k <= |tail| && StandsAt(tail, k, part) { assert StandsAt(s, k + 1, part); }
        if k: nat :| k <= |s| && StandsAt(s, k, part) { assert StandsAt(tail, k - 1, part); }
      }
    }
  }

  /** The eight bytes "\Deleted" stand somewhere in the flags. */
  predicate MarkedDeleted(m: Message) {
    exists k: nat | k <= |m.flags| :: StandsAt(m.flags, k, [0x5C, 0x44, 0x65, 0x6C, 0x65, 0x74, 0x65, 0x64])
  }

  lemma DeletedIsMarked(m: Message)
    ensures Deleted(m) <==> MarkedDeleted(m)
  {
    ContainsIff(m.flags, DELETED);
  }

  function Not(gone: Message -> bool): Message -> bool { m => !gone(m) }

  function Files(ms: seq<Message>): seq<Bytes> { if ms == [] then [] else [ms[0].filename] + Files(ms[1..]) }

  lemma {:induction false} DeletedFilesAreTheRest(gone: Message -> bool, ms: seq<Message>)
    ensures DeletedFiles(gone, ms) == Files(Kept(Not(gone), ms))
    decreases |ms|
  {
    if ms != [] {
      DeletedFilesAreTheRest(gone, ms[1..]);
      var stays := Not(gone);
      var rest := Kept(stays, ms[1..]);
      if gone(ms[0]) {
        assert Kept(stays, ms) == [ms[0]] + rest && ([ms[0]] + rest)[1..] == rest;
      } else {
        assert Kept(stays, ms) == [] + rest == rest;
      }
    }
  }

  lemma {:induction false} KeptIffNotGone(gone: Message -> bool, ms: seq<Message>, m: Message)
    ensures m in Kept(gone, ms) <==> m in ms && !gone(m)
    decreases |ms|
  {
    if ms != [] { KeptIffNotGone(gone, ms[1..], m); }
  }

  /** EXPUNGE keeps exactly the messages whose flags do not hold "\Deleted", and unlinks the files of the others, in order. */
  lemma ExpungeByFlags(ms: seq<Message>)
    ensures forall m :: m in Kept(Deleted, ms) <==> m in ms && !MarkedDeleted(m)
    ensures DeletedFiles(Deleted, ms) == Files(Kept(Not(Deleted), ms))
    ensures forall m :: m in Kept(Not(Deleted), ms) <==> m in ms && MarkedDeleted(m)
  {
    var marked := Not(Deleted);
    DeletedFilesAreTheRest(Deleted, ms);
    forall m ensures (m in Kept(Deleted, ms) <==> m in ms && !MarkedDeleted(m)) && (m in Kept(marked, ms) <==> m in ms && MarkedDeleted(m)) {
      DeletedIsMarked(m);
      KeptIffNotGone(Deleted, ms, m);
      KeptIffNotGone(marked, ms, m);
    }
  }

  // ----- STORE

  /** The first message with a sequence number. */
  function FindSeq(ms: seq<Message>, n: nat): (i: nat)
    ensures i <= |ms| && (i < |ms| ==> ms[i].seqno == n)
  {
    if ms == [] || ms[0].seqno == n then 0 else 1 + FindSeq(ms[1..], n)
  }

  lemma {:induction false} FindSeqAt(ms: seq<Message>, n: nat, first: nat)
    requires forall i :: 0 <= i < |ms| ==> ms[i].seqno == first + i
    ensures FindSeq(ms, n) == if first <= n < first + |ms| then n - first else |ms|
  {
    if ms != [] && ms[0].seqno != n { FindSeqAt(ms[1..], n, first + 1); }
  }

  /** A change of flags and, if the file could be renamed, of the name. */
  function Store(ms: seq<Message>, n: nat, flags: Bytes, filename: Bytes): seq<Message> {
    var i := FindSeq(ms, n);
    if i < |ms| then ms[i := ms[i].(flags := flags, filename := filename)] else ms
  }

  /** STORE n changes message n and no other. */
  lemma StoreChangesOne(ms: seq<Message>, n: nat, flags: Bytes, filename: Bytes)
    requires Numbered(ms)
    ensures var r := Store(ms, n, flags, filename);
      |r| == |ms| && Numbered(r) &&
      forall i :: 0 <= i < |ms| ==> r[i] == if i + 1 == n then ms[i].(flags := flags, filename := filename) else ms[i]
  {
    FindSeqAt(ms, n, 1);
  }

  // ----- runs

  /** `order` is what the sort makes of the files found; `files` are the files moved from new to cur, in directory order. */
  datatype Event =
    | Select(found: seq<Message>, order: seq<Message>, readOnly: bool)
    | Incorporate(files: seq<Message>)
    | StoreFlags(n: nat, flags: Bytes, filename: Bytes)
    | Expunge
    | Close

  datatype View = View(messages: seq<Message>, readOnly: bool)

  predicate Sorted(ms: seq<Message>) { forall i, j :: 0 <= i < j < |ms| ==> ms[i].uid <= ms[j].uid }

  predicate Possible(e: Event) { e.Select? ==> multiset(e.order) == multiset(e.found) && Sorted(e.order) }

  function AppendNew(ms: seq<Message>, files: seq<Message>): seq<Message>
    decreases |files|
  {
    if files == [] then ms else AppendNew(ms + [files[0].(seqno := |ms| + 1, flags := [], inCur := true)], files[1..])
  }

  function Step(v: View, e: Event): View {
    match e
    case Select(_, order, readOnly) => View(Renumber(order), readOnly)
    case Incorporate(files) => v.(messages := AppendNew(v.messages, files))
    case StoreFlags(n, flags, filename) => if v.readOnly then v else v.(messages := Store(v.messages, n, flags, filename))
    case Expunge => if v.readOnly then v else v.(messages := Renumber(Kept(Deleted, v.messages)))
    case Close => v.(messages := [])
  }

  function Run(v: View, es: seq<Event>): View
    decreases |es|
  {
    if es == [] then v else Run(Step(v, es[0]), es[1..])
  }

  lemma {:induction false} AppendNumbered(ms: seq<Message>, files: seq<Message>)
    requires Numbered(ms)
    ensures Numbered(AppendNew(ms, files)) && ms <= AppendNew(ms, files) && |AppendNew(ms, files)| == |ms| + |files|
    decreases |files|
  {
    if files != [] { AppendNumbered(ms + [files[0].(seqno := |ms| + 1, flags := [], inCur := true)], files[1..]); }
  }

  /** In every run each message's sequence number is its position. */
  lemma {:induction false} AlwaysNumbered(v: View, es: seq<Event>)
    requires Numbered(v.messages)
    ensures Numbered(Run(v, es).messages)
    decreases |es|
  {
    if es != [] {
      match es[0] {
        case Incorporate(files) => AppendNumbered(v.messages, files);
        case StoreFlags(n, flags, filename) => StoreChangesOne(v.messages, n, flags, filename);
        case _ =>
      }
      AlwaysNumbered(Step(v, es[0]), es[1..]);
    }
  }

  // ----- a client over a whole run

  function Uids(ms: seq<Message>): (r: seq<nat>)
    ensures |r| == |ms|
  {
    if ms == [] then [] else [ms[0].uid] + Uids(ms[1..])
  }

  lemma {:induction false} UidsAppend(a: seq<Message>, b: seq<Message>)
    ensures Uids(a + b) == Uids(a) + Uids(b)
  {
    if a == [] {
      assert a + b == b;
    } else {
      assert (a + b)[1..] == a[1..] + b;
      UidsAppend(a[1..], b);
    }
  }

  lemma {:induction false} UidsUnchanged(a: seq<Message>, b: seq<Message>)
    requires |a| == |b| && forall i :: 0 <= i < |a| ==> a[i].uid == b[i].uid
    ensures Uids(a) == Uids(b)
  {
    if a != [] { UidsUnchanged(a[1..], b[1..]); }
  }

  /** What a client knows after one event: the list at SELECT, the EXPUNGE responses, nothing of new mail. None once a response names a message it does not have. */
  function ClientStep(client: Option<seq<nat>>, v: View, e: Event): Option<seq<nat>> {
    match e
    case Select(_, order, _) => Some(Uids(order))
    case Close => Some([])
    case Expunge => if v.readOnly || client.None? then client else RemoveAll(client.value, Responses(Deleted, v.messages, 0))
    case _ => client
  }

  function ClientRun(client: Option<seq<nat>>, v: View, es: seq<Event>): Option<seq<nat>>
    decreases |es|
  {
    if es == [] then client else ClientRun(ClientStep(client, v, es[0]), Step(v, es[0]), es[1..])
  }

  predicate Refreshes(e: Event) { e.Select? || e.Close? }
  predicate NewMail(e: Event) { e.Incorporate? && e.files != [] }

  /** New mail has come in, and no SELECT or CLOSE since. */
  predicate Unannounced(es: seq<Event>) {
    exists i :: 0 <= i < |es| && NewMail(es[i]) && forall j :: i < j < |es| ==> !Refreshes(es[j])
  }

  lemma {:induction false} RemoveUids(list: seq<Message>, ns: seq<nat>)
    ensures var r := RemoveAll(list, ns); RemoveAll(Uids(list), ns) == if r.None? then None else Some(Uids(r.value))
    decreases |ns|
  {
    if ns != [] && 1 <= ns[0] <= |list| {
      var n := ns[0];
      UidsAppend(list[..n - 1], list[n..]);
      UidsAppend(list[..n - 1], [list[n - 1]] + list[n..]);
      UidsAppend([list[n - 1]], list[n..]);
      assert list == list[..n - 1] + ([list[n - 1]] + list[n..]);
      assert Uids(list)[..n - 1] == Uids(list[..n - 1]) && Uids(list)[n..] == Uids(list[n..]);
      RemoveUids(list[..n - 1] + list[n..], ns[1..]);
    }
  }

  lemma {:induction false} RemoveInTurn<T>(list: seq<T>, a: seq<nat>, b: seq<nat>)
    ensures var r := RemoveAll(list, a); RemoveAll(list, a + b) == if r.None? then None else RemoveAll(r.value, b)
    decreases |a|
  {
    if a == [] {
      assert a + b == b;
    } else {
      assert (a + b)[0] == a[0] && (a + b)[1..] == a[1..] + b;
      var next := Remove(list, a[0]);
      if next.Some? { RemoveInTurn(next.value, a[1..], b); }
    }
  }

  lemma {:induction false} KeptOfBoth(gone: Message -> bool, a: seq<Message>, b: seq<Message>)
    ensures Kept(gone, a + b) == Kept(gone, a) + Kept(gone, b)
    decreases |a|
  {
    if a == [] {
      assert a + b == b;
    } else {
      assert (a + b)[0] == a[0] && (a + b)[1..] == a[1..] + b;
      KeptOfBoth(gone, a[1..], b);
      Assoc(if gone(a[0]) then [] else [a[0]], Kept(gone, a[1..]), Kept(gone, b));
    }
  }

  lemma {:induction false} ResponsesOfBoth(gone: Message -> bool, a: seq<Message>, b: seq<Message>, before: nat)
    ensures Responses(gone, a + b, before) == Responses(gone, a, before) + Responses(gone, b, before + |Kept(gone, a)|)
    decreases |a|
  {
    if a == [] {
      assert a + b == b;
    } else {
      assert (a + b)[0] == a[0] && (a + b)[1..] == a[1..] + b;
      if gone(a[0]) {
        ResponsesOfBoth(gone, a[1..], b, before);
        assert Kept(gone, a) == Kept(gone, a[1..]);
        Assoc([before + 1], Responses(gone, a[1..], before), Responses(gone, b, before + |Kept(gone, a)|));
      } else {
        ResponsesOfBoth(gone, a[1..], b, before + 1);
        assert |Kept(gone, a)| == 1 + |Kept(gone, a[1..])|;
      }
    }
  }

  lemma {:induction false} ResponsesBeyond(gone: Message -> bool, ms: seq<Message>, before: nat)
    ensures Responses(gone, ms, before) == [] ==> Kept(gone, ms) == ms
    ensures Responses(gone, ms, before) != [] ==> Responses(gone, ms, before)[0] > before
    decreases |ms|
  {
    if ms != [] { ResponsesBeyond(gone, ms[1..], if gone(ms[0]) then before else before + 1); }
  }

  predicate InStep(client: Option<seq<nat>>, v: View) { client == Some(Uids(v.messages)) }

  /** The client has lost track, or lacks the messages at the end that came in unannounced. */
  ghost predicate Behind(client: Option<seq<nat>>, v: View) {
    client.None? || exists known: seq<Message>, extra :: extra != [] && v.messages == known + extra && client.value == Uids(known)
  }

  lemma BehindIsNotInStep(client: Option<seq<nat>>, v: View)
    requires Behind(client, v)
    ensures !InStep(client, v)
  {
  }

  lemma RenumberedUids(ms: seq<Message>)
    ensures Uids(Renumber(ms)) == Uids(ms)
  {
    UidsUnchanged(Renumber(ms), ms);
  }

  lemma StoredUids(ms: seq<Message>, n: nat, flags: Bytes, filename: Bytes)
    ensures var r := Store(ms, n, flags, filename); |r| == |ms| && forall i :: 0 <= i < |ms| ==> r[i].uid == ms[i].uid
  {
  }

  lemma InStepKept(client: Option<seq<nat>>, v: View, e: Event)
    requires InStep(client, v) && !NewMail(e)
    ensures InStep(ClientStep(client, v, e), Step(v, e))
  {
    match e {
      case Select(_, order, _) => RenumberedUids(order);
      case StoreFlags(n, flags, filename) =>
        StoredUids(v.messages, n, flags, filename);
        UidsUnchanged(Store(v.messages, n, flags, filename), v.messages);
      case Expunge =>
        ClientFollowsExpunge(Deleted, v.messages);
        RemoveUids(v.messages, Responses(Deleted, v.messages, 0));
        RenumberedUids(Kept(Deleted, v.messages));
      case _ =>
    }
  }

  lemma NewMailLeavesBehind(client: Option<seq<nat>>, v: View, e: Event)
    requires NewMail(e) && (InStep(client, v) || Behind(client, v))
    ensures Behind(ClientStep(client, v, e), Step(v, e))
  {
    var more := AppendNew(v.messages, e.files);
    AppendGrows(v.messages, e.files);
    if client.Some? {
      if InStep(client, v) {
        assert more == v.messages + more[|v.messages|..];
      } else {
        var known, extra :| extra != [] && v.messages == known + extra && client.value == Uids(known);
        assert more == known + more[|known|..];
      }
    }
  }

  lemma {:induction false} AppendGrows(ms: seq<Message>, files: seq<Message>)
    ensures ms <= AppendNew(ms, files) && |AppendNew(ms, files)| == |ms| + |files|
    decreases |files|
  {
    if files != [] { AppendGrows(ms + [files[0].(seqno := |ms| + 1, flags := [], inCur := true)], files[1..]); }
  }

  lemma BehindIntro(client: Option<seq<nat>>, v: View, known: seq<Message>, extra: seq<Message>)
    requires client == Some(Uids(known)) && v.messages == known + extra && extra != []
    ensures Behind(client, v)
  {
  }

  lemma BehindStore(client: seq<nat>, known: seq<Message>, extra: seq<Message>, v: View, r: seq<Message>)
    requires extra != [] && v.messages == known + extra && client == Uids(known)
    requires |r| == |v.messages| && forall i :: 0 <= i < |r| ==> r[i].uid == v.messages[i].uid
    ensures Behind(Some(client), v.(messages := r))
  {
    UidsUnchanged(r[..|known|], known);
    assert r == r[..|known|] + r[|known|..];
    BehindIntro(Some(client), v.(messages := r), r[..|known|], r[|known|..]);
  }

  lemma BehindKept(client: Option<seq<nat>>, v: View, e: Event)
    requires Behind(client, v) && !Refreshes(e)
    ensures Behind(ClientStep(client, v, e), Step(v, e))
  {
    if client.Some? && !e.Incorporate? && !v.readOnly {
      var known, extra :| extra != [] && v.messages == known + extra && client.value == Uids(known);
      if e.StoreFlags? {
        StoredUids(v.messages, e.n, e.flags, e.filename);
        BehindStore(client.value, known, extra, v, Store(v.messages, e.n, e.flags, e.filename));
      } else {
        BehindExpunge(Deleted, client.value, known, extra, v);
      }
    }
    if e.Incorporate? && e.files != [] { NewMailLeavesBehind(client, v, e); }
  }

  /** An EXPUNGE of unannounced messages names numbers that the client does not have. */
  lemma ClientAfterExpunge(gone: Message -> bool, known: seq<Message>, extra: seq<Message>)
    ensures var kept := Kept(gone, known);
      RemoveAll(Uids(known), Responses(gone, known + extra, 0)) == if Responses(gone, extra, |kept|) == [] then Some(Uids(kept)) else None
  {
    KnownPart(gone, known);
    var numbers := SplitResponses(gone, known, extra);
    RemoveThenBeyond(Uids(known), Responses(gone, known, 0), numbers, Uids(Kept(gone, known)));
  }

  lemma SplitResponses(gone: Message -> bool, known: seq<Message>, extra: seq<Message>) returns (numbers: seq<nat>)
    ensures numbers == Responses(gone, extra, |Kept(gone, known)|)
    ensures Responses(gone, known + extra, 0) == Responses(gone, known, 0) + numbers
    ensures numbers == [] || numbers[0] > |Kept(gone, known)|
  {
    numbers := Responses(gone, extra, |Kept(gone, known)|);
    ResponsesOfBoth(gone, known, extra, 0);
    ResponsesBeyond(gone, extra, |Kept(gone, known)|);
  }

  lemma KnownPart(gone: Message -> bool, known: seq<Message>)
    ensures RemoveAll(Uids(known), Responses(gone, known, 0)) == Some(Uids(Kept(gone, known)))
  {
    ClientFollowsExpunge(gone, known);
    RemoveUids(known, Responses(gone, known, 0));
  }

  lemma RemoveThenBeyond<T>(list: seq<T>, first: seq<nat>, numbers: seq<nat>, left: seq<T>)
    requires RemoveAll(list, first) == Some(left) && (numbers == [] || numbers[0] > |left|)
    ensures RemoveAll(list, first + numbers) == if numbers == [] then Some(left) else None
  {
    RemoveInTurn(list, first, numbers);
  }

  lemma BehindExpunge(gone: Message -> bool, client: seq<nat>, known: seq<Message>, extra: seq<Message>, v: View)
    requires extra != [] && v.messages == known + extra && client == Uids(known)
    ensures Behind(RemoveAll(client, Responses(gone, v.messages, 0)), v.(messages := Renumber(Kept(gone, v.messages))))
  {
    var kept := Kept(gone, known);
    ClientAfterExpunge(gone, known, extra);
    ResponsesBeyond(gone, extra, |kept|);
    KeptOfBoth(gone, known, extra);
    if Responses(gone, extra, |kept|) == [] {
      BehindStore(Uids(kept), kept, extra, v.(messages := kept + extra), Renumber(kept + extra));
    }
  }

  lemma {:induction false} ClientRunLaw(client: Option<seq<nat>>, v: View, es: seq<Event>)
    ensures InStep(client, v) ==> (if Unannounced(es) then Behind(ClientRun(client, v, es), Run(v, es)) else InStep(ClientRun(client, v, es), Run(v, es)))
    ensures Behind(client, v) ==>
      if Unannounced(es) || forall j :: 0 <= j < |es| ==> !Refreshes(es[j]) then Behind(ClientRun(client, v, es), Run(v, es))
      else InStep(ClientRun(client, v, es), Run(v, es))
    decreases |es|
  {
    if es != [] {
      var e, rest := es[0], es[1..];
      var client', v' := ClientStep(client, v, e), Step(v, e);
      if InStep(client, v) || Behind(client, v) { UnannouncedStep(es); }
      ClientRunLaw(client', v', rest);
      if Refreshes(e) { RefreshSyncs(client, v, e); }
      if InStep(client, v) && !NewMail(e) { InStepKept(client, v, e); }
      if InStep(client, v) && NewMail(e) { NewMailLeavesBehind(client, v, e); }
      if Behind(client, v) && !Refreshes(e) { BehindKept(client, v, e); }
    }
  }

  lemma RefreshSyncs(client: Option<seq<nat>>, v: View, e: Event)
    requires Refreshes(e)
    ensures InStep(ClientStep(client, v, e), Step(v, e))
  {
    if e.Select? { RenumberedUids(e.order); }
  }

  lemma UnannouncedStep(es: seq<Event>)
    requires es != []
    ensures Unannounced(es) <==> Unannounced(es[1..]) || (NewMail(es[0]) && forall j :: 0 <= j < |es[1..]| ==> !Refreshes(es[1..][j]))
  {
    var rest := es[1..];
    if Unannounced(rest) {
      var i :| 0 <= i < |rest| && NewMail(rest[i]) && forall j :: i < j < |rest| ==> !Refreshes(rest[j]);
      assert NewMail(es[i + 1]);
      forall j | i + 1 < j < |es| ensures !Refreshes(es[j]) { assert es[j] == rest[j - 1]; }
    }
    if NewMail(es[0]) && forall j :: 0 <= j < |rest| ==> !Refreshes(rest[j]) {
      forall j | 0 < j < |es| ensures !Refreshes(es[j]) { assert es[j] == rest[j - 1]; }
    }
    if Unannounced(es) {
      var i :| 0 <= i < |es| && NewMail(es[i]) && forall j :: i < j < |es| ==> !Refreshes(es[j]);
      forall j | 0 <= j < |rest| && i <= j ensures !Refreshes(rest[j]) { assert rest[j] == es[j + 1]; }
      if i > 0 { assert NewMail(rest[i - 1]); }
    }
  }

  /** In every run a client that applies the untagged responses has the server's list exactly when no new mail has been taken in since the last SELECT or CLOSE. */
  lemma ClientFollowsRun(es: seq<Event>)
    ensures var v := View([], false); InStep(ClientRun(Some([]), v, es), Run(v, es)) <==> !Unannounced(es)
  {
    var v := View([], false);
    ClientRunLaw(Some([]), v, es);
    if Unannounced(es) { BehindIsNotInStep(ClientRun(Some([]), v, es), Run(v, es)); }
  }

  lemma KeptStep(gone: Message -> bool, ms: seq<Message>, i: nat, done: seq<Message>)
    requires i < |ms|
    ensures done + Kept(gone, ms[i..]) == (if gone(ms[i]) then done else done + [ms[i]]) + Kept(gone, ms[i + 1..])
  {
    assert ms[i..][0] == ms[i] && ms[i..][1..] == ms[i + 1..];
    Assoc(done, [ms[i]], Kept(gone, ms[i + 1..]));
  }

  lemma ResponsesStep(gone: Message -> bool, ms: seq<Message>, i: nat, before: nat, done: seq<nat>)
    requires i < |ms|
    ensures done + Responses(gone, ms[i..], before) ==
      if gone(ms[i]) then done + [before + 1] + Responses(gone, ms[i + 1..], before) else done + Responses(gone, ms[i + 1..], before + 1)
  {
    assert ms[i..][0] == ms[i] && ms[i..][1..] == ms[i + 1..];
    Assoc(done, [before + 1], Responses(gone, ms[i + 1..], before));
  }

  lemma FilesStep(gone: Message -> bool, ms: seq<Message>, i: nat, done: seq<Bytes>)
    requires i < |ms|
    ensures done + DeletedFiles(gone, ms[i..]) == (if gone(ms[i]) then done + [ms[i].filename] else done) + DeletedFiles(gone, ms[i + 1..])
  {
    assert ms[i..][0] == ms[i] && ms[i..][1..] == ms[i + 1..];
    Assoc(done, [ms[i].filename], DeletedFiles(gone, ms[i + 1..]));
  }

  /** The loop of cmd_expunge. */
  method Sweep(gone: Message -> bool, ms: seq<Message>) returns (remaining: seq<Message>, sent: seq<nat>, files: seq<Bytes>)
    ensures remaining == Kept(gone, ms) && sent == Responses(gone, ms, 0) && files == DeletedFiles(gone, ms)
  {
    remaining, sent, files := [], [], [];
    ghost var kept, numbers, names := Kept(gone, ms), Responses(gone, ms, 0), DeletedFiles(gone, ms);
    var seqno: nat, i := 0, 0;
    assert ms[0..] == ms;
    while i < |ms|
      invariant 0 <= i <= |ms| && seqno == |remaining|
      invariant remaining + Kept(gone, ms[i..]) == kept
      invariant sent + Responses(gone, ms[i..], seqno) == numbers
      invariant files + DeletedFiles(gone, ms[i..]) == names
    {
      KeptStep(gone, ms, i, remaining);
      ResponsesStep(gone, ms, i, seqno, sent);
      FilesStep(gone, ms, i, files);
      seqno := seqno + 1;
      if gone(ms[i]) {
        files, sent := files + [ms[i].filename], sent + [seqno];
        seqno := seqno - 1;
      } else {
        remaining := remaining + [ms[i]];
      }
      i := i + 1;
    }
  }

  // ----- the session's fields and commands

  class Mailbox {
    var messages: seq<Message>
    var readOnly: bool
    /** The numbers sent in EXPUNGE responses, and the files given to unlink. */
    var responses: seq<nat>
    var unlinked: seq<Bytes>

    ghost function Abs(): View reads this { View(messages, readOnly) }

    constructor ()
      ensures messages == [] && !readOnly && responses == [] && unlinked == []
    {
      messages, readOnly, responses, unlinked := [], false, [], [];
    }

    /** load_mailbox, with the sorted order given, and the flag that cmd_select sets. */
    method Select(found: seq<Message>, order: seq<Message>, examine: bool)
      requires Possible(Event.Select(found, order, examine))
      modifies this
      ensures Abs() == Step(old(Abs()), Event.Select(found, order, examine)) && Numbered(messages)
      ensures responses == old(responses) && unlinked == old(unlinked)
    {
      messages, readOnly := order, examine;
      AssignNumbers();
    }

    method AssignNumbers()
      modifies this`messages
      ensures messages == Renumber(old(messages))
    {
      var i := 0;
      while i < |messages|
        invariant 0 <= i <= |messages| && |messages| == |old(messages)|
        invariant forall k :: 0 <= k < i ==> messages[k] == old(messages)[k].(seqno := k + 1)
        invariant forall k :: i <= k < |messages| ==> messages[k] == old(messages)[k]
      {
        messages := messages[i := messages[i].(seqno := i + 1)];
        i := i + 1;
      }
    }

    method IncorporateNew(files: seq<Message>)
      modifies this`messages
      ensures Abs() == Step(old(Abs()), Incorporate(files))
    {
      var i := 0;
      assert files[0..] == files;
      while i < |files|
        invariant 0 <= i <= |files|
        invariant AppendNew(messages, files[i..]) == AppendNew(old(messages), files)
      {
        assert files[i..][1..] == files[i + 1..];
        messages := messages + [files[i].(seqno := |messages| + 1, flags := [], inCur := true)];
        i := i + 1;
      }
    }

    method StoreFlags(n: nat, flags: Bytes, filename: Bytes)
      modifies this`messages
      ensures Abs() == Step(old(Abs()), Event.StoreFlags(n, flags, filename))
    {
      if !readOnly {
        var i := 0;
        assert messages[0..] == messages;
        while i < |messages| && messages[i].seqno != n
          invariant 0 <= i <= |messages| && messages == old(messages)
          invariant FindSeq(messages, n) == i + FindSeq(messages[i..], n)
        {
          assert messages[i..][1..] == messages[i + 1..];
          i := i + 1;
        }
        if i < |messages| { messages := messages[i := messages[i].(flags := flags, filename := filename)]; }
      }
    }

    method Expunge()
      modifies this
      ensures Abs() == Step(old(Abs()), Event.Expunge)
      ensures responses == old(responses) + if readOnly then [] else Responses(Deleted, old(messages), 0)
      ensures unlinked == old(unlinked) + if readOnly then [] else DeletedFiles(Deleted, old(messages))
    {
      if !readOnly {
        var remaining, sent, files := Sweep(Deleted, messages);
        messages, responses, unlinked := remaining, responses + sent, unlinked + files;
        AssignNumbers();
      }
    }

    /** cmd_close: the deleted files go without responses. */
    method Close()
      modifies this
      ensures Abs() == Step(old(Abs()), Event.Close) && responses == old(responses)
      ensures unlinked == old(unlinked) + if readOnly then [] else DeletedFiles(Deleted, old(messages))
    {
      if !readOnly {
        var i, files := 0, [];
        assert messages[0..] == messages;
        while i < |messages|
          invariant 0 <= i <= |messages|
          invariant files + DeletedFiles(Deleted, messages[i..]) == DeletedFiles(Deleted, messages)
        {
          assert messages[i..][1..] == messages[i + 1..];
          if Deleted(messages[i]) { files := files + [messages[i].filename]; }
          i := i + 1;
        }
        unlinked := unlinked + files;
      }
      messages := [];
    }
  }
}
