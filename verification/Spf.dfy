/**
 SPF evaluation (src/auth/spf/checker.cpp).  The source is written in continuation-passing style around an
 asynchronous resolver; CheckK, FetchK, HandleK and MechanismsK follow it continuation by continuation.  What a
 call does is the trace of lookups it issues and of callbacks it makes.  DNS is an oracle that may answer the
 n-th query in any way at all.
 */
module Spf {
  import opened Common
  import opened Cidr
  import opened SpfRecord

  const MAX_LOOKUPS := 10

  datatype Result = Pass | Fail | SoftFail | Neutral | NoRecord | TempError | PermError

  datatype Query = Query(name: string, kind: QueryKind)
  datatype QueryKind = TXT | A
  datatype Status = OK | NXDomain | ServFail | Timeout | ParseError
  datatype RData = Text(text: string) | Address(addr: Address4) | Other
  datatype Answer = Answer(status: Status, records: seq<RData>)

  /** The world outside: the resolver, the client's address, and inet_pton. */
  datatype Env = Env(dns: (nat, Query) -> Answer, client4: Option<Address4>, client6: Option<Address6>,
                     pton4: string -> Option<Address4>, pton6: string -> Option<Address6>)

  /** A lookup, with every lookup made before it on the same include/redirect chain and itself; a callback; or the end of defined behaviour. */
  datatype Event = Lookup(chain: seq<Query>) | Callback(result: Result) | Fault(fault: Fault)

  /** An exception from stoi, or a comparison past the sixteen octets of an address, whose outcome is undefined. */
  datatype Fault = Exception | Overread

  /** EvalState; `chain` records the lookups that dns_lookups counts. */
  datatype State = State(sender: string, lookups: nat, depth: nat, chain: seq<Query>)

  /** Callbacks receive the result and the number of queries issued so far. */
  type Cont = (Result, nat) -> seq<Event>

  function QualifierResult(q: char): Result {
    match q
    case '-' => Fail
    case '~' => SoftFail
    case '?' => Neutral
    case _ => Pass
  }

  // ----- matching one address

  datatype Match = Yes | No | Faulty(fault: Fault)

  function Match4(env: Env, cidr: string): Match {
    var prefix := PrefixLength(cidr, 32);
    var base := env.pton4(BaseText(cidr));
    if prefix.None? then Faulty(Exception)
    else if env.client4.Some? && base.Some? && Matches4(env.client4.value, base.value, prefix.value) then Yes
    else No
  }

  /** A prefix beyond 128 makes the source compare past the sixteen octets. */
  function Match6(env: Env, cidr: string): Match {
    var prefix := PrefixLength(cidr, 128);
    var base := env.pton6(BaseText(cidr));
    if prefix.None? then Faulty(Exception)
    else if env.client6.None? || base.None? then No
    else if prefix.value > 128 then Faulty(Overread)
    else if Matches6(env.client6.value, base.value, prefix.value) then Yes
    else No
  }

  /** The answer callback of check_a_record. */
  function MatchA(env: Env, answer: Answer, value: string): Match {
    if !answer.status.OK? then No
    else
      var prefix := PrefixLength(value, 32);
      if prefix.None? then Faulty(Exception)
      else if env.client4.Some? && exists r :: r in answer.records && r.Address? && Matches4(env.client4.value, r.addr, prefix.value) then Yes
      else No
  }

  // ----- picking the record

  datatype Selection = Nothing | One(text: string) | Many

  function Select(records: seq<RData>, found: Option<string>): Selection {
    if records == [] then (if found.None? then Nothing else One(found.value))
    else if records[0].Text? && "v=spf1" <= records[0].text then
      if found.Some? then Many else Select(records[1..], Some(records[0].text))
    else Select(records[1..], found)
  }

  /** What handle_txt_response makes of an answer: a final result, another domain to ask, or mechanisms to evaluate. */
  datatype Policy = Final(result: Result) | Redirect(domain: string) | Evaluate(mechanisms: seq<Mechanism>)

  function Read(answer: Answer): Policy {
    if answer.status.Timeout? || answer.status.ServFail? then Final(TempError)
    else if answer.status.NXDomain? || answer.records == [] then Final(NoRecord)
    else
      match Select(answer.records, None)
      case Nothing => Final(NoRecord)
      case Many => Final(PermError)
      case One(text) =>
        var record := Parse(text);
        if record.None? then Final(PermError)
        else if record.value.redirect != [] && record.value.mechanisms == [] then Redirect(record.value.redirect)
        else Evaluate(record.value.mechanisms)
  }

  // ----- the evaluator of the source

  function Budget(st: State): nat { if st.lookups < MAX_LOOKUPS then MAX_LOOKUPS - st.lookups else 0 }

  function Looked(st: State, q: Query): State { st.(lookups := st.lookups + 1, chain := st.chain + [q]) }

  /** The domain a check starts from. */
  function Domain(mailFrom: string, helo: string): string {
    if mailFrom == [] || mailFrom == "<>" then helo else ExtractDomain(mailFrom)
  }

  function CheckK(env: Env, mailFrom: string, helo: string, k: Cont): seq<Event> {
    var domain := Domain(mailFrom, helo);
    if domain == [] then k(PermError, 0) else FetchK(env, domain, State(domain, 0, 0, []), 0, k)
  }

  function ExtractDomain(mailFrom: string): string {
    if '@' !in mailFrom then []
    else
      var d := mailFrom[LastAt(mailFrom)..];
      if d != [] && d[|d| - 1] == '>' then d[..|d| - 1] else d
  }

  /** The index after the last '@'. */
  function LastAt(s: string): (i: nat)
    ensures i <= |s|
  {
    if s == [] || s[|s| - 1] == '@' then |s| else LastAt(s[..|s| - 1])
  }

  function FetchK(env: Env, domain: string, st: State, n: nat, k: Cont): seq<Event>
    decreases Budget(st), 0, 0
  {
    if st.lookups >= MAX_LOOKUPS then k(PermError, n)
    else
      var q := Query("_spf." + domain, TXT);
      var st' := Looked(st, q);
      var answer := env.dns(n, q);
      [Lookup(st'.chain)] +
      if answer.status.NXDomain? then
        if st'.lookups >= MAX_LOOKUPS then k(PermError, n + 1)
        else
          var q2 := Query(domain, TXT);
          var st'' := Looked(st', q2);
          [Lookup(st''.chain)] + HandleK(env, env.dns(n + 1, q2), st'', n + 2, k)
      else HandleK(env, answer, st', n + 1, k)
  }

  function HandleK(env: Env, answer: Answer, st: State, n: nat, k: Cont): seq<Event>
    decreases Budget(st), 2, 0
  {
    match Read(answer)
    case Final(result) => k(result, n)
    case Redirect(domain) =>
      if st.depth >= 10 then k(PermError, n)
      else FetchK(env, domain, st.(depth := st.depth + 1), n, k)
    case Evaluate(mechanisms) => MechanismsK(env, mechanisms, 0, st, n, k)
  }

  function MechanismsK(env: Env, mechs: seq<Mechanism>, i: nat, st: State, n: nat, k: Cont): seq<Event>
    requires i <= |mechs|
    decreases Budget(st), 1, |mechs| - i, 1
  {
    if i == |mechs| then k(Neutral, n)
    else
      var mech := mechs[i];
      var found := QualifierResult(mech.qualifier);
      if mech.kind == "all" then k(found, n)
      else if mech.kind == "ip4" || mech.kind == "ip6" then
        match if mech.kind == "ip4" then Match4(env, mech.value) else Match6(env, mech.value)
        case Yes => k(found, n)
        case No => MechanismsK(env, mechs, i + 1, st, n, k)
        case Faulty(fault) => [Fault(fault)]
      else if mech.kind == "a" then
        if st.lookups >= MAX_LOOKUPS then k(PermError, n)
        else
          var q := Query(if mech.value == [] then st.sender else mech.value, A);
          var st' := Looked(st, q);
          [Lookup(st'.chain)] +
          match MatchA(env, env.dns(n, q), mech.value)
          case Yes => k(found, n + 1)
          case No => MechanismsK(env, mechs, i + 1, st', n + 1, k)
          case Faulty(fault) => [Fault(fault)]
      else if mech.kind == "include" then
        if mech.value == [] || st.depth >= 10 then k(PermError, n)
        else
          FetchK(env, mech.value, State(mech.value, st.lookups, st.depth + 1, st.chain), n,
                 (included: Result, m: nat) => IncludedK(env, mechs, i, st, k, included, m))
      else if mech.kind == "ptr" || mech.kind == "exits" then MechanismsK(env, mechs, i + 1, st, n, k)
      else k(PermError, n)
  }

  /** The callback of an included evaluation: section 5.2 of RFC 7208. */
  function IncludedK(env: Env, mechs: seq<Mechanism>, i: nat, st: State, k: Cont, included: Result, n: nat): seq<Event>
    requires i < |mechs|
    decreases Budget(st), 1, |mechs| - i, 0
  {
    match included
    case Pass => k(QualifierResult(mechs[i].qualifier), n)
    case Fail => MechanismsK(env, mechs, i + 1, st, n, k)
    case SoftFail => MechanismsK(env, mechs, i + 1, st, n, k)
    case Neutral => MechanismsK(env, mechs, i + 1, st, n, k)
    case TempError => k(TempError, n)
    case _ => k(PermError, n)
  }

  // ----- a direct-style evaluator: left to right, first match, no nesting limit

  /** The lookups made, the number of queries issued by then, and how it ended. */
  datatype Outcome = Outcome(trace: seq<Event>, n: nat, result: Ending)
  datatype Ending = Decided(value: Result) | Broken(fault: Fault)

  function After(e: Event, o: Outcome): Outcome { o.(trace := [e] + o.trace) }

  function Left(lookups: nat): nat { if lookups < MAX_LOOKUPS then MAX_LOOKUPS - lookups else 0 }

  function Fetch(env: Env, domain: string, chain: seq<Query>, n: nat, sender: string): Outcome
    decreases Left(|chain|), 0, 0
  {
    if |chain| >= MAX_LOOKUPS then Outcome([], n, Decided(PermError))
    else
      var c1 := chain + [Query("_spf." + domain, TXT)];
      var answer := env.dns(n, Query("_spf." + domain, TXT));
      After(Lookup(c1),
        if !answer.status.NXDomain? then Follow(env, Read(answer), c1, n + 1, sender)
        else if |c1| >= MAX_LOOKUPS then Outcome([], n + 1, Decided(PermError))
        else
          var c2 := c1 + [Query(domain, TXT)];
          After(Lookup(c2), Follow(env, Read(env.dns(n + 1, Query(domain, TXT))), c2, n + 2, sender)))
  }

  function Follow(env: Env, policy: Policy, chain: seq<Query>, n: nat, sender: string): Outcome
    decreases Left(|chain|), 2, 0
  {
    match policy
    case Final(result) => Outcome([], n, Decided(result))
    case Redirect(domain) => Fetch(env, domain, chain, n, sender)
    case Evaluate(mechs) => FirstMatch(env, mechs, chain, n, sender)
  }

  function FirstMatch(env: Env, mechs: seq<Mechanism>, chain: seq<Query>, n: nat, sender: string): Outcome
    decreases Left(|chain|), 1, |mechs|, 1
  {
    if mechs == [] then Outcome([], n, Decided(Neutral))
    else
      var mech, rest := mechs[0], mechs[1..];
      var found := Outcome([], n, Decided(QualifierResult(mech.qualifier)));
      match mech.kind
      case "all" => found
      case "ip4" => (match Match4(env, mech.value)
                     case Yes => found
                     case No => FirstMatch(env, rest, chain, n, sender)
                     case Faulty(fault) => Outcome([], n, Broken(fault)))
      case "ip6" => (match Match6(env, mech.value)
                     case Yes => found
                     case No => FirstMatch(env, rest, chain, n, sender)
                     case Faulty(fault) => Outcome([], n, Broken(fault)))
      case "a" =>
        if |chain| >= MAX_LOOKUPS then Outcome([], n, Decided(PermError))
        else
          var q := Query(if mech.value == [] then sender else mech.value, A);
          After(Lookup(chain + [q]),
            match MatchA(env, env.dns(n, q), mech.value)
            case Yes => found.(n := n + 1)
            case No => FirstMatch(env, rest, chain + [q], n + 1, sender)
            case Faulty(fault) => Outcome([], n + 1, Broken(fault)))
      case "include" =>
        if mech.value == [] then Outcome([], n, Decided(PermError))
        else
          Included(env, mechs, chain, sender, Fetch(env, mech.value, chain, n, mech.value))
      case "ptr" => FirstMatch(env, rest, chain, n, sender)
      case "exits" => FirstMatch(env, rest, chain, n, sender)
      case _ => Outcome([], n, Decided(PermError))
  }

  /** What an included evaluation means for the mechanism that named it. */
  function Included(env: Env, mechs: seq<Mechanism>, chain: seq<Query>, sender: string, inner: Outcome): Outcome
    requires mechs != []
    decreases Left(|chain|), 1, |mechs|, 0
  {
    if inner.result.Broken? then inner
    else
      match inner.result.value
      case Pass => inner.(result := Decided(QualifierResult(mechs[0].qualifier)))
      case TempError => inner
      case NoRecord => inner.(result := Decided(PermError))
      case PermError => inner
      case _ =>
        var tail := FirstMatch(env, mechs[1..], chain, inner.n, sender);
        tail.(trace := inner.trace + tail.trace)
  }

  // ----- the two agree

  /** Hand the result of a direct evaluation to a callback. */
  function Then(o: Outcome, k: Cont): seq<Event> {
    o.trace + if o.result.Broken? then [Fault(o.result.fault)] else k(o.result.value, o.n)
  }

  lemma ThenAfter(e: Event, o: Outcome, k: Cont)
    ensures Then(After(e, o), k) == [e] + Then(o, k)
  {
  }

  lemma ThenBehind(before: seq<Event>, o: Outcome, k: Cont)
    ensures Then(o.(trace := before + o.trace), k) == before + Then(o, k)
  {
    Assoc(before, o.trace, if o.result.Broken? then [Fault(o.result.fault)] else k(o.result.value, o.n));
  }

  /** What EvalState satisfies at fetch_and_eval: every level of nesting was paid for with a lookup. */
  predicate Tracked(st: State) { st.depth <= st.lookups <= MAX_LOOKUPS && |st.chain| == st.lookups }

  /** ... and once a record has been fetched. */
  predicate Fetched(st: State) { Tracked(st) && st.depth < st.lookups }

  lemma {:induction false} FetchAgrees(env: Env, domain: string, st: State, n: nat, k: Cont)
    requires Tracked(st)
    ensures FetchK(env, domain, st, n, k) == Then(Fetch(env, domain, st.chain, n, st.sender), k)
    decreases Budget(st), 0, 0
  {
    if st.lookups < MAX_LOOKUPS {
      var q := Query("_spf." + domain, TXT);
      var st' := Looked(st, q);
      var answer := env.dns(n, q);
      if !answer.status.NXDomain? {
        HandleAgrees(env, answer, st', n + 1, k);
        ThenAfter(Lookup(st'.chain), Follow(env, Read(answer), st'.chain, n + 1, st.sender), k);
      } else if st'.lookups < MAX_LOOKUPS {
        var q2 := Query(domain, TXT);
        var st'' := Looked(st', q2);
        var answer2 := env.dns(n + 1, q2);
        var o := Follow(env, Read(answer2), st''.chain, n + 2, st.sender);
        HandleAgrees(env, answer2, st'', n + 2, k);
        ThenAfter(Lookup(st''.chain), o, k);
        ThenAfter(Lookup(st'.chain), After(Lookup(st''.chain), o), k);
      }
    }
  }

  /** The two depth guards never fire: the direct evaluator has none. */
  lemma {:induction false} HandleAgrees(env: Env, answer: Answer, st: State, n: nat, k: Cont)
    requires Fetched(st)
    ensures HandleK(env, answer, st, n, k) == Then(Follow(env, Read(answer), st.chain, n, st.sender), k)
    decreases Budget(st), 2, 0
  {
    match Read(answer)
    case Final(result) =>
    case Redirect(domain) => FetchAgrees(env, domain, st.(depth := st.depth + 1), n, k);
    case Evaluate(mechanisms) =>
      MechanismsAgree(env, mechanisms, 0, st, n, k);
      assert mechanisms[0..] == mechanisms;
  }

  lemma {:induction false} MechanismsAgree(env: Env, mechs: seq<Mechanism>, i: nat, st: State, n: nat, k: Cont)
    requires i <= |mechs| && Fetched(st)
    ensures MechanismsK(env, mechs, i, st, n, k) == Then(FirstMatch(env, mechs[i..], st.chain, n, st.sender), k)
    decreases Budget(st), 1, |mechs| - i, 2
  {
    if i < |mechs| {
      var mech := mechs[i];
      assert mechs[i..][0] == mech && mechs[i..][1..] == mechs[i + 1..];
      if mech.kind == "include" {
        if mech.value != [] { IncludeAgrees(env, mechs, i, st, n, k); }
      } else if mech.kind == "a" {
        AddressAgrees(env, mechs, i, st, n, k);
      } else {
        MechanismsAgree(env, mechs, i + 1, st, n, k);
      }
    }
  }

  lemma {:induction false} AddressAgrees(env: Env, mechs: seq<Mechanism>, i: nat, st: State, n: nat, k: Cont)
    requires i < |mechs| && Fetched(st) && mechs[i].kind == "a"
    ensures MechanismsK(env, mechs, i, st, n, k) == Then(FirstMatch(env, mechs[i..], st.chain, n, st.sender), k)
    decreases Budget(st), 1, |mechs| - i, 1
  {
    var mech := mechs[i];
    assert mechs[i..][0] == mech && mechs[i..][1..] == mechs[i + 1..];
    if st.lookups < MAX_LOOKUPS {
      var q := Query(if mech.value == [] then st.sender else mech.value, A);
      var o := AddressOutcome(env, mechs[i..], st.chain, n, st.sender);
      MechanismsAgree(env, mechs, i + 1, Looked(st, q), n + 1, k);
      AddressStepK(env, mechs, i, st, n, k, o);
      AddressStep(env, mechs[i..], st.chain, n, st.sender);
      ThenAfter(Lookup(st.chain + [q]), o, k);
    }
  }

  lemma AddressStepK(env: Env, mechs: seq<Mechanism>, i: nat, st: State, n: nat, k: Cont, o: Outcome)
    requires i < |mechs| && mechs[i].kind == "a" && st.lookups < MAX_LOOKUPS
    requires var q := Query(if mechs[i].value == [] then st.sender else mechs[i].value, A);
      match MatchA(env, env.dns(n, q), mechs[i].value)
      case Yes => o == Outcome([], n + 1, Decided(QualifierResult(mechs[i].qualifier)))
      case No => MechanismsK(env, mechs, i + 1, Looked(st, q), n + 1, k) == Then(o, k)
      case Faulty(fault) => o == Outcome([], n + 1, Broken(fault))
    ensures MechanismsK(env, mechs, i, st, n, k) ==
      [Lookup(st.chain + [Query(if mechs[i].value == [] then st.sender else mechs[i].value, A)])] + Then(o, k)
  {
    assert o.trace == [] ==> [] + Then(o, k) == Then(o, k);
  }

  /** What follows the lookup of an address mechanism at the head of a list. */
  function AddressOutcome(env: Env, mechs: seq<Mechanism>, chain: seq<Query>, n: nat, sender: string): Outcome
    requires mechs != []
  {
    var mech := mechs[0];
    var q := Query(if mech.value == [] then sender else mech.value, A);
    match MatchA(env, env.dns(n, q), mech.value)
    case Yes => Outcome([], n + 1, Decided(QualifierResult(mech.qualifier)))
    case No => FirstMatch(env, mechs[1..], chain + [q], n + 1, sender)
    case Faulty(fault) => Outcome([], n + 1, Broken(fault))
  }

  lemma AddressStep(env: Env, mechs: seq<Mechanism>, chain: seq<Query>, n: nat, sender: string)
    requires mechs != [] && mechs[0].kind == "a" && |chain| < MAX_LOOKUPS
    ensures var q := Query(if mechs[0].value == [] then sender else mechs[0].value, A);
      FirstMatch(env, mechs, chain, n, sender) == After(Lookup(chain + [q]), AddressOutcome(env, mechs, chain, n, sender))
  {
  }

  lemma {:induction false} IncludeAgrees(env: Env, mechs: seq<Mechanism>, i: nat, st: State, n: nat, k: Cont)
    requires i < |mechs| && Fetched(st) && mechs[i].kind == "include" && mechs[i].value != []
    ensures MechanismsK(env, mechs, i, st, n, k) == Then(FirstMatch(env, mechs[i..], st.chain, n, st.sender), k)
    decreases Budget(st), 1, |mechs| - i, 1
  {
    var mech := mechs[i];
    var inner := Fetch(env, mech.value, st.chain, n, mech.value);
    var k' := (included: Result, m: nat) => IncludedK(env, mechs, i, st, k, included, m);
    FetchAgrees(env, mech.value, State(mech.value, st.lookups, st.depth + 1, st.chain), n, k');
    assert MechanismsK(env, mechs, i, st, n, k) == Then(inner, k');
    IncludedAgrees(env, mechs, i, st, inner, k);
    assert mechs[i..][0] == mech;
  }

  lemma {:induction false} IncludedAgrees(env: Env, mechs: seq<Mechanism>, i: nat, st: State, inner: Outcome, k: Cont)
    requires i < |mechs| && Fetched(st)
    ensures Then(inner, (included: Result, m: nat) => IncludedK(env, mechs, i, st, k, included, m))
         == Then(Included(env, mechs[i..], st.chain, st.sender, inner), k)
    decreases Budget(st), 1, |mechs| - i, 0
  {
    if inner.result.Decided? {
      assert mechs[i..][0] == mechs[i] && mechs[i..][1..] == mechs[i + 1..];
      MechanismsAgree(env, mechs, i + 1, st, inner.n, k);
      ThenBehind(inner.trace, FirstMatch(env, mechs[i + 1..], st.chain, inner.n, st.sender), k);
    }
  }

  // ----- what a check does, for every DNS

  function Direct(env: Env, mailFrom: string, helo: string): Outcome {
    var domain := Domain(mailFrom, helo);
    if domain == [] then Outcome([], 0, Decided(PermError)) else Fetch(env, domain, [], 0, domain)
  }

  function Callbacks(trace: seq<Event>): seq<Result> {
    if trace == [] then []
    else (if trace[0].Callback? then [trace[0].result] else []) + Callbacks(trace[1..])
  }

  /** Every event is a lookup on a chain of at most ten that extends `chain`. */
  ghost predicate Chained(trace: seq<Event>, chain: seq<Query>) {
    forall i :: 0 <= i < |trace| ==> trace[i].Lookup? && chain < trace[i].chain && |trace[i].chain| <= MAX_LOOKUPS
  }

  lemma {:induction false} NoCallbacks(trace: seq<Event>, chain: seq<Query>, rest: seq<Event>)
    requires Chained(trace, chain)
    ensures Callbacks(trace + rest) == Callbacks(rest)
  {
    if trace == [] {
      assert trace + rest == rest;
    } else {
      assert (trace + rest)[1..] == trace[1..] + rest;
      NoCallbacks(trace[1..], chain, rest);
    }
  }

  lemma Prepend(e: Event, o: Outcome, chain: seq<Query>, q: Query)
    requires |chain| < MAX_LOOKUPS && e == Lookup(chain + [q]) && Chained(o.trace, chain + [q])
    ensures Chained(After(e, o).trace, chain)
  {
    forall i | 0 < i < |After(e, o).trace| ensures chain < After(e, o).trace[i].chain {
      assert After(e, o).trace[i] == o.trace[i - 1];
      assert o.trace[i - 1].chain[..|chain|] == chain;
    }
  }

  lemma {:induction false} FetchChained(env: Env, domain: string, chain: seq<Query>, n: nat, sender: string)
    ensures Chained(Fetch(env, domain, chain, n, sender).trace, chain)
    decreases Left(|chain|), 0, 0
  {
    if |chain| < MAX_LOOKUPS {
      var q1, q2 := Query("_spf." + domain, TXT), Query(domain, TXT);
      var c1 := chain + [q1];
      var answer := env.dns(n, q1);
      if !answer.status.NXDomain? {
        FollowChained(env, Read(answer), c1, n + 1, sender);
        Prepend(Lookup(c1), Follow(env, Read(answer), c1, n + 1, sender), chain, q1);
      } else if |c1| < MAX_LOOKUPS {
        var o := Follow(env, Read(env.dns(n + 1, q2)), c1 + [q2], n + 2, sender);
        FollowChained(env, Read(env.dns(n + 1, q2)), c1 + [q2], n + 2, sender);
        Prepend(Lookup(c1 + [q2]), o, c1, q2);
        Prepend(Lookup(c1), After(Lookup(c1 + [q2]), o), chain, q1);
      }
    }
  }

  lemma {:induction false} FollowChained(env: Env, policy: Policy, chain: seq<Query>, n: nat, sender: string)
    ensures Chained(Follow(env, policy, chain, n, sender).trace, chain)
    decreases Left(|chain|), 2, 0
  {
    match policy
    case Final(result) =>
    case Redirect(domain) => FetchChained(env, domain, chain, n, sender);
    case Evaluate(mechs) => FirstMatchChained(env, mechs, chain, n, sender);
  }

  lemma {:induction false} FirstMatchChained(env: Env, mechs: seq<Mechanism>, chain: seq<Query>, n: nat, sender: string)
    ensures Chained(FirstMatch(env, mechs, chain, n, sender).trace, chain)
    decreases Left(|chain|), 1, |mechs|
  {
    if mechs != [] {
      var mech, rest := mechs[0], mechs[1..];
      if mech.kind == "a" {
        if |chain| < MAX_LOOKUPS {
          var q := Query(if mech.value == [] then sender else mech.value, A);
          var tail := FirstMatch(env, rest, chain + [q], n + 1, sender);
          FirstMatchChained(env, rest, chain + [q], n + 1, sender);
          Prepend(Lookup(chain + [q]), tail, chain, q);
          Prepend(Lookup(chain + [q]), Outcome([], n + 1, Broken(Exception)), chain, q);
        }
      } else if mech.kind == "include" {
        if mech.value != [] {
          FetchChained(env, mech.value, chain, n, mech.value);
          FirstMatchChained(env, rest, chain, Fetch(env, mech.value, chain, n, mech.value).n, sender);
        }
      } else {
        FirstMatchChained(env, rest, chain, n, sender);
      }
    }
  }

  /**
   For every DNS, cyclic includes and redirects included, a check ends; it makes exactly one callback, with the
   direct evaluator's result, unless a fault ends it first; and no chain makes more than ten lookups.
   */
  lemma CheckCallsBackOnce(env: Env, mailFrom: string, helo: string)
    ensures var o := Direct(env, mailFrom, helo);
      var trace := CheckK(env, mailFrom, helo, (r, n) => [Callback(r)]);
      && Chained(o.trace, [])
      && trace == o.trace + [if o.result.Decided? then Callback(o.result.value) else Fault(o.result.fault)]
      && Callbacks(trace) == if o.result.Decided? then [o.result.value] else []
  {
    var k: Cont := (r, n) => [Callback(r)];
    var domain := Domain(mailFrom, helo);
    var o := Direct(env, mailFrom, helo);
    if domain != [] {
      FetchAgrees(env, domain, State(domain, 0, 0, []), 0, k);
      FetchChained(env, domain, [], 0, domain);
    }
    NoCallbacks(o.trace, [], [if o.result.Decided? then Callback(o.result.value) else Fault(o.result.fault)]);
  }

  // ----- first match, and the lookup limit

  /** RFC 7208, section 5.1: what follows `all` is never looked at. */
  lemma {:induction false} NothingAfterAll(env: Env, pre: seq<Mechanism>, all: Mechanism, post: seq<Mechanism>,
                                           chain: seq<Query>, n: nat, sender: string)
    requires all.kind == "all"
    ensures FirstMatch(env, pre + [all] + post, chain, n, sender) == FirstMatch(env, pre + [all], chain, n, sender)
    decreases |pre|
  {
    if pre != [] {
      var mech := pre[0];
      assert (pre + [all] + post)[1..] == pre[1..] + [all] + post && (pre + [all])[1..] == pre[1..] + [all];
      assert (pre + [all] + post)[0] == (pre + [all])[0] == mech;
      NothingAfterAll(env, pre[1..], all, post, chain, n, sender);
      NothingAfterAll(env, pre[1..], all, post, chain, Fetch(env, mech.value, chain, n, mech.value).n, sender);
      NothingAfterAll(env, pre[1..], all, post,
                      chain + [Query(if mech.value == [] then sender else mech.value, A)], n + 1, sender);
    }
  }
}
