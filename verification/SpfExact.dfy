/**
 When an SPF check calls back and how many lookups it makes, exactly (src/auth/spf/checker.cpp). A check breaks off
 where it reaches a mechanism with an unreadable prefix length, and nowhere else; and the limit of ten lookups holds
 on each include/redirect chain, but for a whole check only as far as no record holds an include.
 */
module SpfExact {
  import opened Common
  import opened SpfRecord
  import opened Spf

  // ----- the mechanisms that are reached

  /** A mechanism, with the lookups made on its chain, the queries issued and the domain by the time it is evaluated. */
  datatype Point = Point(mech: Mechanism, chain: seq<Query>, n: nat, sender: string)

  function AQuery(mech: Mechanism, sender: string): Query { Query(if mech.value == [] then sender else mech.value, A) }

  /** Where the next mechanism is evaluated, unless this one decides or breaks off. */
  function Onward(env: Env, mech: Mechanism, chain: seq<Query>, n: nat, sender: string): Option<(seq<Query>, nat)> {
    match mech.kind
    case "ip4" => if Match4(env, mech.value).No? then Some((chain, n)) else None
    case "ip6" => if Match6(env, mech.value).No? then Some((chain, n)) else None
    case "a" =>
      var q := AQuery(mech, sender);
      if |chain| < MAX_LOOKUPS && MatchA(env, env.dns(n, q), mech.value).No? then Some((chain + [q], n + 1)) else None
    case "include" =>
      if mech.value == [] then None
      else
        var inner := Fetch(env, mech.value, chain, n, mech.value);
        if inner.result.Decided? && Undecided(inner.result.value) then Some((chain, inner.n)) else None
    case "ptr" => Some((chain, n))
    case "exits" => Some((chain, n))
    case _ => None
  }

  /** Results of an include that leave the question open: section 5.2 of RFC 7208. */
  predicate Undecided(r: Result) { r.Fail? || r.SoftFail? || r.Neutral? }

  /** The policy that a fetch lands on after its one or two lookups. */
  function Landing(env: Env, domain: string, chain: seq<Query>, n: nat): Option<(Policy, seq<Query>, nat)> {
    var q1, q2 := Query("_spf." + domain, TXT), Query(domain, TXT);
    var answer := env.dns(n, q1);
    if |chain| >= MAX_LOOKUPS then None
    else if !answer.status.NXDomain? then Some((Read(answer), chain + [q1], n + 1))
    else if |chain| + 1 >= MAX_LOOKUPS then None
    else Some((Read(env.dns(n + 1, q2)), chain + [q1] + [q2], n + 2))
  }

  function FetchPoints(env: Env, domain: string, chain: seq<Query>, n: nat, sender: string): seq<Point>
    decreases Left(|chain|), 0, 0
  {
    match Landing(env, domain, chain, n)
    case None => []
    case Some((policy, chain', n')) => FollowPoints(env, policy, chain', n', sender)
  }

  function FollowPoints(env: Env, policy: Policy, chain: seq<Query>, n: nat, sender: string): seq<Point>
    decreases Left(|chain|), 2, 0
  {
    match policy
    case Final(_) => []
    case Redirect(domain) => FetchPoints(env, domain, chain, n, sender)
    case Evaluate(mechs) => ListPoints(env, mechs, chain, n, sender)
  }

  /** Every mechanism that is evaluated, in order: the list's own and those of the records it includes. */
  function ListPoints(env: Env, mechs: seq<Mechanism>, chain: seq<Query>, n: nat, sender: string): seq<Point>
    decreases Left(|chain|), 1, |mechs|
  {
    if mechs == [] then []
    else
      var mech := mechs[0];
      var inner := if mech.kind == "include" && mech.value != [] then FetchPoints(env, mech.value, chain, n, mech.value) else [];
      [Point(mech, chain, n, sender)] + inner +
      match Onward(env, mech, chain, n, sender)
      case None => []
      case Some((chain', n')) => ListPoints(env, mechs[1..], chain', n', sender)
  }

  /** Every mechanism that a check evaluates. */
  function CheckPoints(env: Env, mailFrom: string, helo: string): seq<Point> {
    var domain := Domain(mailFrom, helo);
    if domain == [] then [] else FetchPoints(env, domain, [], 0, domain)
  }

  // ----- where evaluation breaks off

  /** The mechanism is compared with the client's address and its prefix length cannot be read, or is past the end of an address. */
  predicate Unreadable(env: Env, p: Point) {
    var v := p.mech.value;
    match p.mech.kind
    case "ip4" => PrefixLength(v, 32).None?
    case "ip6" => PrefixLength(v, 128).None? ||
      (env.client6.Some? && env.pton6(BaseText(v)).Some? && PrefixLength(v, 128).value > 128)
    case "a" => |p.chain| < MAX_LOOKUPS && PrefixLength(v, 32).None? && env.dns(p.n, AQuery(p.mech, p.sender)).status.OK?
    case _ => false
  }

  predicate AnyUnreadable(env: Env, ps: seq<Point>) { exists p | p in ps :: Unreadable(env, p) }

  /** One mechanism: the list breaks off at it, inside the record it includes, or behind it. */
  lemma HeadBreaks(env: Env, mechs: seq<Mechanism>, chain: seq<Query>, n: nat, sender: string)
    requires mechs != []
    ensures var mech, next := mechs[0], Onward(env, mechs[0], chain, n, sender);
      FirstMatch(env, mechs, chain, n, sender).result.Broken? <==>
        || Unreadable(env, Point(mech, chain, n, sender))
        || (mech.kind == "include" && mech.value != [] && Fetch(env, mech.value, chain, n, mech.value).result.Broken?)
        || (next.Some? && FirstMatch(env, mechs[1..], next.value.0, next.value.1, sender).result.Broken?)
  {
    var mech := mechs[0];
    if mech.kind == "include" && mech.value != [] {
      var inner := Fetch(env, mech.value, chain, n, mech.value);
      assert FirstMatch(env, mechs, chain, n, sender) == Included(env, mechs, chain, sender, inner);
    }
  }

  lemma {:induction false} ListBreaks(env: Env, mechs: seq<Mechanism>, chain: seq<Query>, n: nat, sender: string)
    ensures FirstMatch(env, mechs, chain, n, sender).result.Broken? <==> AnyUnreadable(env, ListPoints(env, mechs, chain, n, sender))
    decreases Left(|chain|), 1, |mechs|
  {
    if mechs != [] {
      var mech, next := mechs[0], Onward(env, mechs[0], chain, n, sender);
      var here := Point(mech, chain, n, sender);
      HeadBreaks(env, mechs, chain, n, sender);
      var inner: seq<Point>, rest: seq<Point> := [], [];
      if mech.kind == "include" && mech.value != [] {
        FetchBreaks(env, mech.value, chain, n, mech.value);
        inner := FetchPoints(env, mech.value, chain, n, mech.value);
      }
      if next.Some? {
        ListBreaks(env, mechs[1..], next.value.0, next.value.1, sender);
        rest := ListPoints(env, mechs[1..], next.value.0, next.value.1, sender);
      }
      assert ListPoints(env, mechs, chain, n, sender) == [here] + inner + rest;
      AnyOfThree(env, here, inner, rest);
    }
  }

  lemma AnyOfThree(env: Env, here: Point, inner: seq<Point>, rest: seq<Point>)
    ensures AnyUnreadable(env, [here] + inner + rest) <==>
      Unreadable(env, here) || AnyUnreadable(env, inner) || AnyUnreadable(env, rest)
  {
    var all := [here] + inner + rest;
    assert here in all;
    assert forall p :: p in all <==> p == here || p in inner || p in rest;
  }

  lemma {:induction false} FollowBreaks(env: Env, policy: Policy, chain: seq<Query>, n: nat, sender: string)
    ensures Follow(env, policy, chain, n, sender).result.Broken? <==> AnyUnreadable(env, FollowPoints(env, policy, chain, n, sender))
    decreases Left(|chain|), 2, 0
  {
    match policy
    case Final(_) =>
    case Redirect(domain) => FetchBreaks(env, domain, chain, n, sender);
    case Evaluate(mechs) => ListBreaks(env, mechs, chain, n, sender);
  }

  /** A fetch ends as the policy it lands on does. */
  lemma FetchLands(env: Env, domain: string, chain: seq<Query>, n: nat, sender: string)
    ensures Fetch(env, domain, chain, n, sender).result ==
      match Landing(env, domain, chain, n)
      case None => Decided(PermError)
      case Some((policy, chain', n')) => Follow(env, policy, chain', n', sender).result
  {
  }

  lemma {:induction false} FetchBreaks(env: Env, domain: string, chain: seq<Query>, n: nat, sender: string)
    ensures Fetch(env, domain, chain, n, sender).result.Broken? <==> AnyUnreadable(env, FetchPoints(env, domain, chain, n, sender))
    decreases Left(|chain|), 0, 0
  {
    FetchLands(env, domain, chain, n, sender);
    match Landing(env, domain, chain, n)
    case None =>
    case Some((policy, chain', n')) => FollowBreaks(env, policy, chain', n', sender);
  }

  /** A check makes exactly one callback if and only if no mechanism that it reaches has an unreadable prefix length, and none otherwise. */
  lemma CallsBackIffReadable(env: Env, mailFrom: string, helo: string)
    ensures var callbacks := Callbacks(CheckK(env, mailFrom, helo, (r, n) => [Callback(r)]));
      |callbacks| == if AnyUnreadable(env, CheckPoints(env, mailFrom, helo)) then 0 else 1
  {
    var domain := Domain(mailFrom, helo);
    CheckCallsBackOnce(env, mailFrom, helo);
    if domain != [] { FetchBreaks(env, domain, [], 0, domain); }
  }

  /** Prefix lengths that stoi accepts, and none beyond 128 for an ip6 block. */
  predicate PrefixesRead(mechs: seq<Mechanism>) {
    forall m :: m in mechs ==>
      && (m.kind == "ip4" || m.kind == "a" ==> PrefixLength(m.value, 32).Some?)
      && (m.kind == "ip6" ==> PrefixLength(m.value, 128).Some? && PrefixLength(m.value, 128).value <= 128)
  }

  predicate Sane(policy: Policy) { policy.Evaluate? ==> PrefixesRead(policy.mechanisms) }

  ghost predicate SaneDns(env: Env) { forall n: nat, q: Query :: Sane(Read(env.dns(n, q))) }

  lemma {:induction false} FetchFinishes(env: Env, domain: string, chain: seq<Query>, n: nat, sender: string)
    requires SaneDns(env)
    ensures Fetch(env, domain, chain, n, sender).result.Decided?
    decreases Left(|chain|), 0, 0
  {
    if |chain| < MAX_LOOKUPS {
      var q1, q2 := Query("_spf." + domain, TXT), Query(domain, TXT);
      var c1 := chain + [q1];
      assert Sane(Read(env.dns(n, q1))) && Sane(Read(env.dns(n + 1, q2)));
      FollowFinishes(env, Read(env.dns(n, q1)), c1, n + 1, sender);
      if |c1| < MAX_LOOKUPS { FollowFinishes(env, Read(env.dns(n + 1, q2)), c1 + [q2], n + 2, sender); }
    }
  }

  lemma {:induction false} FollowFinishes(env: Env, policy: Policy, chain: seq<Query>, n: nat, sender: string)
    requires SaneDns(env) && Sane(policy)
    ensures Follow(env, policy, chain, n, sender).result.Decided?
    decreases Left(|chain|), 2, 0
  {
    match policy
    case Final(result) =>
    case Redirect(domain) => FetchFinishes(env, domain, chain, n, sender);
    case Evaluate(mechs) => FirstMatchFinishes(env, mechs, chain, n, sender);
  }

  lemma {:induction false} FirstMatchFinishes(env: Env, mechs: seq<Mechanism>, chain: seq<Query>, n: nat, sender: string)
    requires SaneDns(env) && PrefixesRead(mechs)
    ensures FirstMatch(env, mechs, chain, n, sender).result.Decided?
    decreases Left(|chain|), 1, |mechs|
  {
    if mechs != [] {
      var mech, rest := mechs[0], mechs[1..];
      assert mech in mechs;
      if mech.kind == "a" {
        var q := Query(if mech.value == [] then sender else mech.value, A);
        if |chain| < MAX_LOOKUPS { FirstMatchFinishes(env, rest, chain + [q], n + 1, sender); }
      } else if mech.kind == "include" {
        if mech.value != [] {
          FetchFinishes(env, mech.value, chain, n, mech.value);
          FirstMatchFinishes(env, rest, chain, Fetch(env, mech.value, chain, n, mech.value).n, sender);
        }
      } else {
        FirstMatchFinishes(env, rest, chain, n, sender);
      }
    }
  }

  /** With readable prefix lengths in every record, a check always calls back. */
  lemma SaneDnsAlwaysCallsBack(env: Env, mailFrom: string, helo: string)
    requires SaneDns(env)
    ensures |Callbacks(CheckK(env, mailFrom, helo, (r, n) => [Callback(r)]))| == 1
  {
    var domain := Domain(mailFrom, helo);
    if domain != [] { FetchFinishes(env, domain, [], 0, domain); }
    CheckCallsBackOnce(env, mailFrom, helo);
  }

  // ----- checks at given records

  function Published(r: Record): Answer { Answer(OK, [Text(RecordText(r))]) }

  lemma PublishedIsRead(r: Record)
    requires RecordOk(r)
    ensures Read(Published(r)) == if r.redirect != [] && r.mechanisms == [] then Redirect(r.redirect) else Evaluate(r.mechanisms)
  {
    var text := RecordText(r);
    assert "v=spf1" <= text;
    assert Select([Text(text)], None) == Select([], Some(text)) == One(text);
    ParseInvertsText(r);
  }

  /** A check whose first answer is a record without redirect evaluates that record's mechanisms. */
  lemma CheckReads(env: Env, mailFrom: string, helo: string, r: Record)
    requires RecordOk(r) && r.redirect == [] && Domain(mailFrom, helo) != []
    requires env.dns(0, Query("_spf." + Domain(mailFrom, helo), TXT)) == Published(r)
    ensures var d := Domain(mailFrom, helo); var chain := [Query("_spf." + d, TXT)];
      Direct(env, mailFrom, helo) == After(Lookup(chain), FirstMatch(env, r.mechanisms, chain, 1, d))
  {
    var d := Domain(mailFrom, helo);
    PublishedIsRead(r);
    assert [] + [Query("_spf." + d, TXT)] == [Query("_spf." + d, TXT)];
  }

  /** A record whose first mechanism is an ip4 block without a readable prefix length ends the check before any callback, for every client. */
  lemma UnreadableBlockThrows(env: Env, mailFrom: string, helo: string, r: Record)
    requires RecordOk(r) && r.redirect == [] && Domain(mailFrom, helo) != []
    requires r.mechanisms != [] && r.mechanisms[0].kind == "ip4" && PrefixLength(r.mechanisms[0].value, 32).None?
    requires env.dns(0, Query("_spf." + Domain(mailFrom, helo), TXT)) == Published(r)
    ensures CheckK(env, mailFrom, helo, (r, n) => [Callback(r)]) == [Lookup([Query("_spf." + Domain(mailFrom, helo), TXT)]), Fault(Exception)]
  {
    CheckReads(env, mailFrom, helo, r);
    CheckCallsBackOnce(env, mailFrom, helo);
  }

  const BARE_SLASH := Mechanism('+', "ip4", "192.0.2.1/")

  lemma BareSlashIsUnreadable()
    ensures MechanismOk(BARE_SLASH) && PrefixLength(BARE_SLASH.value, 32).None?
  {
    var kind, v := "ip4", "192.0.2.1/";
    assert Lower(kind) == kind;
    assert Find(v, '/', 0) == Find(v, '/', 3) == Find(v, '/', 6) == 9;
    assert v[10..] == [];
  }

  /** Such a record: "v=spf1 +ip4:192.0.2.1/". */
  lemma BareSlashFaults(env: Env, mailFrom: string, helo: string)
    requires Domain(mailFrom, helo) != []
    requires env.dns(0, Query("_spf." + Domain(mailFrom, helo), TXT)) == Published(Record([BARE_SLASH], [], []))
    ensures CheckK(env, mailFrom, helo, (r, n) => [Callback(r)]) == [Lookup([Query("_spf." + Domain(mailFrom, helo), TXT)]), Fault(Exception)]
  {
    BareSlashIsUnreadable();
    UnreadableBlockThrows(env, mailFrom, helo, Record([BARE_SLASH], [], []));
  }

  // ----- the lookup limit

  /** No record holds an include. */
  predicate Flat(policy: Policy) { policy.Evaluate? ==> forall m | m in policy.mechanisms :: m.kind != "include" }

  ghost predicate FlatDns(env: Env) { forall n: nat, q: Query :: Flat(Read(env.dns(n, q))) }

  lemma {:induction false} FetchIsShort(env: Env, domain: string, chain: seq<Query>, n: nat, sender: string)
    requires FlatDns(env)
    ensures |Fetch(env, domain, chain, n, sender).trace| <= Left(|chain|)
    decreases Left(|chain|), 0, 0
  {
    if |chain| < MAX_LOOKUPS {
      var q1, q2 := Query("_spf." + domain, TXT), Query(domain, TXT);
      var c1 := chain + [q1];
      assert Flat(Read(env.dns(n, q1))) && Flat(Read(env.dns(n + 1, q2)));
      FollowIsShort(env, Read(env.dns(n, q1)), c1, n + 1, sender);
      if |c1| < MAX_LOOKUPS { FollowIsShort(env, Read(env.dns(n + 1, q2)), c1 + [q2], n + 2, sender); }
    }
  }

  lemma {:induction false} FollowIsShort(env: Env, policy: Policy, chain: seq<Query>, n: nat, sender: string)
    requires FlatDns(env) && Flat(policy)
    ensures |Follow(env, policy, chain, n, sender).trace| <= Left(|chain|)
    decreases Left(|chain|), 2, 0
  {
    match policy
    case Final(_) =>
    case Redirect(domain) => FetchIsShort(env, domain, chain, n, sender);
    case Evaluate(mechs) => ListIsShort(env, mechs, chain, n, sender);
  }

  lemma {:induction false} ListIsShort(env: Env, mechs: seq<Mechanism>, chain: seq<Query>, n: nat, sender: string)
    requires FlatDns(env) && Flat(Evaluate(mechs))
    ensures |FirstMatch(env, mechs, chain, n, sender).trace| <= Left(|chain|)
    decreases Left(|chain|), 1, |mechs|
  {
    if mechs != [] {
      var mech, rest := mechs[0], mechs[1..];
      assert mech in mechs;
      if mech.kind == "a" {
        if |chain| < MAX_LOOKUPS { ListIsShort(env, rest, chain + [AQuery(mech, sender)], n + 1, sender); }
      } else {
        ListIsShort(env, rest, chain, n, sender);
      }
    }
  }

  /** Where no record holds an include, a whole check makes at most ten lookups. */
  lemma FlatChecksAreShort(env: Env, mailFrom: string, helo: string)
    requires FlatDns(env)
    ensures |Direct(env, mailFrom, helo).trace| <= MAX_LOOKUPS
  {
    var d := Domain(mailFrom, helo);
    if d != [] { FetchIsShort(env, d, [], 0, d); }
  }

  function Includes(domain: string, m: nat): (r: seq<Mechanism>)
    ensures |r| == m && forall i :: 0 <= i < m ==> r[i] == Mechanism('+', "include", domain)
  {
    if m == 0 then [] else [Mechanism('+', "include", domain)] + Includes(domain, m - 1)
  }

  /** From the n-th query on, every answer is a record without mechanisms, such as "v=spf1". */
  ghost predicate EmptyFrom(env: Env, n: nat) {
    forall i: nat, q: Query :: i >= n ==> env.dns(i, q).status.OK? && Read(env.dns(i, q)) == Evaluate([])
  }

  lemma EmptyInclude(env: Env, domain: string, chain: seq<Query>, n: nat)
    requires EmptyFrom(env, n) && |chain| < MAX_LOOKUPS
    ensures Fetch(env, domain, chain, n, domain) == Outcome([Lookup(chain + [Query("_spf." + domain, TXT)])], n + 1, Decided(Neutral))
  {
    var c1 := chain + [Query("_spf." + domain, TXT)];
    assert Read(env.dns(n, Query("_spf." + domain, TXT))) == Evaluate([]);
    assert Follow(env, Evaluate([]), c1, n + 1, domain) == Outcome([], n + 1, Decided(Neutral));
    assert Fetch(env, domain, chain, n, domain) == After(Lookup(c1), Follow(env, Evaluate([]), c1, n + 1, domain));
  }

  lemma NeutralInclude(env: Env, domain: string, rest: seq<Mechanism>, chain: seq<Query>, n: nat, sender: string)
    requires domain != [] && Fetch(env, domain, chain, n, domain).result == Decided(Neutral)
    ensures var inner := Fetch(env, domain, chain, n, domain);
      var tail := FirstMatch(env, rest, chain, inner.n, sender);
      FirstMatch(env, [Mechanism('+', "include", domain)] + rest, chain, n, sender) == tail.(trace := inner.trace + tail.trace)
  {
    var mechs := [Mechanism('+', "include", domain)] + rest;
    assert mechs[1..] == rest;
    assert FirstMatch(env, mechs, chain, n, sender) == Included(env, mechs, chain, sender, Fetch(env, domain, chain, n, domain));
  }

  lemma {:induction false} IncludesLookUp(env: Env, domain: string, m: nat, chain: seq<Query>, n: nat, sender: string)
    requires EmptyFrom(env, n) && domain != [] && |chain| < MAX_LOOKUPS
    ensures var o := FirstMatch(env, Includes(domain, m), chain, n, sender); |o.trace| == m && o.n == n + m && o.result == Decided(Neutral)
    decreases m
  {
    if m > 0 {
      EmptyInclude(env, domain, chain, n);
      IncludesLookUp(env, domain, m - 1, chain, n + 1, sender);
      NeutralInclude(env, domain, Includes(domain, m - 1), chain, n, sender);
    }
  }

  /** With includes there is no limit on a whole check: a record of m includes of an empty record makes 1 + m lookups, for every m. */
  lemma IncludesEscapeTheLimit(env: Env, mailFrom: string, helo: string, included: string, m: nat)
    requires Domain(mailFrom, helo) != [] && included != [] && Word(included)
    requires env.dns(0, Query("_spf." + Domain(mailFrom, helo), TXT)) == Published(Record(Includes(included, m), [], [])) && EmptyFrom(env, 1)
    ensures |Direct(env, mailFrom, helo).trace| == 1 + m
    ensures CheckK(env, mailFrom, helo, (r, n) => [Callback(r)]) == Direct(env, mailFrom, helo).trace + [Callback(Neutral)]
  {
    var d, r := Domain(mailFrom, helo), Record(Includes(included, m), [], []);
    assert RecordOk(r) by { IncludeIsOk(included); }
    CheckReads(env, mailFrom, helo, r);
    IncludesLookUp(env, included, m, [Query("_spf." + d, TXT)], 1, d);
    CheckCallsBackOnce(env, mailFrom, helo);
  }

  lemma IncludeIsOk(domain: string)
    requires Word(domain)
    ensures MechanismOk(Mechanism('+', "include", domain))
  {
    var kind := "include";
    assert Lower(kind) == kind;
    assert Word(kind);
  }
}
