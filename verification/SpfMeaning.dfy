/**
 What an SPF check answers (src/auth/spf/checker.cpp), in the terms of RFC 7208: the qualifier of the first mechanism
 that names the client, bit by bit for addresses, and the results of answers that hold no usable record.
 */
module SpfMeaning {
  import opened Common
  import opened Cidr
  import opened SpfRecord
  import opened Spf
  import opened SpfExact

  /** Section 4.6.2 of RFC 7208. */
  predicate Means(qualifier: char, r: Result) {
    (qualifier == '-' ==> r == Fail) && (qualifier == '~' ==> r == SoftFail) &&
    (qualifier == '?' ==> r == Neutral) && (qualifier == '+' ==> r == Pass)
  }

  lemma QualifierMeans(qualifier: char)
    ensures Means(qualifier, QualifierResult(qualifier))
  {
  }

  // ----- which client a mechanism names

  /** The first bits of the client's address and of the block agree, as many as the prefix length says. */
  ghost predicate Names4(env: Env, block: string) {
    var base, prefix := env.pton4(BaseText(block)), PrefixLength(block, 32);
    env.client4.Some? && base.Some? && prefix.Some? && prefix.value <= 32 && Agree(env.client4.value, base.value, 32, prefix.value)
  }

  ghost predicate Names6(env: Env, block: string) {
    var base, prefix := env.pton6(BaseText(block)), PrefixLength(block, 128);
    env.client6.Some? && base.Some? && prefix.Some? && prefix.value <= 128 && Agree6(env.client6.value, base.value, prefix.value)
  }

  /** One of the addresses in the answer agrees with the client's. */
  ghost predicate NamesA(env: Env, answer: Answer, value: string) {
    var prefix := PrefixLength(value, 32);
    answer.status.OK? && env.client4.Some? && prefix.Some? && prefix.value <= 32 &&
    exists r | r in answer.records :: r.Address? && Agree(env.client4.value, r.addr, 32, prefix.value)
  }

  lemma Match4Means(env: Env, block: string)
    ensures Match4(env, block).Yes? <==> Names4(env, block)
    ensures Match4(env, block).No? <==> PrefixLength(block, 32).Some? && !Names4(env, block)
  {
    var base, prefix := env.pton4(BaseText(block)), PrefixLength(block, 32);
    if env.client4.Some? && base.Some? && prefix.Some? { Matches4IsBitwise(env.client4.value, base.value, prefix.value); }
  }

  lemma Match6Means(env: Env, block: string)
    ensures Match6(env, block).Yes? <==> Names6(env, block)
    ensures PrefixLength(block, 128).Some? && PrefixLength(block, 128).value <= 128 ==> (Match6(env, block).No? <==> !Names6(env, block))
  {
    var base, prefix := env.pton6(BaseText(block)), PrefixLength(block, 128);
    if env.client6.Some? && base.Some? && prefix.Some? && prefix.value <= 128 {
      Matches6IsBitwise(env.client6.value, base.value, prefix.value);
    }
  }

  lemma MatchAMeans(env: Env, answer: Answer, value: string)
    ensures MatchA(env, answer, value).Yes? <==> NamesA(env, answer, value)
    ensures PrefixLength(value, 32).Some? ==> (MatchA(env, answer, value).No? <==> !NamesA(env, answer, value))
  {
    var prefix := PrefixLength(value, 32);
    if env.client4.Some? && prefix.Some? {
      forall r | r in answer.records && r.Address?
        ensures Matches4(env.client4.value, r.addr, prefix.value) <==> prefix.value <= 32 && Agree(env.client4.value, r.addr, 32, prefix.value)
      {
        Matches4IsBitwise(env.client4.value, r.addr, prefix.value);
      }
    }
  }

  // ----- the first mechanism of a list

  /** The mechanism names the client; for an include, its own evaluation passes. */
  ghost predicate Hits(env: Env, mech: Mechanism, chain: seq<Query>, n: nat, sender: string) {
    match mech.kind
    case "all" => true
    case "ip4" => Names4(env, mech.value)
    case "ip6" => Names6(env, mech.value)
    case "a" => |chain| < 10 && NamesA(env, env.dns(n, AQuery(mech, sender)), mech.value)
    case "include" => mech.value != [] && Fetch(env, mech.value, chain, n, mech.value).result == Decided(Pass)
    case _ => false
  }

  /** A list whose first mechanism names the client is decided by its qualifier. */
  lemma HitAnswers(env: Env, mechs: seq<Mechanism>, chain: seq<Query>, n: nat, sender: string)
    requires mechs != [] && Hits(env, mechs[0], chain, n, sender)
    ensures var r := FirstMatch(env, mechs, chain, n, sender).result; r.Decided? && Means(mechs[0].qualifier, r.value)
  {
    var mech := mechs[0];
    QualifierMeans(mech.qualifier);
    match mech.kind {
      case "ip4" => Match4Means(env, mech.value);
      case "ip6" => Match6Means(env, mech.value);
      case "a" =>
        MatchAMeans(env, env.dns(n, AQuery(mech, sender)), mech.value);
        AddressStep(env, mechs, chain, n, sender);
      case "include" =>
        assert FirstMatch(env, mechs, chain, n, sender) == Included(env, mechs, chain, sender, Fetch(env, mech.value, chain, n, mech.value));
      case _ =>
    }
  }

  /** Readable blocks that do not name the client are passed over. */
  predicate Readable(mech: Mechanism) {
    match mech.kind
    case "ip4" => PrefixLength(mech.value, 32).Some?
    case "ip6" => PrefixLength(mech.value, 128).Some? && PrefixLength(mech.value, 128).value <= 128
    case _ => false
  }

  lemma MissGoesOn(env: Env, mechs: seq<Mechanism>, chain: seq<Query>, n: nat, sender: string)
    requires mechs != [] && Readable(mechs[0]) && !Hits(env, mechs[0], chain, n, sender)
    ensures FirstMatch(env, mechs, chain, n, sender) == FirstMatch(env, mechs[1..], chain, n, sender)
  {
    if mechs[0].kind == "ip4" { Match4Means(env, mechs[0].value); } else { Match6Means(env, mechs[0].value); }
  }

  lemma AddressMissGoesOn(env: Env, mechs: seq<Mechanism>, chain: seq<Query>, n: nat, sender: string)
    requires mechs != [] && mechs[0].kind == "a" && |chain| < 10 && PrefixLength(mechs[0].value, 32).Some? && !Hits(env, mechs[0], chain, n, sender)
    ensures FirstMatch(env, mechs, chain, n, sender).result ==
      FirstMatch(env, mechs[1..], chain + [AQuery(mechs[0], sender)], n + 1, sender).result
  {
    MatchAMeans(env, env.dns(n, AQuery(mechs[0], sender)), mechs[0].value);
    AddressStep(env, mechs, chain, n, sender);
  }

  /** Section 5.2 of RFC 7208: what the result of an included domain means. */
  lemma IncludeMeans(env: Env, mechs: seq<Mechanism>, chain: seq<Query>, n: nat, sender: string, inner: Result)
    requires mechs != [] && mechs[0].kind == "include" && mechs[0].value != []
    requires Fetch(env, mechs[0].value, chain, n, mechs[0].value).result == Decided(inner)
    ensures var r := FirstMatch(env, mechs, chain, n, sender).result; var n' := Fetch(env, mechs[0].value, chain, n, mechs[0].value).n;
      (inner == Pass ==> r.Decided? && Means(mechs[0].qualifier, r.value)) &&
      (inner == Fail || inner == SoftFail || inner == Neutral ==> r == FirstMatch(env, mechs[1..], chain, n', sender).result) &&
      (inner == TempError ==> r == Decided(TempError)) &&
      (inner == PermError || inner == NoRecord ==> r == Decided(PermError))
  {
    QualifierMeans(mechs[0].qualifier);
    assert FirstMatch(env, mechs, chain, n, sender) ==
      Included(env, mechs, chain, sender, Fetch(env, mechs[0].value, chain, n, mechs[0].value));
  }

  /** An exhausted list is Neutral; ptr and the misspelt exists are passed over; unknown mechanisms, includes without a domain and lookups past the tenth are permanent errors. */
  lemma ErrorsAndEnd(env: Env, mechs: seq<Mechanism>, chain: seq<Query>, n: nat, sender: string, domain: string)
    ensures mechs == [] ==> FirstMatch(env, mechs, chain, n, sender).result == Decided(Neutral)
    ensures mechs != [] && mechs[0].kind !in ["all", "ip4", "ip6", "a", "include", "ptr", "exits"] ==>
      FirstMatch(env, mechs, chain, n, sender).result == Decided(PermError)
    ensures mechs != [] && mechs[0].kind in ["ptr", "exits"] ==>
      FirstMatch(env, mechs, chain, n, sender) == FirstMatch(env, mechs[1..], chain, n, sender)
    ensures mechs != [] && mechs[0].kind == "include" && mechs[0].value == [] ==> FirstMatch(env, mechs, chain, n, sender).result == Decided(PermError)
    ensures mechs != [] && mechs[0].kind == "a" && |chain| >= 10 ==> FirstMatch(env, mechs, chain, n, sender).result == Decided(PermError)
    ensures |chain| >= 10 ==> Fetch(env, domain, chain, n, sender).result == Decided(PermError)
  {
  }

  // ----- whole checks

  /** The lookups made before a published record is evaluated: of the name with the prefix and, if there is no such name, of the bare domain. */
  ghost function FirstChain(env: Env, mailFrom: string, helo: string): seq<Query> {
    var d := Domain(mailFrom, helo);
    var q := Query("_spf." + d, TXT);
    if env.dns(0, q).status.NXDomain? then [q, Query(d, TXT)] else [q]
  }

  function Opened(chain: seq<Query>, o: Outcome): Outcome {
    if |chain| <= 1 then After(Lookup(chain), o) else After(Lookup(chain[..1]), After(Lookup(chain), o))
  }

  /** The domain publishes the record, and the check reads it first. */
  ghost predicate Publishes(env: Env, mailFrom: string, helo: string, r: Record) {
    var chain := FirstChain(env, mailFrom, helo);
    RecordOk(r) && Domain(mailFrom, helo) != [] && env.dns(|chain| - 1, chain[|chain| - 1]) == Published(r)
  }

  /** A redirect counts only in a record without mechanisms. */
  predicate Redirects(r: Record) { r.redirect != [] && r.mechanisms == [] }

  /** A check evaluates the record that the domain publishes, or the one of the domain that it redirects to. */
  lemma CheckEvaluates(env: Env, mailFrom: string, helo: string, r: Record)
    requires Publishes(env, mailFrom, helo, r)
    ensures var d, chain := Domain(mailFrom, helo), FirstChain(env, mailFrom, helo);
      Direct(env, mailFrom, helo) == Opened(chain,
        if Redirects(r) then Fetch(env, r.redirect, chain, |chain|, d) else FirstMatch(env, r.mechanisms, chain, |chain|, d))
  {
    var d := Domain(mailFrom, helo);
    var q1, q2 := Query("_spf." + d, TXT), Query(d, TXT);
    PublishedIsRead(r);
    assert [] + [q1] == [q1] && [q1] + [q2] == [q1, q2] && [q1, q2][..1] == [q1];
  }

  /** The one callback of a check, if its evaluation decides. */
  lemma CallbackIs(env: Env, mailFrom: string, helo: string, r: Result)
    requires Direct(env, mailFrom, helo).result == Decided(r)
    ensures Callbacks(CheckK(env, mailFrom, helo, (x, n) => [Callback(x)])) == [r]
  {
    CheckCallsBackOnce(env, mailFrom, helo);
  }

  /** A check whose record starts with a mechanism that names the client calls back what its qualifier means: for `all`, whoever the client is. */
  lemma PublishedHit(env: Env, mailFrom: string, helo: string, r: Record)
    requires Publishes(env, mailFrom, helo, r) && r.mechanisms != []
    requires var chain := FirstChain(env, mailFrom, helo); Hits(env, r.mechanisms[0], chain, |chain|, Domain(mailFrom, helo))
    ensures var answers := Callbacks(CheckK(env, mailFrom, helo, (x, n) => [Callback(x)]));
      |answers| == 1 && Means(r.mechanisms[0].qualifier, answers[0])
  {
    var chain := FirstChain(env, mailFrom, helo);
    CheckEvaluates(env, mailFrom, helo, r);
    HitAnswers(env, r.mechanisms, chain, |chain|, Domain(mailFrom, helo));
    CallbackIs(env, mailFrom, helo, Direct(env, mailFrom, helo).result.value);
  }

  /** "v=spf1 -all" fails every client, "~all" fails it softly, "?all" is neutral and "+all" passes. */
  lemma AllAnswers(env: Env, mailFrom: string, helo: string, qualifier: char)
    requires qualifier in "+-~?" && Publishes(env, mailFrom, helo, Record([Mechanism(qualifier, "all", [])], [], []))
    ensures Callbacks(CheckK(env, mailFrom, helo, (x, n) => [Callback(x)])) ==
      [if qualifier == '-' then Fail else if qualifier == '~' then SoftFail else if qualifier == '?' then Neutral else Pass]
  {
    PublishedHit(env, mailFrom, helo, Record([Mechanism(qualifier, "all", [])], [], []));
  }

  // ----- a record without one of its mechanisms

  /** The two worlds differ in their first answers only. */
  ghost predicate SameLater(a: Env, b: Env, first: nat) {
    a.client4 == b.client4 && a.client6 == b.client6 && a.pton4 == b.pton4 && a.pton6 == b.pton6 &&
    forall i: nat, q: Query :: i >= first ==> a.dns(i, q) == b.dns(i, q)
  }

  lemma SameMatches(a: Env, b: Env, v: string, answer: Answer, first: nat)
    requires SameLater(a, b, first)
    ensures Match4(a, v) == Match4(b, v) && Match6(a, v) == Match6(b, v) && MatchA(a, answer, v) == MatchA(b, answer, v)
  {
  }

  lemma {:induction false} FetchLater(a: Env, b: Env, first: nat, domain: string, chain: seq<Query>, n: nat, sender: string)
    requires SameLater(a, b, first) && n >= first
    ensures Fetch(a, domain, chain, n, sender) == Fetch(b, domain, chain, n, sender) && Fetch(a, domain, chain, n, sender).n >= n
    decreases Left(|chain|), 0, 0
  {
    if |chain| < MAX_LOOKUPS {
      var q1, q2 := Query("_spf." + domain, TXT), Query(domain, TXT);
      var c1 := chain + [q1];
      assert a.dns(n, q1) == b.dns(n, q1) && a.dns(n + 1, q2) == b.dns(n + 1, q2);
      FollowLater(a, b, first, Read(a.dns(n, q1)), c1, n + 1, sender);
      if |c1| < MAX_LOOKUPS { FollowLater(a, b, first, Read(a.dns(n + 1, q2)), c1 + [q2], n + 2, sender); }
    }
  }

  lemma {:induction false} FollowLater(a: Env, b: Env, first: nat, policy: Policy, chain: seq<Query>, n: nat, sender: string)
    requires SameLater(a, b, first) && n >= first
    ensures Follow(a, policy, chain, n, sender) == Follow(b, policy, chain, n, sender) && Follow(a, policy, chain, n, sender).n >= n
    decreases Left(|chain|), 2, 0
  {
    match policy
    case Final(_) =>
    case Redirect(domain) => FetchLater(a, b, first, domain, chain, n, sender);
    case Evaluate(mechs) => ListLater(a, b, first, mechs, chain, n, sender);
  }

  lemma {:induction false} ListLater(a: Env, b: Env, first: nat, mechs: seq<Mechanism>, chain: seq<Query>, n: nat, sender: string)
    requires SameLater(a, b, first) && n >= first
    ensures FirstMatch(a, mechs, chain, n, sender) == FirstMatch(b, mechs, chain, n, sender) && FirstMatch(a, mechs, chain, n, sender).n >= n
    decreases Left(|chain|), 1, |mechs|
  {
    if mechs != [] {
      var mech, rest := mechs[0], mechs[1..];
      var q := AQuery(mech, sender);
      SameMatches(a, b, mech.value, a.dns(n, q), first);
      if mech.kind == "a" {
        assert a.dns(n, q) == b.dns(n, q);
        if |chain| < MAX_LOOKUPS { ListLater(a, b, first, rest, chain + [q], n + 1, sender); }
      } else if mech.kind == "include" {
        if mech.value != [] { IncludeLater(a, b, first, mechs, chain, n, sender); }
      } else {
        ListLater(a, b, first, rest, chain, n, sender);
      }
    }
  }

  lemma {:induction false} IncludeLater(a: Env, b: Env, first: nat, mechs: seq<Mechanism>, chain: seq<Query>, n: nat, sender: string)
    requires SameLater(a, b, first) && n >= first && mechs != [] && mechs[0].kind == "include" && mechs[0].value != []
    ensures FirstMatch(a, mechs, chain, n, sender) == FirstMatch(b, mechs, chain, n, sender) && FirstMatch(a, mechs, chain, n, sender).n >= n
    decreases Left(|chain|), 1, |mechs|, 0
  {
    var v := mechs[0].value;
    FetchLater(a, b, first, v, chain, n, v);
    var inner := Fetch(a, v, chain, n, v);
    ListLater(a, b, first, mechs[1..], chain, inner.n, sender);
    assert FirstMatch(a, mechs, chain, n, sender) == Included(a, mechs, chain, sender, inner);
    assert FirstMatch(b, mechs, chain, n, sender) == Included(b, mechs, chain, sender, inner);
  }

  /** A readable block that does not name the client makes no difference: the check answers as if the record did not hold it. */
  lemma PublishedMiss(env: Env, without: Env, mailFrom: string, helo: string, r: Record)
    requires Publishes(env, mailFrom, helo, r) && r.mechanisms != [] && Readable(r.mechanisms[0])
    requires var chain := FirstChain(env, mailFrom, helo);
      !Hits(env, r.mechanisms[0], chain, |chain|, Domain(mailFrom, helo)) && SameLater(env, without, |chain|) && chain == FirstChain(without, mailFrom, helo)
    requires var rest := r.(mechanisms := r.mechanisms[1..]); Publishes(without, mailFrom, helo, rest) && !Redirects(rest)
    ensures CheckK(env, mailFrom, helo, (x, n) => [Callback(x)]) == CheckK(without, mailFrom, helo, (x, n) => [Callback(x)])
  {
    var d, chain, rest := Domain(mailFrom, helo), FirstChain(env, mailFrom, helo), r.mechanisms[1..];
    CheckEvaluates(env, mailFrom, helo, r);
    CheckEvaluates(without, mailFrom, helo, r.(mechanisms := rest));
    MissGoesOn(env, r.mechanisms, chain, |chain|, d);
    ListLater(env, without, |chain|, rest, chain, |chain|, d);
    CheckCallsBackOnce(env, mailFrom, helo);
    CheckCallsBackOnce(without, mailFrom, helo);
  }

  // ----- answers without a usable record

  predicate IsSpf(record: RData) { record.Text? && "v=spf1" <= record.text }

  function SpfTexts(records: seq<RData>): seq<string> {
    if records == [] then [] else (if IsSpf(records[0]) then [records[0].text] else []) + SpfTexts(records[1..])
  }

  lemma {:induction false} SelectCounts(records: seq<RData>, found: Option<string>)
    ensures var texts := (if found.None? then [] else [found.value]) + SpfTexts(records);
      Select(records, found) == if texts == [] then Nothing else if |texts| == 1 then One(texts[0]) else Many
    decreases |records|
  {
    if records != [] && (IsSpf(records[0]) ==> found.None?) {
      SelectCounts(records[1..], if IsSpf(records[0]) then Some(records[0].text) else found);
    }
  }

  /** Sections 4.4 and 4.5 of RFC 7208: what an answer means that holds no one record to evaluate. */
  lemma AnswersMean(answer: Answer)
    ensures answer.status.Timeout? || answer.status.ServFail? ==> Read(answer) == Final(TempError)
    ensures answer.status.NXDomain? ==> Read(answer) == Final(NoRecord)
    ensures answer.status.OK? && SpfTexts(answer.records) == [] ==> Read(answer) == Final(NoRecord)
    ensures answer.status.OK? && |SpfTexts(answer.records)| > 1 ==> Read(answer) == Final(PermError)
  {
    SelectCounts(answer.records, None);
    assert [] + SpfTexts(answer.records) == SpfTexts(answer.records);
  }

  /** The same of a check: its first answer decides it, unless the name does not exist and the bare domain is asked next. */
  lemma FirstAnswerDecides(env: Env, mailFrom: string, helo: string)
    requires Domain(mailFrom, helo) != []
    ensures var d := Domain(mailFrom, helo); var answer := env.dns(0, Query("_spf." + d, TXT)); var next := env.dns(1, Query(d, TXT));
      var callbacks := Callbacks(CheckK(env, mailFrom, helo, (x, n) => [Callback(x)]));
      (answer.status.Timeout? || answer.status.ServFail? ==> callbacks == [TempError]) &&
      (answer.status.OK? && SpfTexts(answer.records) == [] ==> callbacks == [NoRecord]) &&
      (answer.status.OK? && |SpfTexts(answer.records)| > 1 ==> callbacks == [PermError]) &&
      (answer.status.NXDomain? && next.status.NXDomain? ==> callbacks == [NoRecord]) &&
      (answer.status.NXDomain? && (next.status.Timeout? || next.status.ServFail?) ==> callbacks == [TempError])
  {
    var d := Domain(mailFrom, helo);
    AnswersMean(env.dns(0, Query("_spf." + d, TXT)));
    AnswersMean(env.dns(1, Query(d, TXT)));
    FetchLands(env, d, [], 0, d);
    CheckCallsBackOnce(env, mailFrom, helo);
  }

  /** A check without a sender or greeting to take a domain from is a permanent error. */
  lemma NoDomain(env: Env, mailFrom: string, helo: string)
    requires Domain(mailFrom, helo) == []
    ensures CheckK(env, mailFrom, helo, (x, n) => [Callback(x)]) == [Callback(PermError)]
  {
  }

  /** The domain is what follows the last '@', without a closing bracket; the greeting's for the null sender. */
  lemma DomainBack(local: string, domain: string, helo: string, bracket: bool)
    requires '@' !in domain && (domain != [] ==> domain[|domain| - 1] != '>')
    ensures Domain(local + "@" + domain + (if bracket then ">" else []), helo) == domain
    ensures Domain([], helo) == helo && Domain("<>", helo) == helo
  {
    var tail := domain + if bracket then ">" else [];
    var s := local + "@" + tail;
    assert s == local + "@" + domain + (if bracket then ">" else []);
    assert s[|local|] == '@';
    LastAtIs(local, tail);
    assert s[|local| + 1..] == tail;
    if bracket { assert tail[..|tail| - 1] == domain; }
  }

  lemma {:induction false} LastAtIs(local: string, tail: string)
    requires '@' !in tail
    ensures LastAt(local + "@" + tail) == |local| + 1
    decreases |tail|
  {
    var s := local + "@" + tail;
    if tail != [] {
      assert s[|s| - 1] == tail[|tail| - 1] && tail[|tail| - 1] in tail;
      assert s[..|s| - 1] == local + "@" + tail[..|tail| - 1];
      LastAtIs(local, tail[..|tail| - 1]);
    }
  }
}
