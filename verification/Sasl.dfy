/** The AUTH exchange (src/auth/sasl/sasl.cpp) for PLAIN and LOGIN. */
module Sasl {
  import opened Common
  import opened SmtpText

  const MAX_AUTH_ATTEMPTS := 3
  const STAR: Bytes := [0x2A]
  const PLAIN: Bytes := [0x50, 0x4C, 0x41, 0x49, 0x4E]
  const LOGIN: Bytes := [0x4C, 0x4F, 0x47, 0x49, 0x4E]

  datatype Phase = Idle | WaitingPlainResponse | WaitingLoginUsername | WaitingLoginPassword

  /** What an observer of the credential store sees, with whether TLS was active. */
  datatype Entry = Checked(user: Bytes, ok: bool, tls: bool) | Cancelled

  datatype Auth = Auth(phase: Phase, authenticated: bool, username: Bytes, pendingUser: Bytes, attempts: nat, log: seq<Entry>)
  {
    predicate InProgress() { phase != Idle }
  }

  const UNAUTHENTICATED := Auth(Idle, false, [], [], 0, [])

  /** base64_decode and CredentialStore::verify; the store's answer may change from one check to the next. */
  datatype Store = Store(decode: Bytes -> Bytes, verify: (Bytes, Bytes, nat) -> bool)

  function Failure(a: Auth): (Auth, int) {
    (a.(authenticated := false, username := [], pendingUser := [], phase := Idle), 535)
  }

  /** The credential check and what follows from it. */
  function Verify(st: Store, a: Auth, user: Bytes, pass: Bytes, tls: bool): (Auth, int) {
    var ok := st.verify(user, pass, |a.log|);
    var a' := a.(log := a.log + [Checked(user, ok, tls)]);
    if ok then (a'.(authenticated := true, username := user), 235) else Failure(a')
  }

  /** The user name and password of a PLAIN response: between and after its first two NULs. */
  function Credentials(decoded: Bytes): Option<(Bytes, Bytes)> {
    var i := IndexOf(decoded, 0);
    if i >= |decoded| then None
    else
      var rest := decoded[i + 1..];
      var j := IndexOf(rest, 0);
      if j >= |rest| || j == 0 || j + 1 == |rest| then None else Some((rest[..j], rest[j + 1..]))
  }

  /** A PLAIN response with its optional authorisation identity. */
  function PlainText(authzid: Bytes, user: Bytes, pass: Bytes): Bytes { authzid + [0] + (user + [0] + pass) }

  /** The user is what stands between the first two NULs and the password all that follows, and neither may be empty. */
  lemma CredentialsBack(authzid: Bytes, user: Bytes, pass: Bytes)
    requires 0 !in authzid && 0 !in user
    ensures Credentials(PlainText(authzid, user, pass)) == if user == [] || pass == [] then None else Some((user, pass))
  {
    CutAtNul(authzid, user + [0] + pass);
    CutAtNul(user, pass);
  }

  lemma CutAtNul(a: Bytes, b: Bytes)
    requires 0 !in a
    ensures var s := a + [0] + b; IndexOf(s, 0) == |a| && s[..|a|] == a && s[|a| + 1..] == b
  {
    var s := a + [0] + b;
    assert s[..|a|] == a && s[|a| + 1..] == b;
    FirstIndex(s, 0, |a|);
  }

  function AfterPlain(st: Store, a: Auth, b64: Bytes, tls: bool): (Auth, int) {
    var c := Credentials(st.decode(b64));
    var idle := a.(phase := Idle);
    if c.None? then Failure(idle) else Verify(st, idle, c.value.0, c.value.1, tls)
  }

  function AfterLogin(st: Store, a: Auth, b64: Bytes, tls: bool): (Auth, int) {
    var text := st.decode(b64);
    if a.phase == WaitingLoginUsername then
      if text == [] then Failure(a) else (a.(pendingUser := text, phase := WaitingLoginPassword), 334)
    else if a.phase == WaitingLoginPassword then
      var idle := a.(phase := Idle);
      if text == [] || a.pendingUser == [] then Failure(idle) else Verify(st, idle.(pendingUser := []), a.pendingUser, text, tls)
    else (a, 503)
  }

  /** begin. The loop that should make the mechanism upper case changes copies only, so the name must be upper case already. */
  function AfterBegin(st: Store, a: Auth, mechanism: Bytes, response: Bytes, tls: bool): (Auth, int) {
    var a' := a.(attempts := a.attempts + 1);
    if a.authenticated then (a, 503)
    else if a'.attempts > MAX_AUTH_ATTEMPTS then (a', 534)
    else if mechanism == PLAIN then
      if response == [] then (a'.(phase := WaitingPlainResponse), 334) else AfterPlain(st, a', response, tls)
    else if mechanism == LOGIN then (a'.(phase := WaitingLoginUsername), 334)
    else (a', 504)
  }

  /** The answer does not depend on the case of the mechanism's name exactly when the name is upper case already or names neither mechanism. */
  lemma CaseMatters(st: Store, a: Auth, mechanism: Bytes, response: Bytes, tls: bool)
    requires !a.authenticated && a.attempts < MAX_AUTH_ATTEMPTS
    ensures AfterBegin(st, a, mechanism, response, tls) == AfterBegin(st, a, Upper(mechanism), response, tls) <==>
      mechanism == Upper(mechanism) || (Upper(mechanism) != PLAIN && Upper(mechanism) != LOGIN)
  {
    NamesAreUpper();
  }

  lemma NamesAreUpper()
    ensures Upper(PLAIN) == PLAIN && Upper(LOGIN) == LOGIN
  {
    UpperIsFixed(PLAIN);
    UpperIsFixed(LOGIN);
  }

  /** "AUTH plain" is refused with 504, although the name differs from PLAIN in its case only. */
  lemma LowerCaseIsRefused(st: Store, a: Auth, response: Bytes, tls: bool)
    requires !a.authenticated && a.attempts < MAX_AUTH_ATTEMPTS
    ensures var plain := [0x70, 0x6C, 0x61, 0x69, 0x6E];
      Upper(plain) == PLAIN && AfterBegin(st, a, plain, response, tls) == (a.(attempts := a.attempts + 1), 504)
  {
    var plain: Bytes := [0x70, 0x6C, 0x61, 0x69, 0x6E];
    assert plain[1..] == [0x6C, 0x61, 0x69, 0x6E] && plain[1..][1..] == [0x61, 0x69, 0x6E];
    assert plain[1..][1..][1..] == [0x69, 0x6E] && plain[1..][1..][1..][1..] == [0x6E];
    assert Upper([0x6E]) == [0x4E] && Upper([0x69, 0x6E]) == [0x49] + Upper([0x6E]);
    assert Upper([0x61, 0x69, 0x6E]) == [0x41] + Upper([0x69, 0x6E]);
    assert Upper([0x6C, 0x61, 0x69, 0x6E]) == [0x4C] + Upper([0x61, 0x69, 0x6E]);
    assert Upper(plain) == [0x50] + Upper([0x6C, 0x61, 0x69, 0x6E]);
  }

  function AfterReset(a: Auth): Auth { UNAUTHENTICATED.(log := a.log) }

  /** respond; "*" cancels, which resets the count of attempts too. */
  function AfterRespond(st: Store, a: Auth, response: Bytes, tls: bool): (Auth, int) {
    if response == STAR then (AfterReset(a).(log := a.log + [Cancelled]), 501)
    else
      match a.phase
      case Idle => (a, 503)
      case WaitingPlainResponse => AfterPlain(st, a, response, tls)
      case _ => AfterLogin(st, a, response, tls)
  }

  // ----- what the log shows

  /** Checks since the last cancellation. */
  function Since(log: seq<Entry>): nat {
    if log == [] then 0
    else if log[|log| - 1].Cancelled? then 0
    else 1 + Since(log[..|log| - 1])
  }

  /** Never more than three checks without a cancellation between them. */
  ghost predicate Paced(log: seq<Entry>) { forall n: nat | n <= |log| :: Since(log[..n]) <= MAX_AUTH_ATTEMPTS }

  predicate Accepted(log: seq<Entry>, user: Bytes) { Checked(user, true, true) in log }

  predicate Encrypted(log: seq<Entry>) { forall e | e in log :: e.Checked? ==> e.tls }

  /** An authenticated session has a user whom the store accepted under TLS, and every exchange has its attempt counted. */
  ghost predicate Sound(a: Auth) {
    (a.authenticated ==> a.phase == Idle && Accepted(a.log, a.username)) &&
    Encrypted(a.log) && Paced(a.log) &&
    (a.InProgress() ==> a.attempts <= MAX_AUTH_ATTEMPTS) &&
    Since(a.log) + (if a.InProgress() then 1 else 0) <= a.attempts
  }

  lemma LogGrows(log: seq<Entry>, e: Entry)
    requires Paced(log) && Since(log + [e]) <= MAX_AUTH_ATTEMPTS
    ensures Paced(log + [e])
  {
    var log' := log + [e];
    forall n: nat | n <= |log'| ensures Since(log'[..n]) <= MAX_AUTH_ATTEMPTS {
      if n <= |log| { assert log'[..n] == log[..n]; } else { assert log'[..n] == log'; }
    }
  }

  lemma SinceStep(log: seq<Entry>, e: Entry)
    ensures Since(log + [e]) == if e.Cancelled? then 0 else 1 + Since(log)
  {
    assert (log + [e])[..|log|] == log;
  }

  /** A check is made only when one more fits, and only an accepted one authenticates. */
  lemma VerifyKeeps(st: Store, a: Auth, user: Bytes, pass: Bytes)
    requires Sound(a) && a.phase == Idle && !a.authenticated && Since(a.log) < a.attempts <= MAX_AUTH_ATTEMPTS
    ensures var (a', code) := Verify(st, a, user, pass, true); Sound(a') && (code == 235 <==> a'.authenticated) && a'.phase == Idle && code != 334
  {
    var e := Checked(user, st.verify(user, pass, |a.log|), true);
    SinceStep(a.log, e);
    LogGrows(a.log, e);
  }

  lemma PlainKeeps(st: Store, a: Auth, b64: Bytes)
    requires Sound(a.(phase := Idle)) && !a.authenticated && Since(a.log) < a.attempts <= MAX_AUTH_ATTEMPTS
    ensures var (a', code) := AfterPlain(st, a, b64, true); Sound(a') && (code == 235 <==> a'.authenticated) && a'.phase == Idle && code != 334
  {
    var c := Credentials(st.decode(b64));
    if c.Some? { VerifyKeeps(st, a.(phase := Idle), c.value.0, c.value.1); }
  }

  lemma BeginKeeps(st: Store, a: Auth, mechanism: Bytes, response: Bytes)
    requires Sound(a) && !a.InProgress()
    ensures var (a', code) := AfterBegin(st, a, mechanism, response, true);
      Sound(a') && (code == 235 ==> a'.authenticated) && (a'.InProgress() ==> !a'.authenticated) && (a.authenticated ==> a' == a) && a.log <= a'.log
  {
    var a' := a.(attempts := a.attempts + 1);
    assert Sound(a');
    if !a.authenticated && a'.attempts <= MAX_AUTH_ATTEMPTS && mechanism == PLAIN && response != [] { PlainKeeps(st, a', response); }
  }

  lemma RespondKeeps(st: Store, a: Auth, response: Bytes)
    requires Sound(a) && a.InProgress()
    ensures var (a', code) := AfterRespond(st, a, response, true);
      Sound(a') && (code == 235 <==> a'.authenticated) && (a'.InProgress() ==> !a'.authenticated) && a.log <= a'.log
  {
    if response == STAR {
      SinceStep(a.log, Cancelled);
      LogGrows(a.log, Cancelled);
    } else if a.phase == WaitingPlainResponse {
      PlainKeeps(st, a, response);
    } else {
      var text := st.decode(response);
      if a.phase == WaitingLoginPassword && text != [] && a.pendingUser != [] { VerifyKeeps(st, a.(phase := Idle, pendingUser := []), a.pendingUser, text); }
    }
  }

  // ----- what an exchange decides

  /** A session in which another exchange may begin. */
  predicate MayBegin(a: Auth) { a.phase == Idle && !a.authenticated && a.attempts < 3 }

  /** The session after the store was asked about a user and a password: accepted under that user's name with 235, or failed with 535. */
  ghost predicate Answered(st: Store, a: Auth, user: Bytes, pass: Bytes, tls: bool, a': Auth, code: int) {
    var ok := st.verify(user, pass, |a.log|);
    a'.log == a.log + [Checked(user, ok, tls)] && a'.phase == Idle &&
    (if ok then code == 235 && a'.authenticated && a'.username == user else code == 535 && !a'.authenticated && a'.username == [])
  }

  /** AUTH PLAIN with an initial response asks the store about the user and the password that it holds. */
  lemma PlainExchange(st: Store, a: Auth, response: Bytes, authzid: Bytes, user: Bytes, pass: Bytes, tls: bool)
    requires MayBegin(a) && response != [] && st.decode(response) == PlainText(authzid, user, pass)
    requires 0 !in authzid && 0 !in user && user != [] && pass != []
    ensures var (a', code) := AfterBegin(st, a, PLAIN, response, tls); Answered(st, a, user, pass, tls, a', code)
  {
    CredentialsBack(authzid, user, pass);
  }

  /** Without one it asks for it first. */
  lemma PlainChallenge(st: Store, a: Auth, response: Bytes, authzid: Bytes, user: Bytes, pass: Bytes, tls: bool)
    requires MayBegin(a) && response != STAR && st.decode(response) == PlainText(authzid, user, pass)
    requires 0 !in authzid && 0 !in user && user != [] && pass != []
    ensures var (a1, code1) := AfterBegin(st, a, PLAIN, [], tls); var (a2, code2) := AfterRespond(st, a1, response, tls);
      code1 == 334 && Answered(st, a, user, pass, tls, a2, code2)
  {
    CredentialsBack(authzid, user, pass);
  }

  /** AUTH LOGIN asks for the user, then for the password, and then the store about the two in this order. */
  lemma LoginExchange(st: Store, a: Auth, initial: Bytes, first: Bytes, second: Bytes, tls: bool)
    requires MayBegin(a) && first != STAR && second != STAR && st.decode(first) != [] && st.decode(second) != []
    ensures var (a1, code1) := AfterBegin(st, a, LOGIN, initial, tls); var (a2, code2) := AfterRespond(st, a1, first, tls);
      var (a3, code3) := AfterRespond(st, a2, second, tls);
      code1 == 334 && a1.InProgress() && code2 == 334 && a2.InProgress() && Answered(st, a, st.decode(first), st.decode(second), tls, a3, code3)
  {
  }

  /** A response that decodes to nothing, or to no two credentials, fails without a check. */
  lemma EmptyResponsesFail(st: Store, a: Auth, response: Bytes, tls: bool)
    requires a.InProgress() && response != STAR && st.decode(response) == []
    ensures var (a', code) := AfterRespond(st, a, response, tls); code == 535 && a'.phase == Idle && !a'.authenticated && a'.log == a.log
  {
  }

  /** "*" ends an exchange with 501 and gives back all attempts. */
  lemma CancelStartsAnew(st: Store, a: Auth, tls: bool)
    ensures var (a', code) := AfterRespond(st, a, [0x2A], tls); code == 501 && MayBegin(a') && a'.attempts == 0 && a'.log == a.log + [Cancelled]
  {
  }

  /** The fourth attempt is refused. */
  lemma FourthAttemptRefused(st: Store, a: Auth, mechanism: Bytes, response: Bytes, tls: bool)
    requires !a.authenticated && a.attempts >= 3
    ensures var (a', code) := AfterBegin(st, a, mechanism, response, tls); code == 534 && a' == a.(attempts := a.attempts + 1)
  {
  }

  // ----- the class

  class SASLSession {
    var phase: Phase
    var authenticated: bool
    var username: Bytes
    var pendingUser: Bytes
    var attempts: nat
    /** The checks made and cancellations seen, in order. */
    var log: seq<Entry>

    ghost function Abs(): Auth reads this { Auth(phase, authenticated, username, pendingUser, attempts, log) }

    constructor ()
      ensures Abs() == UNAUTHENTICATED
    {
      phase, authenticated, username, pendingUser, attempts, log := Idle, false, [], [], 0, [];
    }

    method Begin(st: Store, mechanism: Bytes, response: Bytes, tls: bool) returns (code: int)
      modifies this
      ensures (Abs(), code) == AfterBegin(st, old(Abs()), mechanism, response, tls)
    {
      if authenticated {
        code := 503;
      } else {
        attempts := attempts + 1;
        if attempts > MAX_AUTH_ATTEMPTS {
          code := 534;
        } else if mechanism == PLAIN {
          if response == [] {
            phase, code := WaitingPlainResponse, 334;
          } else {
            code := ProcessPlain(st, response, tls);
          }
        } else if mechanism == LOGIN {
          phase, code := WaitingLoginUsername, 334;
        } else {
          code := 504;
        }
      }
    }

    method Respond(st: Store, response: Bytes, tls: bool) returns (code: int)
      modifies this
      ensures (Abs(), code) == AfterRespond(st, old(Abs()), response, tls)
    {
      if response == STAR {
        Reset();
        log, code := log + [Cancelled], 501;
      } else {
        match phase {
          case Idle => code := 503;
          case WaitingPlainResponse => code := ProcessPlain(st, response, tls);
          case _ => code := ProcessLogin(st, response, tls);
        }
      }
    }

    method Reset()
      modifies this
      ensures Abs() == AfterReset(old(Abs()))
    {
      phase, authenticated, username, pendingUser, attempts := Idle, false, [], [], 0;
    }

    method ProcessPlain(st: Store, b64: Bytes, tls: bool) returns (code: int)
      modifies this
      ensures (Abs(), code) == AfterPlain(st, old(Abs()), b64, tls)
    {
      phase := Idle;
      var c := Credentials(st.decode(b64));
      if c.None? { code := AuthFailure(); } else { code := CheckCredentials(st, c.value.0, c.value.1, tls); }
    }

    method ProcessLogin(st: Store, b64: Bytes, tls: bool) returns (code: int)
      modifies this
      ensures (Abs(), code) == AfterLogin(st, old(Abs()), b64, tls)
    {
      if phase == WaitingLoginUsername {
        pendingUser := st.decode(b64);
        if pendingUser == [] { code := AuthFailure(); } else { phase, code := WaitingLoginPassword, 334; }
      } else if phase == WaitingLoginPassword {
        phase := Idle;
        var password := st.decode(b64);
        if password == [] || pendingUser == [] {
          code := AuthFailure();
        } else {
          var user := pendingUser;
          pendingUser := [];
          code := CheckCredentials(st, user, password, tls);
        }
      } else {
        code := 503;
      }
    }

    method CheckCredentials(st: Store, user: Bytes, pass: Bytes, tls: bool) returns (code: int)
      modifies this
      ensures (Abs(), code) == Verify(st, old(Abs()), user, pass, tls)
    {
      var ok := st.verify(user, pass, |log|);
      log := log + [Checked(user, ok, tls)];
      if ok {
        username, authenticated, code := user, true, 235;
      } else {
        code := AuthFailure();
      }
    }

    method AuthFailure() returns (code: int)
      modifies this
      ensures (Abs(), code) == Failure(old(Abs()))
    {
      authenticated, username, pendingUser, phase, code := false, [], [], Idle, 535;
    }
  }
}
