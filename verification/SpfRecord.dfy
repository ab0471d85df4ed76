/** SPF records as src/auth/spf/checker.cpp reads them: parse_record, parse_mechanism, and the CIDR text of a mechanism. */
module SpfRecord {
  import opened Common

  datatype Mechanism = Mechanism(qualifier: char, kind: string, value: string)
  datatype Record = Record(mechanisms: seq<Mechanism>, redirect: string, exp: string)

  predicate IsSpace(c: char) { c == ' ' || '\t' <= c <= '\r' }

  function Lower(s: string): string {
    seq(|s|, i requires 0 <= i < |s| => if 'A' <= s[i] <= 'Z' then s[i] - 'A' + 'a' else s[i])
  }

  /** The index of the first c at or after `from`, or |s|. */
  function Find(s: string, c: char, from: nat): (i: nat)
    requires from <= |s|
    ensures from <= i <= |s|
    decreases |s| - from
  {
    if from == |s| || s[from] == c then from else Find(s, c, from + 1)
  }

  /** The whitespace-separated tokens that `stream >> token` yields, with `word` read so far. */
  function Tokens(s: string, word: string): seq<string>
    decreases |s|
  {
    var done := if word == [] then [] else [word];
    if s == [] then done
    else if IsSpace(s[0]) then done + Tokens(s[1..], [])
    else Tokens(s[1..], word + [s[0]])
  }

  function ParseMechanism(token: string): Mechanism {
    var signed := token != [] && token[0] in "+-~?";
    var start := if signed then 1 else 0;
    var colon := Find(token, ':', start);
    Mechanism(if signed then token[0] else '+',
              Lower(token[start..colon]),
              if colon == |token| then [] else token[colon + 1..])
  }

  function AddToken(r: Record, token: string): Record {
    if "redirect=" <= Lower(token) then r.(redirect := token[9..])
    else if "exp=" <= Lower(token) then r.(exp := token[4..])
    else r.(mechanisms := r.mechanisms + [ParseMechanism(token)])
  }

  function AddTokens(r: Record, tokens: seq<string>): Record
    decreases |tokens|
  {
    if tokens == [] then r else AddTokens(AddToken(r, tokens[0]), tokens[1..])
  }

  const EMPTY_RECORD := Record([], [], [])

  function Parse(txt: string): Option<Record> {
    var tokens := Tokens(txt, []);
    if tokens == [] || tokens[0] != "v=spf1" then None
    else Some(AddTokens(EMPTY_RECORD, tokens[1..]))
  }

  /** The loop of parse_record over the tokens after the version. */
  method ParseRecord(txt: string) returns (out: Option<Record>)
    ensures out == Parse(txt)
  {
    var tokens := Tokens(txt, []);
    if tokens == [] || tokens[0] != "v=spf1" { return None; }
    var record := EMPTY_RECORD;
    var i := 1;
    while i < |tokens|
      invariant 1 <= i <= |tokens|
      invariant AddTokens(record, tokens[i..]) == AddTokens(EMPTY_RECORD, tokens[1..])
    {
      assert tokens[i..][1..] == tokens[i + 1..];
      record := AddToken(record, tokens[i]);
      i := i + 1;
    }
    out := Some(record);
  }

  // ----- what a record's text says

  predicate Word(s: string) { forall c | c in s :: !IsSpace(c) }

  predicate MechanismOk(m: Mechanism) {
    m.qualifier in "+-~?" && Word(m.kind) && Word(m.value) && ':' !in m.kind && Lower(m.kind) == m.kind
  }

  function Show(m: Mechanism): string { [m.qualifier] + m.kind + if m.value == [] then [] else ":" + m.value }

  function ShowAll(ms: seq<Mechanism>): seq<string> { if ms == [] then [] else [Show(ms[0])] + ShowAll(ms[1..]) }

  function Spaced(words: seq<string>): string { if words == [] then [] else " " + words[0] + Spaced(words[1..]) }

  /** The text of a record: its mechanisms, and the modifiers that it has. */
  function RecordText(r: Record): string {
    "v=spf1" + Spaced(ShowAll(r.mechanisms) + Modifier("redirect=", r.redirect) + Modifier("exp=", r.exp))
  }

  function Modifier(name: string, value: string): seq<string> { if value == [] then [] else [name + value] }

  lemma {:induction false} FindAt(s: string, c: char, from: nat, k: nat)
    requires from <= k <= |s| && c !in s[from..k] && (k < |s| ==> s[k] == c)
    ensures Find(s, c, from) == k
    decreases k - from
  {
    if from < k {
      assert s[from] == s[from..k][0] && s[from + 1..k] == s[from..k][1..];
      FindAt(s, c, from + 1, k);
    }
  }

  lemma MechanismBack(m: Mechanism)
    requires MechanismOk(m)
    ensures ParseMechanism(Show(m)) == m
  {
    var token, colon := Show(m), 1 + |m.kind|;
    assert token[1..colon] == m.kind;
    FindAt(token, ':', 1, colon);
    if m.value != [] { assert token[colon + 1..] == m.value; }
  }

  lemma {:induction false} WordsRead(w: string, rest: string, word: string)
    requires Word(w)
    ensures Tokens(w + rest, word) == Tokens(rest, word + w)
    decreases |w|
  {
    if w == [] {
      assert w + rest == rest && word + w == word;
    } else {
      assert (w + rest)[0] == w[0] && w[0] in w && (w + rest)[1..] == w[1..] + rest;
      WordsRead(w[1..], rest, word + [w[0]]);
      assert word + [w[0]] + w[1..] == word + w;
    }
  }

  lemma {:induction false} TokensBack(word: string, words: seq<string>)
    requires word != [] && forall i :: 0 <= i < |words| ==> words[i] != [] && Word(words[i])
    ensures Tokens(Spaced(words), word) == [word] + words
    decreases |words|
  {
    if words != [] {
      var w, rest := words[0], words[1..];
      var s := " " + w + Spaced(rest);
      assert s[1..] == w + Spaced(rest);
      WordsRead(w, Spaced(rest), []);
      assert [] + w == w;
      TokensBack(w, rest);
      assert words == [w] + rest;
    }
  }

  lemma ShowIsWord(m: Mechanism)
    requires MechanismOk(m)
    ensures Show(m) != [] && Word(Show(m)) && !("redirect=" <= Lower(Show(m))) && !("exp=" <= Lower(Show(m)))
  {
    assert Lower(Show(m))[0] == m.qualifier;
  }

  lemma AddShown(r: Record, m: Mechanism)
    requires MechanismOk(m)
    ensures AddToken(r, Show(m)) == r.(mechanisms := r.mechanisms + [m])
  {
    ShowIsWord(m);
    MechanismBack(m);
  }

  lemma {:induction false} MechanismsBack(r: Record, ms: seq<Mechanism>, rest: seq<string>)
    requires forall i :: 0 <= i < |ms| ==> MechanismOk(ms[i])
    ensures AddTokens(r, ShowAll(ms) + rest) == AddTokens(r.(mechanisms := r.mechanisms + ms), rest)
    decreases |ms|
  {
    if ms == [] {
      assert ShowAll(ms) + rest == rest && r.mechanisms + ms == r.mechanisms;
    } else {
      var m, more := ms[0], ms[1..];
      Assoc([Show(m)], ShowAll(more), rest);
      AddMechanism(r, m, ShowAll(more) + rest);
      MechanismsBack(r.(mechanisms := r.mechanisms + [m]), more, rest);
      Assoc(r.mechanisms, [m], more);
      assert ms == [m] + more;
    }
  }

  lemma AddMechanism(r: Record, m: Mechanism, rest: seq<string>)
    requires MechanismOk(m)
    ensures AddTokens(r, [Show(m)] + rest) == AddTokens(r.(mechanisms := r.mechanisms + [m]), rest)
  {
    AddShown(r, m);
    assert ([Show(m)] + rest)[1..] == rest;
  }

  predicate RecordOk(r: Record) {
    (forall i :: 0 <= i < |r.mechanisms| ==> MechanismOk(r.mechanisms[i])) && Word(r.redirect) && Word(r.exp)
  }

  lemma LowerName(name: string, value: string)
    requires Lower(name) == name
    ensures name <= Lower(name + value) && (name + value)[|name|..] == value
  {
    assert Lower(name + value)[..|name|] == name by {
      assert forall i :: 0 <= i < |name| ==> Lower(name + value)[i] == Lower(name)[i];
    }
  }

  lemma ModifiersBack(r: Record, redirect: string, exp: string)
    requires r.redirect == [] && r.exp == []
    ensures AddTokens(r, Modifier("redirect=", redirect) + Modifier("exp=", exp)) == r.(redirect := redirect, exp := exp)
  {
    var r1 := r.(redirect := redirect);
    ExpBack(r1, exp);
    if redirect == [] {
      assert [] + Modifier("exp=", exp) == Modifier("exp=", exp);
    } else {
      LowerName("redirect=", redirect);
      var all := ["redirect=" + redirect] + Modifier("exp=", exp);
      assert all[1..] == Modifier("exp=", exp);
      assert AddToken(r, all[0]) == r1;
    }
  }

  lemma ExpBack(r: Record, exp: string)
    requires r.exp == []
    ensures AddTokens(r, Modifier("exp=", exp)) == r.(exp := exp)
  {
    if exp != [] {
      LowerName("exp=", exp);
      assert Lower("exp=" + exp)[0] == 'e' && "redirect="[0] == 'r';
      assert AddTokens(r.(exp := exp), []) == r.(exp := exp);
      assert ["exp=" + exp][1..] == [];
    }
  }

  lemma {:induction false} ShowsAreWords(ms: seq<Mechanism>)
    requires forall i :: 0 <= i < |ms| ==> MechanismOk(ms[i])
    ensures forall i :: 0 <= i < |ShowAll(ms)| ==> ShowAll(ms)[i] != [] && Word(ShowAll(ms)[i])
    decreases |ms|
  {
    if ms != [] {
      ShowIsWord(ms[0]);
      ShowsAreWords(ms[1..]);
    }
  }

  /** Parsing a record's text gives back its mechanisms, in order, and its modifiers. */
  lemma ParseInvertsText(r: Record)
    requires RecordOk(r)
    ensures Parse(RecordText(r)) == Some(r)
  {
    var mods := Modifier("redirect=", r.redirect) + Modifier("exp=", r.exp);
    var words := ShowAll(r.mechanisms) + mods;
    assert ShowAll(r.mechanisms) + Modifier("redirect=", r.redirect) + Modifier("exp=", r.exp) == words;
    ShowsAreWords(r.mechanisms);
    TextTokens(words);
    WordsAdded(r, mods);
  }

  lemma TextTokens(words: seq<string>)
    requires forall i :: 0 <= i < |words| ==> words[i] != [] && Word(words[i])
    ensures Tokens("v=spf1" + Spaced(words), []) == ["v=spf1"] + words && (["v=spf1"] + words)[1..] == words
  {
    WordsRead("v=spf1", Spaced(words), []);
    assert [] + "v=spf1" == "v=spf1";
    TokensBack("v=spf1", words);
  }

  lemma WordsAdded(r: Record, mods: seq<string>)
    requires RecordOk(r) && mods == Modifier("redirect=", r.redirect) + Modifier("exp=", r.exp)
    ensures AddTokens(EMPTY_RECORD, ShowAll(r.mechanisms) + mods) == r
  {
    MechanismsBack(EMPTY_RECORD, r.mechanisms, mods);
    assert [] + r.mechanisms == r.mechanisms;
    ModifiersBack(EMPTY_RECORD.(mechanisms := r.mechanisms), r.redirect, r.exp);
  }

  // ----- prefix lengths

  predicate IsDigit(c: char) { '0' <= c <= '9' }

  function SkipSpaces(s: string): string {
    if s != [] && IsSpace(s[0]) then SkipSpaces(s[1..]) else s
  }

  /** The number spelled by the leading digits of s, after `value` and with `any` digit seen. */
  function Digits(s: string, value: nat, any: bool): Option<nat> {
    if s != [] && IsDigit(s[0]) then Digits(s[1..], value * 10 + (s[0] - '0') as nat, true)
    else if any then Some(value)
    else None
  }

  /** std::stoi: None where it throws, for want of digits or because the value does not fit an int. */
  function Stoi(text: string): Option<int> {
    var s := SkipSpaces(text);
    var negative := s != [] && s[0] == '-';
    var digits := Digits(if s != [] && s[0] in "+-" then s[1..] else s, 0, false);
    if digits.None? then None
    else
      var d: int := digits.value;
      var v := if negative then -d else d;
      if -0x8000_0000 <= v < 0x8000_0000 then Some(v) else None
  }

  /** The uint8_t prefix length in a CIDR text; None where stoi throws. */
  function PrefixLength(cidr: string, default: nat): Option<nat> {
    var slash := Find(cidr, '/', 0);
    if slash == |cidr| then Some(default)
    else
      var n := Stoi(cidr[slash + 1..]);
      if n.None? then None else Some(n.value % 256)
  }

  function BaseText(cidr: string): string { cidr[..Find(cidr, '/', 0)] }

  /** A number in decimal. */
  function Decimal(n: nat): string { if n < 10 then [(n as char) + '0'] else Decimal(n / 10) + [(n % 10) as char + '0'] }

  predicate AllDigits(s: string) { forall c | c in s :: IsDigit(c) }

  function ValueOf(s: string, v: nat): nat
    requires AllDigits(s)
  {
    if s == [] then v else assert s[0] in s; ValueOf(s[1..], v * 10 + (s[0] - '0') as nat)
  }

  lemma {:induction false} DigitsRead(s: string, v: nat, any: bool)
    requires AllDigits(s) && (s != [] || any)
    ensures Digits(s, v, any) == Some(ValueOf(s, v))
    decreases |s|
  {
    if s != [] {
      assert s[0] in s;
      DigitsRead(s[1..], v * 10 + (s[0] - '0') as nat, true);
    }
  }

  lemma {:induction false} ValueGrows(s: string, d: char, v: nat)
    requires AllDigits(s) && IsDigit(d)
    ensures AllDigits(s + [d]) && ValueOf(s + [d], v) == ValueOf(s, v) * 10 + (d - '0') as nat
    decreases |s|
  {
    if s == [] {
      assert s + [d] == [d];
    } else {
      assert s[0] in s && (s + [d])[1..] == s[1..] + [d];
      ValueGrows(s[1..], d, v * 10 + (s[0] - '0') as nat);
    }
  }

  lemma {:induction false} DecimalBack(n: nat)
    ensures AllDigits(Decimal(n)) && Decimal(n) != [] && ValueOf(Decimal(n), 0) == n
  {
    if n >= 10 {
      DecimalBack(n / 10);
      ValueGrows(Decimal(n / 10), (n % 10) as char + '0', 0);
    }
  }

  lemma StoiBack(n: nat)
    requires n < 0x8000_0000
    ensures Stoi(Decimal(n)) == Some(n)
  {
    var s := Decimal(n);
    DecimalBack(n);
    assert s[0] in s && IsDigit(s[0]);
    DigitsRead(s, 0, false);
  }

  /** A block's base and prefix length are what stands before and behind its slash; without one the whole address is meant. */
  lemma BlockBack(base: string, n: nat, default: nat)
    requires '/' !in base && n < 256
    ensures BaseText(base + "/" + Decimal(n)) == base && PrefixLength(base + "/" + Decimal(n), default) == Some(n)
    ensures BaseText(base) == base && PrefixLength(base, default) == Some(default)
  {
    StoiBack(n);
    SlashAt(base, Decimal(n), n, default);
    assert base[0..|base|] == base && base[..|base|] == base;
    FindAt(base, '/', 0, |base|);
  }

  lemma SlashAt(base: string, length: string, n: nat, default: nat)
    requires '/' !in base && n < 256 && Stoi(length) == Some(n)
    ensures BaseText(base + "/" + length) == base && PrefixLength(base + "/" + length, default) == Some(n)
  {
    var s := base + "/" + length;
    assert s[0..|base|] == base && s[|base|] == '/' && s[|base| + 1..] == length && s[..|base|] == base;
    FindAt(s, '/', 0, |base|);
  }
}
