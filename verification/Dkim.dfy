/** Body canonicalisation (src/auth/dkim/verifier.cpp, copied in src/auth/dkim/signer.cpp), after sections 3.4.3 and 3.4.4 of RFC 6376. */
module Dkim {
  import opened Common
  import opened Getline

  const SP: Byte := 0x20
  const TAB: Byte := 0x09
  const CRLF: Bytes := [CR, LF]

  predicate Wsp(b: Byte) { b == SP || b == TAB }

  predicate EndsInCrlf(s: Bytes) { |s| >= 2 && s[|s| - 2..] == CRLF }

  function Crlfs(k: nat): Bytes { if k == 0 then [] else CRLF + Crlfs(k - 1) }

  // ----- relaxed: white space

  /** White space reduced to one space before the next other byte, and dropped at the end. */
  function SqueezeFrom(s: Bytes, inWs: bool): Bytes {
    if s == [] then []
    else if Wsp(s[0]) then SqueezeFrom(s[1..], true)
    else (if inWs then [SP] else []) + [s[0]] + SqueezeFrom(s[1..], false)
  }

  function Squeeze(s: Bytes): Bytes { SqueezeFrom(s, false) }

  method ReduceWsp(line: Bytes) returns (canonical: Bytes)
    ensures canonical == Squeeze(line)
  {
    canonical := [];
    var inWs, i := false, 0;
    assert line[0..] == line;
    while i < |line|
      invariant 0 <= i <= |line|
      invariant canonical + SqueezeFrom(line[i..], inWs) == Squeeze(line)
    {
      SqueezeStep(canonical, line, i, inWs);
      if Wsp(line[i]) {
        inWs := true;
      } else {
        if inWs {
          canonical := canonical + [SP];
          inWs := false;
        }
        canonical := canonical + [line[i]];
      }
      i := i + 1;
    }
  }

  lemma SqueezeStep(done: Bytes, s: Bytes, i: nat, inWs: bool)
    requires i < |s|
    ensures done + SqueezeFrom(s[i..], inWs) ==
      if Wsp(s[i]) then done + SqueezeFrom(s[i + 1..], true)
      else (if inWs then done + [SP] else done) + [s[i]] + SqueezeFrom(s[i + 1..], false)
  {
    assert s[i..][0] == s[i] && s[i..][1..] == s[i + 1..];
  }

  /** No tab, no two spaces in a row and no space at the end. */
  predicate Tight(s: Bytes) {
    s == [] || (s[0] != TAB && (s[0] == SP ==> |s| >= 2 && s[1] != SP) && Tight(s[1..]))
  }

  function Solid(s: Bytes): Bytes { if s == [] then [] else (if Wsp(s[0]) then [] else [s[0]]) + Solid(s[1..]) }

  /** A byte other than white space, with what comes before and after it. */
  lemma SqueezeCons(s: Bytes, inWs: bool)
    requires s != [] && !Wsp(s[0])
    ensures var tail := [s[0]] + SqueezeFrom(s[1..], false); SqueezeFrom(s, inWs) == if inWs then [SP] + tail else tail
  {
  }

  lemma TightCons(b: Byte, t: Bytes)
    requires Tight(t) && b != TAB && (b == SP ==> t != [] && t[0] != SP)
    ensures Tight([b] + t)
  {
    assert ([b] + t)[1..] == t;
  }

  lemma {:induction false} SqueezeIsTight(s: Bytes, inWs: bool)
    ensures Tight(SqueezeFrom(s, inWs))
    decreases |s|
  {
    if s != [] {
      SqueezeIsTight(s[1..], Wsp(s[0]));
      if !Wsp(s[0]) {
        var rest := SqueezeFrom(s[1..], false);
        SqueezeCons(s, inWs);
        TightCons(s[0], rest);
        if inWs { TightCons(SP, [s[0]] + rest); }
      }
    }
  }

  lemma SolidCons(b: Byte, t: Bytes)
    ensures Solid([b] + t) == (if Wsp(b) then [] else [b]) + Solid(t)
  {
    assert ([b] + t)[1..] == t;
  }

  /** Only white space changes. */
  lemma {:induction false} SqueezeKeepsSolid(s: Bytes, inWs: bool)
    ensures Solid(SqueezeFrom(s, inWs)) == Solid(s)
    decreases |s|
  {
    if s != [] {
      SqueezeKeepsSolid(s[1..], Wsp(s[0]));
      if !Wsp(s[0]) {
        var rest := SqueezeFrom(s[1..], false);
        SqueezeCons(s, inWs);
        SolidCons(s[0], rest);
        SolidCons(SP, [s[0]] + rest);
      }
    }
  }

  lemma {:induction false} TightIsFixed(s: Bytes)
    requires Tight(s)
    ensures Squeeze(s) == s
    decreases |s|
  {
    if s != [] {
      if s[0] == SP {
        var rest := s[2..];
        assert s[1..][1..] == rest && s[1..][0] == s[1] && s[1..] != [];
        TightIsFixed(rest);
        assert SqueezeFrom(s[1..], true) == [SP] + [s[1]] + SqueezeFrom(rest, false);
        assert s == [SP] + [s[1]] + rest;
      } else {
        TightIsFixed(s[1..]);
        assert s == [s[0]] + s[1..];
      }
    }
  }

  /** White space at the end is dropped, and another byte at the end makes the result longer. */
  lemma {:induction false} SqueezeLast(s: Bytes, b: Byte, inWs: bool)
    ensures Wsp(b) ==> SqueezeFrom(s + [b], inWs) == SqueezeFrom(s, inWs)
    ensures !Wsp(b) ==> |SqueezeFrom(s + [b], inWs)| > |SqueezeFrom(s, inWs)|
    decreases |s|
  {
    if s == [] {
      assert s + [b] == [b];
    } else {
      assert (s + [b])[1..] == s[1..] + [b];
      SqueezeLast(s[1..], b, Wsp(s[0]));
    }
  }

  lemma {:induction false} SqueezeAddsNoLF(s: Bytes, inWs: bool)
    requires LF !in s
    ensures LF !in SqueezeFrom(s, inWs)
    decreases |s|
  {
    if s != [] { SqueezeAddsNoLF(s[1..], Wsp(s[0])); }
  }

  // ----- relaxed: lines

  /** A line loses its last byte, whatever it is, before its white space is reduced. */
  function CanonLine(l: Bytes): Bytes { Squeeze(if l == [] then l else l[..|l| - 1]) }

  function CanonLines(ls: seq<Bytes>): (r: seq<Bytes>)
    ensures |r| == |ls|
  {
    if ls == [] then [] else [CanonLine(ls[0])] + CanonLines(ls[1..])
  }

  /** Without the empty lines at the end. */
  function DropEmpty(ls: seq<Bytes>): seq<Bytes> {
    if ls != [] && ls[|ls| - 1] == [] then DropEmpty(ls[..|ls| - 1]) else ls
  }

  function Text(ls: seq<Bytes>): Bytes { if ls == [] then [] else ls[0] + CRLF + Text(ls[1..]) }

  function OrCrlf(s: Bytes): Bytes { if s == [] then CRLF else s }

  function Relaxed(body: Bytes): Bytes { OrCrlf(Text(DropEmpty(CanonLines(Lines(body))))) }

  lemma {:induction false} TextAppend(a: seq<Bytes>, l: Bytes)
    ensures Text(a + [l]) == Text(a) + l + CRLF
    decreases |a|
  {
    if a == [] {
      assert a + [l] == [l];
    } else {
      assert (a + [l])[1..] == a[1..] + [l];
      TextAppend(a[1..], l);
      assert a[0] + CRLF + (Text(a[1..]) + l + CRLF) == a[0] + CRLF + Text(a[1..]) + l + CRLF;
    }
  }

  lemma {:induction false} CanonAppend(a: seq<Bytes>, b: seq<Bytes>)
    ensures CanonLines(a + b) == CanonLines(a) + CanonLines(b)
    decreases |a|
  {
    if a == [] {
      assert a + b == b;
    } else {
      assert (a + b)[1..] == a[1..] + b;
      CanonAppend(a[1..], b);
    }
  }

  /** The relaxed branch of canonicalize_body: empty lines are held back until a line with content comes. */
  method CanonicalizeRelaxed(body: Bytes) returns (result: Bytes)
    ensures result == Relaxed(body)
  {
    result := [];
    var rest, pending: Bytes := body, [];
    ghost var done: seq<Bytes> := [];
    while rest != []
      invariant CanonLines(Lines(body)) == done + CanonLines(Lines(rest))
      invariant HeldBack(done, result, pending)
      decreases |rest|
    {
      var line := rest[..IndexOf(rest, LF)];
      NextCanon(done, rest);
      if line != [] { line := line[..|line| - 1]; }
      var canonical := ReduceWsp(line);
      HoldBack(done, canonical, result, pending);
      if canonical == [] {
        pending := pending + CRLF;
      } else {
        result := result + pending;
        pending := [];
        result := result + (canonical + CRLF);
      }
      done := done + [canonical];
      rest := AfterLF(rest);
    }
    assert done + [] == done;
    if result == [] { result := CRLF; }
  }

  /** The lines so far are in `result`, except for the empty ones at the end, which are in `pending`. */
  predicate HeldBack(done: seq<Bytes>, result: Bytes, pending: Bytes) {
    result == Text(DropEmpty(done)) && result + pending == Text(done)
  }

  lemma HoldBack(done: seq<Bytes>, l: Bytes, result: Bytes, pending: Bytes)
    requires HeldBack(done, result, pending)
    ensures l == [] ==> HeldBack(done + [l], result, pending + CRLF)
    ensures l != [] ==> HeldBack(done + [l], result + pending + (l + CRLF), [])
  {
    assert (done + [l])[..|done|] == done;
    TextAppend(done, l);
    var text := result + pending;
    if l == [] {
      assert text + [] == text;
      Assoc(result, pending, CRLF);
    } else {
      Assoc(text, l, CRLF);
      assert text + (l + CRLF) + [] == text + (l + CRLF);
    }
  }

  lemma NextCanon(done: seq<Bytes>, rest: Bytes)
    requires rest != []
    ensures done + CanonLines(Lines(rest)) == done + [CanonLine(rest[..IndexOf(rest, LF)])] + CanonLines(Lines(AfterLF(rest)))
  {
    var first, more := rest[..IndexOf(rest, LF)], Lines(AfterLF(rest));
    CanonCons(first, more);
    Assoc(done, [CanonLine(first)], CanonLines(more));
  }

  lemma CanonCons(l: Bytes, ls: seq<Bytes>)
    ensures CanonLines([l] + ls) == [CanonLine(l)] + CanonLines(ls)
  {
    assert ([l] + ls)[1..] == ls;
  }

  // ----- relaxed: laws

  /** Lines as canonicalisation leaves them. */
  predicate Canonical(ls: seq<Bytes>) { forall i :: 0 <= i < |ls| ==> LF !in ls[i] && Tight(ls[i]) }

  lemma CanonLineIsCanonical(l: Bytes)
    requires LF !in l
    ensures LF !in CanonLine(l) && Tight(CanonLine(l))
  {
    var s := if l == [] then l else l[..|l| - 1];
    SqueezeAddsNoLF(s, false);
    SqueezeIsTight(s, false);
  }

  lemma {:induction false} CanonLinesAreCanonical(ls: seq<Bytes>)
    requires NoLF(ls)
    ensures Canonical(CanonLines(ls))
    decreases |ls|
  {
    if ls != [] {
      CanonLineIsCanonical(ls[0]);
      CanonLinesAreCanonical(ls[1..]);
    }
  }

  lemma {:induction false} DropEmptyLaws(ls: seq<Bytes>)
    ensures DropEmpty(ls) <= ls && DropEmpty(DropEmpty(ls)) == DropEmpty(ls)
    decreases |ls|
  {
    if ls != [] { DropEmptyLaws(ls[..|ls| - 1]); }
  }

  /** Canonical lines written out and canonicalised again come back as they were. */
  lemma {:induction false} TextIsFixed(ls: seq<Bytes>)
    requires Canonical(ls)
    ensures CanonLines(Lines(Text(ls))) == ls
    decreases |ls|
  {
    if ls != [] {
      var l, rest := ls[0], ls[1..];
      assert l + CRLF + Text(rest) == (l + [CR]) + [LF] + Text(rest);
      FirstLine(l + [CR], Text(rest));
      CanonCons(l + [CR], Lines(Text(rest)));
      assert (l + [CR])[..|l|] == l;
      TightIsFixed(l);
      TextIsFixed(rest);
      assert ls == [l] + rest;
    }
  }

  /** Relaxed canonicalisation is idempotent... */
  lemma RelaxedTwice(body: Bytes)
    ensures Relaxed(Relaxed(body)) == Relaxed(body)
  {
    var all := CanonLines(Lines(body));
    var ls := DropEmpty(all);
    LinesHaveNoLF(body);
    CanonLinesAreCanonical(Lines(body));
    DropEmptyLaws(all);
    assert Canonical(ls);
    TextIsFixed(ls);
    if ls == [] { EmptyLineVanishes(); }
  }

  lemma EmptyLine()
    ensures Lines(CRLF) == [[CR]] && CanonLines([[CR]]) == [[]]
  {
    FirstLine([CR], []);
    assert CRLF == [CR] + [LF] + [];
    OneLine([CR]);
    assert [CR][..0] == [];
  }

  lemma DropOne(ls: seq<Bytes>)
    ensures DropEmpty(ls + [[]]) == DropEmpty(ls)
  {
    assert (ls + [[]])[..|ls|] == ls;
  }

  lemma EmptyLineVanishes()
    ensures Relaxed(CRLF) == CRLF
  {
    EmptyLine();
    var none: seq<Bytes>, empty: Bytes := [], [];
    DropOne(none);
    assert none + [empty] == [empty];
  }

  function SqueezeAll(ls: seq<Bytes>): seq<Bytes> { if ls == [] then [] else [Squeeze(ls[0])] + SqueezeAll(ls[1..]) }

  lemma {:induction false} LinesSqueezed(ls: seq<Bytes>)
    requires NoLF(ls)
    ensures CanonLines(Lines(Text(ls))) == SqueezeAll(ls)
    decreases |ls|
  {
    if ls != [] {
      var l, rest := ls[0], ls[1..];
      assert l + CRLF + Text(rest) == (l + [CR]) + [LF] + Text(rest);
      FirstLine(l + [CR], Text(rest));
      CanonCons(l + [CR], Lines(Text(rest)));
      assert (l + [CR])[..|l|] == l;
      LinesSqueezed(rest);
    }
  }

  /** Of a body of lines ended by CRLF the relaxed form has the same lines with their white space reduced, up to the last that is not empty. */
  lemma RelaxedOfLines(ls: seq<Bytes>)
    requires NoLF(ls)
    ensures Relaxed(Text(ls)) == OrCrlf(Text(DropEmpty(SqueezeAll(ls))))
  {
    LinesSqueezed(ls);
  }

  lemma {:induction false} TextEnds(ls: seq<Bytes>)
    requires ls != []
    ensures EndsInCrlf(Text(ls)) && |Text(ls)| >= |ls[|ls| - 1]| + 2
    decreases |ls|
  {
    var front := ls[..|ls| - 1];
    assert ls == front + [ls[|ls| - 1]];
    TextAppend(front, ls[|ls| - 1]);
  }

  /** ...and ends in CRLF. */
  lemma RelaxedEnds(body: Bytes)
    ensures EndsInCrlf(Relaxed(body))
  {
    var ls := DropEmpty(CanonLines(Lines(body)));
    if ls != [] { TextEnds(ls); }
  }

  /** The body's last byte is no part of its last line's content: it is a line end or white space. */
  predicate Ended(body: Bytes) { body == [] || body[|body| - 1] == LF || Wsp(body[|body| - 1]) }

  lemma ClosedAppends(body: Bytes)
    requires body == [] || body[|body| - 1] == LF
    ensures Relaxed(body + CRLF) == Relaxed(body)
  {
    LinesBehind(body, CRLF);
    EmptyLine();
    CanonAppend(Lines(body), [[CR]]);
    DropOne(CanonLines(Lines(body)));
  }

  lemma {:induction false} TextShrinks(ls: seq<Bytes>)
    ensures |Text(DropEmpty(ls))| <= |Text(ls)|
    decreases |ls|
  {
    if ls != [] && ls[|ls| - 1] == [] {
      var front := ls[..|ls| - 1];
      assert ls == front + [[]];
      TextAppend(front, []);
      TextShrinks(front);
    }
  }

  /** The canonical lines of a body whose last line is open, without and with a line end. */
  lemma OpenCanon(body: Bytes)
    requires Open(body)
    ensures var before, last := CanonLines(LinesBefore(body)), LastLine(body);
      last != [] && last[|last| - 1] == body[|body| - 1] &&
      CanonLines(Lines(body)) == before + [Squeeze(last[..|last| - 1])] && CanonLines(Lines(body + CRLF)) == before + [Squeeze(last)]
  {
    OpenLine(body);
    ClosedLine(body, [CR]);
    assert [CR] + [LF] == CRLF;
    var before, last := LinesBefore(body), LastLine(body);
    assert (last + [CR])[..|last|] == last;
    CanonAppend(before, [last]);
    CanonAppend(before, [last + [CR]]);
    OneLine(last);
    OneLine(last + [CR]);
  }

  lemma OpenAppends(body: Bytes)
    requires Open(body)
    ensures Relaxed(body + CRLF) == Relaxed(body) <==> Wsp(body[|body| - 1])
  {
    OpenCanon(body);
    LastLineDecides(CanonLines(LinesBefore(body)), LastLine(body));
  }

  lemma LastLineDecides(before: seq<Bytes>, last: Bytes)
    requires last != []
    ensures OrCrlf(Text(DropEmpty(before + [Squeeze(last)]))) == OrCrlf(Text(DropEmpty(before + [Squeeze(last[..|last| - 1])]))) <==>
      Wsp(last[|last| - 1])
  {
    var cut, b := last[..|last| - 1], last[|last| - 1];
    assert last == cut + [b];
    SqueezeLast(cut, b, false);
    if !Wsp(b) { LongerLastLine(before, Squeeze(cut), Squeeze(last)); }
  }

  lemma OneLine(l: Bytes)
    ensures CanonLines([l]) == [CanonLine(l)]
  {
    assert [l] + [] == [l];
    CanonCons(l, []);
  }

  lemma LongerLastLine(before: seq<Bytes>, short: Bytes, long: Bytes)
    requires |short| < |long|
    ensures OrCrlf(Text(DropEmpty(before + [short]))) != OrCrlf(Text(DropEmpty(before + [long])))
  {
    TextShrinks(before + [short]);
    TextAppend(before, short);
    TextAppend(before, long);
  }

  lemma {:induction false} MoreLinesAppend(body: Bytes, k: nat)
    requires body == [] || body[|body| - 1] == LF
    ensures Relaxed(body + Crlfs(k)) == Relaxed(body)
    decreases k
  {
    if k == 0 {
      assert body + [] == body;
    } else {
      var longer := body + CRLF;
      assert longer[|longer| - 1] == LF;
      ClosedAppends(body);
      MoreLinesAppend(longer, k - 1);
      Assoc(body, CRLF, Crlfs(k - 1));
    }
  }

  /** Empty lines appended to a body make no difference exactly when the body is empty or ends in LF or white space. */
  lemma RelaxedIgnoresEmptyLines(body: Bytes, k: nat)
    requires k > 0
    ensures Relaxed(body + Crlfs(k)) == Relaxed(body) <==> Ended(body)
  {
    Assoc(body, CRLF, Crlfs(k - 1));
    MoreLinesAppend(body + CRLF, k - 1);
    if Open(body) { OpenAppends(body); } else { ClosedAppends(body); }
  }

  // ----- simple

  /** Every LF gets a CR before it unless it has one. */
  function Normal(s: Bytes): Bytes {
    if s == [] then []
    else
      var n, b := Normal(s[..|s| - 1]), s[|s| - 1];
      if b == LF && (n == [] || n[|n| - 1] != CR) then n + CRLF else n + [b]
  }

  function Strip(s: Bytes): Bytes { if EndsInCrlf(s) then Strip(s[..|s| - 2]) else s }

  function Simple(body: Bytes): Bytes { Strip(Normal(body)) + CRLF }

  /** The simple branch of canonicalize_body. */
  method CanonicalizeSimple(body: Bytes) returns (normalised: Bytes)
    ensures normalised == Simple(body)
  {
    normalised := [];
    var i := 0;
    while i < |body|
      invariant 0 <= i <= |body| && normalised == Normal(body[..i])
    {
      assert body[..i + 1][..i] == body[..i];
      if body[i] == LF {
        if normalised == [] || normalised[|normalised| - 1] != CR { normalised := normalised + [CR]; }
        normalised := normalised + [LF];
      } else {
        normalised := normalised + [body[i]];
      }
      i := i + 1;
    }
    assert body[..|body|] == body;
    while EndsInCrlf(normalised)
      invariant Strip(normalised) == Strip(Normal(body))
      decreases |normalised|
    {
      normalised := normalised[..|normalised| - 2];
    }
    normalised := normalised + CRLF;
  }

  /** canonicalize_body: every method name but "relaxed" means simple. */
  method CanonicalizeBody(body: Bytes, name: string) returns (r: Bytes)
    ensures r == (if name == "relaxed" then Relaxed(body) else Simple(body)) && EndsInCrlf(r)
  {
    RelaxedEnds(body);
    SimpleTwice(body);
    if name == "relaxed" { r := CanonicalizeRelaxed(body); } else { r := CanonicalizeSimple(body); }
  }

  /** Every LF has a CR before it. */
  predicate Paired(s: Bytes) { forall i :: 0 <= i < |s| && s[i] == LF ==> i > 0 && s[i - 1] == CR }

  lemma {:induction false} NormalIsPaired(s: Bytes)
    ensures Paired(Normal(s))
    decreases |s|
  {
    if s != [] { NormalIsPaired(s[..|s| - 1]); }
  }

  lemma {:induction false} PairedIsFixed(s: Bytes)
    requires Paired(s)
    ensures Normal(s) == s
    decreases |s|
  {
    if s != [] {
      var front := s[..|s| - 1];
      assert forall i :: 0 <= i < |front| ==> front[i] == s[i];
      PairedIsFixed(front);
      assert s == front + [s[|s| - 1]];
    }
  }

  function Bare(s: Bytes): Bytes { if s == [] then [] else Bare(s[..|s| - 1]) + if s[|s| - 1] == CR then [] else [s[|s| - 1]] }

  /** Nothing but CRs is added. */
  lemma {:induction false} NormalKeepsText(s: Bytes)
    ensures Bare(Normal(s)) == Bare(s)
    decreases |s|
  {
    if s != [] {
      NormalKeepsText(s[..|s| - 1]);
      var n, b := Normal(s[..|s| - 1]), s[|s| - 1];
      BareAppend(n, b);
      BareAppend(n, CR);
      BareAppend(n + [CR], LF);
      assert n + CRLF == n + [CR] + [LF];
    }
  }

  lemma BareAppend(s: Bytes, b: Byte)
    ensures Bare(s + [b]) == Bare(s) + if b == CR then [] else [b]
  {
    assert (s + [b])[..|s|] == s;
  }

  /** What becomes of byte i: an LF without a CR before it gets exactly one. */
  function Piece(s: Bytes, i: nat): Bytes
    requires i < |s|
  {
    if s[i] == LF && (i == 0 || s[i - 1] != CR) then [CR, LF] else [s[i]]
  }

  function Pieces(s: Bytes, n: nat): Bytes
    requires n <= |s|
  {
    if n == 0 then [] else Pieces(s, n - 1) + Piece(s, n - 1)
  }

  lemma {:induction false} NormalInPieces(s: Bytes, n: nat)
    requires n <= |s|
    ensures Normal(s[..n]) == Pieces(s, n)
    ensures n > 0 ==> Pieces(s, n) != [] && Pieces(s, n)[|Pieces(s, n)| - 1] == s[n - 1]
    decreases n
  {
    if n > 0 {
      NormalInPieces(s, n - 1);
      NormalOfNext(s, n);
    }
  }

  lemma NormalOfNext(s: Bytes, n: nat)
    requires 0 < n <= |s|
    ensures var n0 := Normal(s[..n - 1]); var b := s[n - 1];
      Normal(s[..n]) == if b == LF && (n0 == [] || n0[|n0| - 1] != CR) then n0 + CRLF else n0 + [b]
  {
    assert s[..n][..n - 1] == s[..n - 1];
  }

  /** Normalising changes the bytes one by one: a CR before each LF that has none, and nothing else. */
  lemma NormalIsPiecewise(s: Bytes)
    ensures Normal(s) == Pieces(s, |s|)
  {
    NormalInPieces(s, |s|);
    assert s[..|s|] == s;
  }

  /** Stripping takes away whole CRLFs at the end, as many as there are. */
  lemma {:induction false} StripTakesCrlfs(s: Bytes) returns (k: nat)
    ensures s == Strip(s) + Crlfs(k) && !EndsInCrlf(Strip(s))
    decreases |s|
  {
    if EndsInCrlf(s) {
      var cut := s[..|s| - 2];
      k := StripTakesCrlfs(cut);
      assert s == cut + CRLF;
      CrlfsAppend(k);
      Assoc(Strip(cut), Crlfs(k), CRLF);
      k := k + 1;
    } else {
      k := 0;
      assert s + [] == s;
    }
  }

  lemma {:induction false} CrlfsAppend(k: nat)
    ensures Crlfs(k) + CRLF == Crlfs(k + 1)
  {
    if k == 0 {
      assert [] + CRLF == CRLF && CRLF + [] == CRLF;
    } else {
      CrlfsAppend(k - 1);
      Assoc(CRLF, Crlfs(k - 1), CRLF);
    }
  }

  lemma {:induction false} StripLaws(s: Bytes)
    ensures Strip(s) <= s && !EndsInCrlf(Strip(s))
    decreases |s|
  {
    if EndsInCrlf(s) { StripLaws(s[..|s| - 2]); }
  }

  lemma StripAppended(s: Bytes)
    ensures Strip(s + CRLF) == Strip(s) && EndsInCrlf(s + CRLF)
  {
    assert (s + CRLF)[|s|..] == CRLF && (s + CRLF)[..|s|] == s;
  }

  lemma NormalAppended(s: Bytes)
    ensures Normal(s + CRLF) == Normal(s) + CRLF
  {
    var t := s + [CR];
    assert t[..|s|] == s;
    assert Normal(t) == Normal(s) + [CR];
    assert (s + CRLF)[..|t|] == t && (s + CRLF)[|t|] == LF;
    assert Normal(s) + [CR] + [LF] == Normal(s) + CRLF;
  }

  /** Simple canonicalisation is idempotent, ends in CRLF and... */
  lemma SimpleTwice(body: Bytes)
    ensures Simple(Simple(body)) == Simple(body) && EndsInCrlf(Simple(body))
  {
    var n := Normal(body);
    var s := Strip(n);
    NormalIsPaired(body);
    StripLaws(n);
    assert Paired(s) by { assert forall i :: 0 <= i < |s| ==> s[i] == n[i]; }
    PairedIsFixed(s);
    NormalAppended(s);
    StripAppended(s);
  }

  /** ...does not see empty lines appended to any body. */
  lemma {:induction false} SimpleIgnoresEmptyLines(body: Bytes, k: nat)
    ensures Simple(body + Crlfs(k)) == Simple(body)
    decreases k
  {
    if k == 0 {
      assert body + [] == body;
    } else {
      Assoc(body, CRLF, Crlfs(k - 1));
      SimpleIgnoresEmptyLines(body + CRLF, k - 1);
      SimpleIgnoresOne(body);
    }
  }

  lemma SimpleIgnoresOne(body: Bytes)
    ensures Simple(body + CRLF) == Simple(body)
  {
    NormalAppended(body);
    StripAppended(Normal(body));
  }
}
