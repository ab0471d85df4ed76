/**
 Domain names on the wire (src/dns/message.cpp): labels, compression pointers (section 4.1.4 of RFC 1035) and the
 dotted text that names are turned into.
 */
module DnsName {
  import opened Common

  const DOT: Byte := 0x2E
  const MAX_LABEL := 63
  /** decode_name refuses depth > 10, so eleven stretches of labels may be read. */
  const DEPTH := 11

  // ----- dotted text

  function Join(labels: seq<Bytes>): Bytes {
    if labels == [] then [] else if |labels| == 1 then labels[0] else labels[0] + [DOT] + Join(labels[1..])
  }

  predicate NonEmpty(labels: seq<Bytes>) { forall i :: 0 <= i < |labels| ==> labels[i] != [] }

  lemma {:induction false} JoinAppend(a: seq<Bytes>, b: seq<Bytes>)
    requires a != [] && b != []
    ensures Join(a + b) == Join(a) + [DOT] + Join(b)
  {
    if |a| == 1 {
      assert (a + b)[1..] == b;
    } else {
      assert (a + b)[1..] == a[1..] + b;
      JoinAppend(a[1..], b);
      assert a[0] + [DOT] + (Join(a[1..]) + [DOT] + Join(b)) == a[0] + [DOT] + Join(a[1..]) + [DOT] + Join(b);
    }
  }

  lemma JoinEmpty(labels: seq<Bytes>)
    requires NonEmpty(labels)
    ensures Join(labels) == [] <==> labels == []
  {
  }

  /** The text of two lists, the way decode_name glues them. */
  function Glue(a: Bytes, b: Bytes): Bytes { (if a != [] && b != [] then a + [DOT] else a) + b }

  lemma JoinGlue(a: seq<Bytes>, b: seq<Bytes>)
    requires NonEmpty(a) && NonEmpty(b)
    ensures Join(a + b) == Glue(Join(a), Join(b)) && NonEmpty(a + b)
  {
    JoinEmpty(a);
    JoinEmpty(b);
    if a == [] {
      assert a + b == b;
    } else if b == [] {
      assert a + b == a;
    } else {
      JoinAppend(a, b);
    }
  }

  // ----- reading

  /** Two octets, the high one first. */
  function Word(hi: int, lo: int): int { hi * 256 + lo }

  /** One stretch of labels: malformed, up to the root label, or up to a pointer. `end` is the first byte after it. */
  datatype Stretch = Bad | Ends(labels: seq<Bytes>, end: nat) | Jumps(labels: seq<Bytes>, end: nat, target: nat)

  function Before(first: Bytes, s: Stretch): Stretch {
    match s
    case Bad => Bad
    case Ends(ls, end) => Ends([first] + ls, end)
    case Jumps(ls, end, target) => Jumps([first] + ls, end, target)
  }

  function ReadStretch(w: Bytes, cur: nat): Stretch
    decreases |w| - cur
  {
    if cur >= |w| then Bad
    else if w[cur] == 0 then Ends([], cur + 1)
    else if w[cur] >= 0xC0 then
      if cur + 1 >= |w| then Bad else Jumps([], cur + 2, Word(w[cur] - 0xC0, w[cur + 1]))
    else if w[cur] > MAX_LABEL || cur + 1 + w[cur] > |w| then Bad
    else Before(w[cur + 1..cur + 1 + w[cur]], ReadStretch(w, cur + 1 + w[cur]))
  }

  /** The label list reached from `cur` by following pointers, over at most `budget` stretches, and where the first stretch ends. */
  function Labels(w: Bytes, cur: nat, budget: nat): Option<(seq<Bytes>, nat)>
    decreases budget, |w|
  {
    if budget == 0 then None
    else
      match ReadStretch(w, cur)
      case Bad => None
      case Ends(ls, end) => Some((ls, end))
      case Jumps(ls, end, target) =>
        var rest := Labels(w, target, budget - 1);
        if rest.None? then None else Some((ls + rest.value.0, end))
  }

  /** What decode_name gives: the dotted name and the offset after it. */
  function Name(w: Bytes, off: nat, budget: nat): Option<(Bytes, nat)> {
    var r := Labels(w, off, budget);
    if r.None? then None else Some((Join(r.value.0), r.value.1))
  }

  // ----- what a stretch is

  function Weight(labels: seq<Bytes>): nat { if labels == [] then 0 else |labels[0]| + 1 + Weight(labels[1..]) }

  lemma {:induction false} WeightAppend(a: seq<Bytes>, b: seq<Bytes>)
    ensures Weight(a + b) == Weight(a) + Weight(b)
  {
    if a == [] {
      assert a + b == b;
    } else {
      assert (a + b)[1..] == a[1..] + b;
      WeightAppend(a[1..], b);
    }
  }

  lemma {:induction false} JoinFits(labels: seq<Bytes>)
    ensures |Join(labels)| <= Weight(labels)
  {
    if labels != [] { JoinFits(labels[1..]); }
  }

  /** The labels of a stretch are nonempty, and they and their length bytes lie inside the message. */
  lemma {:induction false} StretchFits(w: Bytes, cur: nat)
    requires !ReadStretch(w, cur).Bad?
    ensures var s := ReadStretch(w, cur); cur < s.end <= |w| && NonEmpty(s.labels) && Weight(s.labels) <= s.end - cur - 1
    decreases |w| - cur
  {
    if 0 < w[cur] < 0xC0 {
      var next := cur + 1 + w[cur];
      StretchFits(w, next);
      var rest := ReadStretch(w, next).labels;
      assert ReadStretch(w, cur).labels == [w[cur + 1..next]] + rest;
      assert ([w[cur + 1..next]] + rest)[1..] == rest;
    }
  }

  lemma {:induction false} LabelsFit(w: Bytes, cur: nat, budget: nat)
    requires Labels(w, cur, budget).Some?
    ensures var (ls, end) := Labels(w, cur, budget).value; cur < end <= |w| && NonEmpty(ls) && Weight(ls) <= budget * |w|
    decreases budget
  {
    StretchFits(w, cur);
    OneTimeMore(budget - 1, |w|);
    var s := ReadStretch(w, cur);
    if s.Jumps? {
      LabelsFit(w, s.target, budget - 1);
      var rest := Labels(w, s.target, budget - 1).value.0;
      WeightAppend(s.labels, rest);
      JoinGlue(s.labels, rest);
    }
  }

  lemma OneTimeMore(k: nat, n: nat)
    ensures (k + 1) * n == k * n + n && k * n >= 0
  {
  }

  /** A decoded name has at most eleven times as many bytes as the message. */
  lemma NameFits(w: Bytes, off: nat)
    requires Name(w, off, DEPTH).Some?
    ensures |Name(w, off, DEPTH).value.0| <= 11 * |w| && off < Name(w, off, DEPTH).value.1 <= |w|
  {
    LabelsFit(w, off, DEPTH);
    JoinFits(Labels(w, off, DEPTH).value.0);
  }

  /** A name that was read under some depth budget is read the same under every larger one. */
  lemma {:induction false} LargerBudget(w: Bytes, off: nat, budget: nat, larger: nat)
    requires Labels(w, off, budget).Some? && budget <= larger
    ensures Labels(w, off, larger) == Labels(w, off, budget)
    decreases budget
  {
    var s := ReadStretch(w, off);
    if s.Jumps? { LargerBudget(w, s.target, budget - 1, larger - 1); }
  }

  // ----- pointer chains

  /** Where following k pointers from `cur` leads. */
  function Chain(w: Bytes, cur: nat, k: nat): Option<nat>
    decreases k
  {
    if k == 0 then Some(cur)
    else
      var s := ReadStretch(w, cur);
      if s.Jumps? then Chain(w, s.target, k - 1) else None
  }

  /** The name is read exactly when its pointer chain ends at a root label within the budget and no stretch on it is malformed. */
  lemma {:induction false} ReadIffChainEnds(w: Bytes, cur: nat, budget: nat)
    ensures Labels(w, cur, budget).Some? <==> exists k | 0 <= k < budget :: EndsAfter(w, cur, k)
    decreases budget
  {
    if budget > 0 {
      var s := ReadStretch(w, cur);
      if s.Ends? { assert EndsAfter(w, cur, 0); }
      if s.Jumps? {
        ReadIffChainEnds(w, s.target, budget - 1);
        if k :| 0 <= k < budget - 1 && EndsAfter(w, s.target, k) { assert EndsAfter(w, cur, k + 1); }
        if k :| 0 <= k < budget && EndsAfter(w, cur, k) { assert k > 0 && EndsAfter(w, s.target, k - 1); }
      }
    }
  }

  /** The chain's k-th stretch is there and closes with the root label. */
  predicate EndsAfter(w: Bytes, cur: nat, k: nat) {
    var at := Chain(w, cur, k);
    at.Some? && ReadStretch(w, at.value).Ends?
  }

  lemma {:induction false} ChainSplit(w: Bytes, cur: nat, j: nat, k: nat)
    requires Chain(w, cur, j).Some?
    ensures Chain(w, cur, j + k) == Chain(w, Chain(w, cur, j).value, k)
    decreases j
  {
    if j > 0 {
      var s := ReadStretch(w, cur);
      ChainSplit(w, s.target, j - 1, k);
      assert j + k - 1 == j - 1 + k;
    }
  }

  lemma {:induction false} ChainPrefix(w: Bytes, cur: nat, j: nat, k: nat)
    requires Chain(w, cur, k).Some? && j <= k
    ensures Chain(w, cur, j).Some?
    decreases j
  {
    if j > 0 { ChainPrefix(w, ReadStretch(w, cur).target, j - 1, k - 1); }
  }

  /** A chain that comes back to where it was never reaches a root label... */
  lemma {:induction false} CycleGoesOn(w: Bytes, at: nat, n: nat, k: nat)
    requires n > 0 && Chain(w, at, n) == Some(at)
    ensures !EndsAfter(w, at, k)
    decreases k
  {
    if k >= n {
      CycleGoesOn(w, at, n, k - n);
      ChainSplit(w, at, n, k - n);
    } else {
      ChainPrefix(w, at, k, n);
      ChainSplit(w, at, k, n - k);
    }
  }

  /** ...so a name whose pointers run into a cycle is refused, whatever the depth limit. */
  lemma {:induction false} CyclesAreRefused(w: Bytes, cur: nat, j: nat, n: nat, budget: nat)
    requires n > 0 && Chain(w, cur, j).Some? && Chain(w, cur, j + n) == Chain(w, cur, j)
    ensures Labels(w, cur, budget).None?
    decreases j
  {
    ReadIffChainEnds(w, cur, budget);
    var at := Chain(w, cur, j).value;
    ChainSplit(w, cur, j, n);
    forall k: nat | k < budget ensures !EndsAfter(w, cur, k) {
      if k >= j {
        ChainSplit(w, cur, j, k - j);
        CycleGoesOn(w, at, n, k - j);
      } else {
        ChainPrefix(w, cur, k, j);
        ChainSplit(w, cur, k, j - k);
      }
    }
  }

  // ----- the decoder

  /** What is left to read from `cur`, put behind the labels read so far. */
  ghost function Rest(w: Bytes, done: seq<Bytes>, cur: nat, budget: nat): Option<(Bytes, nat)> {
    var r := Labels(w, cur, budget);
    if r.None? then None else Some((Join(done + r.value.0), r.value.1))
  }

  /** decode_name: a loop over labels that recurses at a pointer. Depth counts up to 11 where `budget` counts down to 0. */
  method DecodeName(w: Bytes, off: nat, budget: nat) returns (r: Option<(Bytes, nat)>)
    ensures r == Name(w, off, budget)
    decreases budget
  {
    if budget == 0 { return None; }
    var out: Bytes, cur := [], off;
    ghost var done: seq<Bytes> := [];
    assert Rest(w, [], off, budget) == Name(w, off, budget) by { NothingDone(w, off, budget); }
    while cur < |w| && 0 < w[cur] <= MAX_LABEL && cur + 1 + w[cur] <= |w|
      invariant NonEmpty(done) && out == Join(done)
      invariant Rest(w, done, cur, budget) == Name(w, off, budget)
      decreases |w| - cur
    {
      var len := w[cur];
      ghost var one := w[cur + 1..cur + 1 + len];
      OneMore(w, done, cur, budget);
      JoinGlue(done, [one]);
      if out != [] { out := out + [DOT]; }
      out := out + w[cur + 1..cur + 1 + len];
      done := done + [one];
      cur := cur + 1 + len;
    }
    if cur < |w| && w[cur] == 0 {
      assert done + [] == done;
      r := Some((out, cur + 1));
    } else if cur + 1 < |w| && w[cur] >= 0xC0 {
      var target := Word(w[cur] - 0xC0, w[cur + 1]);
      var rest := DecodeName(w, target, budget - 1);
      if rest.None? {
        r := None;
      } else {
        AtPointer(w, done, cur, budget);
        if out != [] && rest.value.0 != [] { out := out + [DOT]; }
        r := Some((out + rest.value.0, cur + 2));
      }
    } else {
      r := None;
    }
  }

  lemma NothingDone(w: Bytes, off: nat, budget: nat)
    ensures Rest(w, [], off, budget) == Name(w, off, budget)
  {
    var r := Labels(w, off, budget);
    if r.Some? { assert [] + r.value.0 == r.value.0; }
  }

  /** A label moves from what is left to what is done. */
  lemma OneMore(w: Bytes, done: seq<Bytes>, cur: nat, budget: nat)
    requires budget > 0 && cur < |w| && 0 < w[cur] <= MAX_LABEL && cur + 1 + w[cur] <= |w|
    ensures var next := cur + 1 + w[cur]; Rest(w, done, cur, budget) == Rest(w, done + [w[cur + 1..next]], next, budget)
  {
    var next := cur + 1 + w[cur];
    var one := w[cur + 1..next];
    var s := ReadStretch(w, next);
    if s.Ends? {
      assert done + ([one] + s.labels) == done + [one] + s.labels;
    }
    if s.Jumps? && Labels(w, s.target, budget - 1).Some? {
      var rest := Labels(w, s.target, budget - 1).value.0;
      assert done + ([one] + s.labels + rest) == done + [one] + (s.labels + rest);
    }
  }

  lemma AtPointer(w: Bytes, done: seq<Bytes>, cur: nat, budget: nat)
    requires budget > 0 && ReadStretch(w, cur).Jumps? && ReadStretch(w, cur).labels == [] && NonEmpty(done)
    requires Labels(w, ReadStretch(w, cur).target, budget - 1).Some?
    ensures var s := ReadStretch(w, cur);
      Rest(w, done, cur, budget) == Some((Glue(Join(done), Name(w, s.target, budget - 1).value.0), s.end))
  {
    var s := ReadStretch(w, cur);
    var rest := Labels(w, s.target, budget - 1).value.0;
    LabelsFit(w, s.target, budget - 1);
    assert [] + rest == rest;
    JoinGlue(done, rest);
  }

  // ----- writing

  /** The name cut at its dots: encode_name's getline. */
  function Split(name: Bytes): (r: seq<Bytes>)
    ensures |r| > 0
  {
    if name == [] then [[]]
    else
      var rest := Split(name[1..]);
      if name[0] == DOT then [[]] + rest else [[name[0]] + rest[0]] + rest[1..]
  }

  /** The labels sent for a list of labels: empty ones dropped, long ones cut. */
  function Sent(labels: seq<Bytes>): seq<Bytes> {
    if labels == [] then []
    else if labels[0] == [] then Sent(labels[1..])
    else [Cut(labels[0])] + Sent(labels[1..])
  }

  function Cut(l: Bytes): Bytes { if |l| > MAX_LABEL then l[..MAX_LABEL] else l }

  predicate Proper(labels: seq<Bytes>) { forall i :: 0 <= i < |labels| ==> 1 <= |labels[i]| <= MAX_LABEL }

  lemma {:induction false} SentIsProper(labels: seq<Bytes>)
    ensures Proper(Sent(labels))
  {
    if labels != [] { SentIsProper(labels[1..]); }
  }

  /** Length-prefixed labels and the root label. */
  function Wire(labels: seq<Bytes>): Bytes
    requires Proper(labels)
  {
    if labels == [] then [0] else [|labels[0]|] + labels[0] + Wire(labels[1..])
  }

  /** The bytes `part` stand in w at index i. */
  predicate At(w: Bytes, i: nat, part: Bytes)
    decreases |part|
  {
    i <= |w| && (part != [] ==> i < |w| && w[i] == part[0] && At(w, i + 1, part[1..]))
  }

  lemma {:induction false} AtParts(w: Bytes, i: nat, a: Bytes, b: Bytes)
    requires At(w, i, a + b)
    ensures At(w, i, a) && At(w, i + |a|, b)
    decreases |a|
  {
    if a == [] {
      assert a + b == b;
    } else {
      var x, rest := a[0], a[1..];
      assert a == [x] + rest;
      Assoc([x], rest, b);
      AtFirst(w, i, x, rest + b);
      AtParts(w, i + 1, rest, b);
    }
  }

  lemma AtFirst(w: Bytes, i: nat, b: Byte, rest: Bytes)
    requires At(w, i, [b] + rest)
    ensures i < |w| && w[i] == b && At(w, i + 1, rest)
  {
    assert ([b] + rest)[1..] == rest;
  }

  lemma {:induction false} AtSlice(w: Bytes, i: nat, part: Bytes)
    requires At(w, i, part)
    ensures i + |part| <= |w| && w[i..i + |part|] == part
    decreases |part|
  {
    if part != [] {
      AtSlice(w, i + 1, part[1..]);
      assert w[i..i + |part|] == [w[i]] + w[i + 1..i + 1 + |part[1..]|];
      assert part == [part[0]] + part[1..];
    }
  }

  lemma {:induction false} AtSuffix(w: Bytes, i: nat)
    requires i <= |w|
    ensures At(w, i, w[i..])
    decreases |w| - i
  {
    if i < |w| {
      AtSuffix(w, i + 1);
      assert w[i..][1..] == w[i + 1..];
    }
  }

  lemma AtWhole(w: Bytes)
    ensures At(w, 0, w)
  {
    AtSuffix(w, 0);
    assert w[0..] == w;
  }

  /** A number of bytes and the bytes, read as such. */
  lemma AtCounted(w: Bytes, i: nat, s: Bytes)
    requires |s| < 256 && At(w, i, [|s|] + s)
    ensures i + 1 + |s| <= |w| && w[i] == |s| && w[i + 1..i + 1 + |s|] == s
  {
    AtFirst(w, i, |s|, s);
    AtSlice(w, i + 1, s);
  }

  /** Reading back what was written, wherever it stands in a message. */
  lemma {:induction false} StretchOfWire(w: Bytes, cur: nat, labels: seq<Bytes>)
    requires Proper(labels) && At(w, cur, Wire(labels))
    ensures ReadStretch(w, cur) == Ends(labels, cur + |Wire(labels)|)
    decreases labels
  {
    if labels != [] {
      var one, rest := labels[0], labels[1..];
      var head: Bytes, tail := [|one|] + one, Wire(rest);
      AtParts(w, cur, head, tail);
      AtCounted(w, cur, one);
      StretchOfWire(w, cur + |head|, rest);
      assert labels == [one] + rest;
      assert |Wire(labels)| == |head| + |tail|;
    }
  }

  function WireOf(labels: seq<Bytes>): Bytes {
    SentIsProper(labels);
    Wire(Sent(labels))
  }

  /** What one label adds to the wire form. */
  function Prefixed(one: Bytes): Bytes { if one == [] then [] else [|Cut(one)|] + Cut(one) }

  lemma WireStep(one: Bytes, rest: seq<Bytes>)
    ensures WireOf([one] + rest) == Prefixed(one) + WireOf(rest)
  {
    var all := [one] + rest;
    assert all[1..] == rest;
    SentIsProper(all);
    SentIsProper(rest);
    if one != [] { assert Sent(all)[1..] == Sent(rest); }
  }

  /** The text up to the next dot is the first label. */
  lemma {:induction false} FirstLabel(s: Bytes, j: nat)
    requires j <= |s| && DOT !in s[..j] && (j < |s| ==> s[j] == DOT)
    ensures Split(s) == [s[..j]] + if j < |s| then Split(s[j + 1..]) else []
    decreases j
  {
    if j > 0 {
      assert s[0] == s[..j][0] && s[1..][..j - 1] == s[..j][1..];
      FirstLabel(s[1..], j - 1);
      assert s[..j] == [s[0]] + s[1..][..j - 1];
      if j < |s| { assert s[1..][j..] == s[j + 1..]; }
    }
  }

  /** The wire form of the labels from index i on; an empty label after a final dot, which getline does not give, would be dropped anyway. */
  ghost function From(name: Bytes, i: nat): Bytes { WireOf(LabelsFrom(name, i)) }

  ghost function LabelsFrom(name: Bytes, i: nat): seq<Bytes> { if i <= |name| then Split(name[i..]) else [] }

  /** encode_name, label by label. */
  method EncodeName(name: Bytes) returns (out: Bytes)
    ensures out == WireOf(Split(name))
  {
    out := [];
    var i := 0;
    assert name[0..] == name;
    ghost var whole := From(name, 0);
    while i <= |name|
      invariant 0 <= i <= |name| + 1
      invariant out + From(name, i) == whole
    {
      out, i := EmitLabel(name, i, out);
    }
    out := out + [0];
  }

  method EmitLabel(name: Bytes, i: nat, out: Bytes) returns (out': Bytes, next: nat)
    requires i <= |name|
    ensures i < next <= |name| + 1
    ensures out' + From(name, next) == out + From(name, i)
  {
    var j := FindDot(name, i);
    NextLabel(name, i, j);
    Assoc(out, Prefixed(name[i..j]), From(name, j + 1));
    out', next := out + Prefixed(name[i..j]), j + 1;
  }

  method FindDot(name: Bytes, i: nat) returns (j: nat)
    requires i <= |name|
    ensures i <= j <= |name| && DOT !in name[i..j] && (j < |name| ==> name[j] == DOT)
  {
    j := i;
    while j < |name| && name[j] != DOT
      invariant i <= j <= |name| && DOT !in name[i..j]
    {
      assert name[i..j + 1] == name[i..j] + [name[j]];
      j := j + 1;
    }
  }

  lemma NextLabel(name: Bytes, i: nat, j: nat)
    requires i <= j <= |name| && DOT !in name[i..j] && (j < |name| ==> name[j] == DOT)
    ensures From(name, i) == Prefixed(name[i..j]) + From(name, j + 1)
  {
    SplitNext(name, i, j);
    WireStep(name[i..j], LabelsFrom(name, j + 1));
  }

  lemma SplitNext(name: Bytes, i: nat, j: nat)
    requires i <= j <= |name| && DOT !in name[i..j] && (j < |name| ==> name[j] == DOT)
    ensures LabelsFrom(name, i) == [name[i..j]] + LabelsFrom(name, j + 1)
  {
    var s := name[i..];
    assert s[..j - i] == name[i..j];
    if j < |name| { assert s[j - i + 1..] == name[j + 1..]; }
    FirstLabel(s, j - i);
  }

  // ----- what arrives

  /** The name that a query for `name` carries. */
  function Carried(name: Bytes): Bytes { Join(Sent(Split(name))) }

  lemma JoinOpens(rest: seq<Bytes>)
    requires rest != []
    ensures Join([[]] + rest) == [DOT] + Join(rest)
  {
    assert ([[]] + rest)[1..] == rest;
  }

  lemma JoinGrows(b: Byte, rest: seq<Bytes>)
    requires rest != []
    ensures Join([[b] + rest[0]] + rest[1..]) == [b] + Join(rest)
  {
    var all := [[b] + rest[0]] + rest[1..];
    assert all[1..] == rest[1..];
    if |rest| > 1 { Assoc([b], rest[0], [DOT] + Join(rest[1..])); }
  }

  lemma {:induction false} JoinSplit(name: Bytes)
    ensures Join(Split(name)) == name
  {
    if name != [] {
      JoinSplit(name[1..]);
      assert name == [name[0]] + name[1..];
      if name[0] == DOT { JoinOpens(Split(name[1..])); } else { JoinGrows(name[0], Split(name[1..])); }
    }
  }

  lemma {:induction false} JoinLength(labels: seq<Bytes>)
    requires labels != []
    ensures |Join(labels)| + 1 == Weight(labels)
  {
    if |labels| > 1 { JoinLength(labels[1..]); }
  }

  /** Dropping or cutting a label makes the list lighter. */
  lemma {:induction false} SentWeight(labels: seq<Bytes>)
    ensures Weight(Sent(labels)) <= Weight(labels)
    ensures Proper(labels) <==> Weight(Sent(labels)) == Weight(labels)
    ensures Proper(labels) ==> Sent(labels) == labels
  {
    if labels != [] {
      SentWeight(labels[1..]);
      assert Proper(labels) <==> 1 <= |labels[0]| <= MAX_LABEL && Proper(labels[1..]) by { ProperStep(labels); }
      if labels[0] != [] {
        assert ([Cut(labels[0])] + Sent(labels[1..]))[1..] == Sent(labels[1..]);
      }
    }
  }

  lemma ProperStep(labels: seq<Bytes>)
    requires labels != []
    ensures Proper(labels) <==> 1 <= |labels[0]| <= MAX_LABEL && Proper(labels[1..])
  {
    assert labels == [labels[0]] + labels[1..];
  }

  /** The name arrives unchanged exactly when it is empty or each of its labels has 1 to 63 bytes. */
  lemma CarriedUnchanged(name: Bytes)
    ensures Carried(name) == name <==> name == [] || Proper(Split(name))
  {
    var labels := Split(name);
    JoinSplit(name);
    JoinLength(labels);
    SentWeight(labels);
    if Sent(labels) != [] { JoinLength(Sent(labels)); }
  }
}
