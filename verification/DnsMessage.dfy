/**
 DNS messages (src/dns/message.cpp). A read outside the message, which the C++ code does not guard against in MX
 and TXT data, is the outcome Fault.
 */
module DnsMessage {
  import opened Common
  import opened Bits
  import opened DnsName

  datatype RData = A(addr: Bytes) | AAAA(addr6: Bytes) | MX(preference: nat, exchange: Bytes) | TXT(text: Bytes)
    | CNAME(cname: Bytes) | NS(nsdname: Bytes)
  datatype Question = Question(name: Bytes, qtype: nat, qclass: nat)
  datatype Record = Record(name: Bytes, rtype: nat, rclass: nat, ttl: nat, rdata: RData)
  datatype Flags = Flags(qr: bool, opcode: nat, aa: bool, tc: bool, rd: bool, ra: bool, rcode: nat)
  datatype Message = Message(id: nat, flags: Flags, questions: seq<Question>, answers: seq<Record>, authority: seq<Record>,
    additional: seq<Record>)

  const TYPE_A := 1
  const TYPE_NS := 2
  const TYPE_CNAME := 5
  const TYPE_MX := 15
  const TYPE_TXT := 16
  const TYPE_AAAA := 28
  const CLASS_IN := 1

  datatype Outcome<+T> = Ok(value: T) | Reject | Fault

  /** A decoded item and the offset after it. */
  datatype Item<+T> = Item(item: T, end: nat)

  function U16(w: Bytes, off: nat): nat
    requires off + 2 <= |w|
  {
    Word(w[off], w[off + 1])
  }

  /** n octets, the highest first. */
  function Big(w: Bytes, off: nat, n: nat): nat
    requires off + n <= |w|
  {
    if n == 0 then 0 else Word(Big(w, off, n - 1), w[off + n - 1])
  }

  function FlagBits(f: nat): Flags {
    Flags(Shr(f, 15) % 2 == 1, Shr(f, 11) % 16, Shr(f, 10) % 2 == 1, Shr(f, 9) % 2 == 1, Shr(f, 8) % 2 == 1,
          Shr(f, 7) % 2 == 1, f % 16)
  }

  // ----- record data

  /** The character strings of TXT data from pos to end, one after the other. */
  function Strings(w: Bytes, pos: nat, end: nat): Outcome<Bytes>
    decreases end - pos
  {
    if pos >= end then Ok([])
    else if pos >= |w| then Fault
    else
      var next := pos + 1 + w[pos];
      if next > end then Reject
      else if next > |w| then Fault
      else
        var rest := Strings(w, next, end);
        if rest.Ok? then Ok(w[pos + 1..next] + rest.value) else rest
  }

  function Data(w: Bytes, off: nat, len: nat, rtype: nat): Outcome<RData> {
    if rtype == TYPE_A then if len == 4 && off + 4 <= |w| then Ok(A(w[off..off + 4])) else Reject
    else if rtype == TYPE_AAAA then if len == 16 && off + 16 <= |w| then Ok(AAAA(w[off..off + 16])) else Reject
    else if rtype == TYPE_MX then
      if len < 3 then Reject
      else if off + 2 > |w| then Fault
      else if Name(w, off + 2, DEPTH).None? then Reject
      else Ok(MX(U16(w, off), Name(w, off + 2, DEPTH).value.0))
    else if rtype == TYPE_TXT then
      var text := Strings(w, off, off + len);
      if text.Ok? then Ok(TXT(text.value)) else if text.Fault? then Fault else Reject
    else if rtype == TYPE_CNAME then
      if Name(w, off, DEPTH).None? then Reject else Ok(CNAME(Name(w, off, DEPTH).value.0))
    else if rtype == TYPE_NS then
      if Name(w, off, DEPTH).None? then Reject else Ok(NS(Name(w, off, DEPTH).value.0))
    else Ok(TXT([]))
  }

  // ----- questions and records

  function ReadQuestion(w: Bytes, off: nat): Outcome<Item<Question>> {
    var name := Name(w, off, DEPTH);
    if name.None? || name.value.1 + 4 > |w| then Reject
    else
      var at := name.value.1;
      Ok(Item(Question(name.value.0, U16(w, at), U16(w, at + 2)), at + 4))
  }

  /** The record whose fixed part is at `at`, with its data. */
  function RecordWith(w: Bytes, name: Bytes, at: nat, data: Outcome<RData>): Outcome<Item<Record>>
    requires at + 10 <= |w|
  {
    match data
    case Reject => Reject
    case Fault => Fault
    case Ok(rdata) => Ok(Item(Record(name, U16(w, at), U16(w, at + 2), Big(w, at + 4, 4), rdata), at + 10 + U16(w, at + 8)))
  }

  function ReadRecord(w: Bytes, off: nat): Outcome<Item<Record>> {
    var name := Name(w, off, DEPTH);
    if name.None? || name.value.1 + 10 > |w| then Reject
    else
      var at := name.value.1;
      RecordWith(w, name.value.0, at, Data(w, at + 10, U16(w, at + 8), U16(w, at)))
  }

  /** `count` items from an offset on. */
  function Many<T>(read: nat -> Outcome<Item<T>>, off: nat, count: nat): (r: Outcome<Item<seq<T>>>)
    ensures r.Ok? ==> |r.value.item| == count
    decreases count
  {
    if count == 0 then Ok(Item([], off))
    else
      var first := read(off);
      if !first.Ok? then if first.Fault? then Fault else Reject
      else
        var rest := Many(read, first.value.end, count - 1);
        if rest.Ok? then Ok(Item([first.value.item] + rest.value.item, rest.value.end)) else rest
  }

  function QuestionAt(w: Bytes): nat -> Outcome<Item<Question>> { (at: nat) => ReadQuestion(w, at) }
  function RecordAt(w: Bytes): nat -> Outcome<Item<Record>> { (at: nat) => ReadRecord(w, at) }

  function Questions(w: Bytes, off: nat, count: nat): Outcome<Item<seq<Question>>> { Many(QuestionAt(w), off, count) }
  function Records(w: Bytes, off: nat, count: nat): Outcome<Item<seq<Record>>> { Many(RecordAt(w), off, count) }

  /** A run of records cut into the three record sections. */
  function Cut3(r: Outcome<Item<seq<Record>>>, an: nat, ns: nat): Outcome<(seq<Record>, seq<Record>, seq<Record>)>
    requires r.Ok? ==> an + ns <= |r.value.item|
  {
    match r
    case Ok(all) => Ok((all.item[..an], all.item[an..an + ns], all.item[an + ns..]))
    case Reject => Reject
    case Fault => Fault
  }

  function Sections(w: Bytes, off: nat, an: nat, ns: nat, ar: nat): Outcome<(seq<Record>, seq<Record>, seq<Record>)> {
    Cut3(Records(w, off, an + ns + ar), an, ns)
  }

  /** The header's four counts say how many items follow. The three record sections are read as one run of records. */
  function BodyOf(readQuestion: nat -> Outcome<Item<Question>>, readRecord: nat -> Outcome<Item<Record>>,
                  id: nat, flags: nat, qd: nat, an: nat, ns: nat, ar: nat): Outcome<Message> {
    match Many(readQuestion, 12, qd)
    case Reject => Reject
    case Fault => Fault
    case Ok(qs) =>
      match Cut3(Many(readRecord, qs.end, an + ns + ar), an, ns)
      case Reject => Reject
      case Fault => Fault
      case Ok(rs) => Ok(Message(id, FlagBits(flags), qs.item, rs.0, rs.1, rs.2))
  }

  function Body(w: Bytes, id: nat, flags: nat, qd: nat, an: nat, ns: nat, ar: nat): Outcome<Message> {
    BodyOf(QuestionAt(w), RecordAt(w), id, flags, qd, an, ns, ar)
  }

  /** A whole message. */
  function Decode(w: Bytes): Outcome<Message> {
    if |w| < 12 then Reject else Body(w, U16(w, 0), U16(w, 2), U16(w, 4), U16(w, 6), U16(w, 8), U16(w, 10))
  }

  // ----- the decoder's loops

  method DecodeText(w: Bytes, off: nat, len: nat) returns (r: Outcome<Bytes>)
    ensures r == Strings(w, off, off + len)
  {
    var pos, end, text: Bytes := off, off + len, [];
    r := Ok([]);
    ghost var whole := Strings(w, off, end);
    AfterNothing(whole);
    while r.Ok? && pos < end
      invariant r.Ok? ==> whole == After(text, Strings(w, pos, end))
      invariant !r.Ok? ==> r == whole
      decreases r.Ok?, end - pos
    {
      if pos >= |w| {
        r := Fault;
      } else if pos + 1 + w[pos] > end {
        r := Reject;
      } else if pos + 1 + w[pos] > |w| {
        r := Fault;
      } else {
        var next := pos + 1 + w[pos];
        AfterTwice(text, w[pos + 1..next], Strings(w, next, end));
        text, pos := text + w[pos + 1..next], next;
      }
    }
    if r.Ok? {
      assert text + [] == text;
      r := Ok(text);
    }
  }

  ghost function After(text: Bytes, r: Outcome<Bytes>): Outcome<Bytes> { if r.Ok? then Ok(text + r.value) else r }

  lemma AfterNothing(r: Outcome<Bytes>)
    ensures After([], r) == r
  {
    if r.Ok? { assert [] + r.value == r.value; }
  }

  lemma AfterTwice(a: Bytes, b: Bytes, r: Outcome<Bytes>)
    ensures After(a, After(b, r)) == After(a + b, r)
  {
    if r.Ok? { assert a + (b + r.value) == a + b + r.value; }
  }

  method DecodeData(w: Bytes, off: nat, len: nat, rtype: nat) returns (r: Outcome<RData>)
    ensures r == Data(w, off, len, rtype)
  {
    if rtype in [TYPE_MX, TYPE_CNAME, TYPE_NS] {
      if rtype == TYPE_MX && len < 3 { return Reject; }
      if rtype == TYPE_MX && off + 2 > |w| { return Fault; }
      var name := DecodeName(w, if rtype == TYPE_MX then off + 2 else off, DEPTH);
      r := if name.None? then Reject
           else if rtype == TYPE_MX then Ok(MX(U16(w, off), name.value.0))
           else if rtype == TYPE_CNAME then Ok(CNAME(name.value.0))
           else Ok(NS(name.value.0));
    } else if rtype == TYPE_TXT {
      var text := DecodeText(w, off, len);
      r := if text.Ok? then Ok(TXT(text.value)) else if text.Fault? then Fault else Reject;
    } else {
      r := Data(w, off, len, rtype);
    }
  }

  method DecodeQuestion(w: Bytes, off: nat) returns (r: Outcome<Item<Question>>)
    ensures r == ReadQuestion(w, off)
  {
    var name := DecodeName(w, off, DEPTH);
    if name.None? || name.value.1 + 4 > |w| { return Reject; }
    var at := name.value.1;
    r := Ok(Item(Question(name.value.0, U16(w, at), U16(w, at + 2)), at + 4));
  }

  method DecodeRecord(w: Bytes, off: nat) returns (r: Outcome<Item<Record>>)
    ensures r == ReadRecord(w, off)
  {
    var name := DecodeName(w, off, DEPTH);
    if name.None? || name.value.1 + 10 > |w| { return Reject; }
    var at := name.value.1;
    var data := DecodeData(w, at + 10, U16(w, at + 8), U16(w, at));
    r := RecordWith(w, name.value.0, at, data);
  }

  /** Items already read in front of the rest. */
  ghost function Behind<T>(xs: seq<T>, r: Outcome<Item<seq<T>>>): Outcome<Item<seq<T>>> {
    if r.Ok? then Ok(Item(xs + r.value.item, r.value.end)) else r
  }

  /** Some items have been read, up to an offset, and `left` more make the whole run. */
  ghost predicate Partly<T>(read: nat -> Outcome<Item<T>>, done: Item<seq<T>>, left: nat, whole: Outcome<Item<seq<T>>>) {
    whole == Behind(done.item, Many(read, done.end, left))
  }

  lemma PartlyStep<T>(read: nat -> Outcome<Item<T>>, done: Item<seq<T>>, left: nat, whole: Outcome<Item<seq<T>>>, one: Outcome<Item<T>>)
    requires left > 0 && read(done.end) == one && Partly(read, done, left, whole)
    ensures one.Ok? ==> Partly(read, Item(done.item + [one.value.item], one.value.end), left - 1, whole)
    ensures !one.Ok? ==> whole == if one.Fault? then Fault else Reject
  {
    if one.Ok? {
      var rest := Many(read, one.value.end, left - 1);
      if rest.Ok? { assert done.item + ([one.value.item] + rest.value.item) == done.item + [one.value.item] + rest.value.item; }
    }
  }

  lemma PartlyStart<T>(read: nat -> Outcome<Item<T>>, off: nat, count: nat)
    ensures Partly(read, Item([], off), count, Many(read, off, count))
  {
    BehindNothing(Many(read, off, count));
  }

  lemma PartlyDone<T>(read: nat -> Outcome<Item<T>>, done: Item<seq<T>>, whole: Outcome<Item<seq<T>>>)
    requires Partly(read, done, 0, whole)
    ensures whole == Ok(done)
  {
    assert done.item + [] == done.item;
  }

  lemma BehindNothing<T>(r: Outcome<Item<seq<T>>>)
    ensures Behind([], r) == r
  {
    if r.Ok? { assert [] + r.value.item == r.value.item; }
  }

  method DecodeQuestions(w: Bytes, off: nat, count: nat) returns (r: Outcome<Item<seq<Question>>>)
    ensures r == Questions(w, off, count)
  {
    var done, i := Item([], off), 0;
    ghost var read, whole := QuestionAt(w), Questions(w, off, count);
    PartlyStart(read, off, count);
    while i < count
      invariant 0 <= i <= count && Partly(read, done, count - i, whole)
    {
      var one := DecodeQuestion(w, done.end);
      PartlyStep(read, done, count - i, whole, one);
      if !one.Ok? { return if one.Fault? then Fault else Reject; }
      done, i := Item(done.item + [one.value.item], one.value.end), i + 1;
    }
    PartlyDone(read, done, whole);
    r := Ok(done);
  }

  method DecodeSection(w: Bytes, off: nat, count: nat) returns (r: Outcome<Item<seq<Record>>>)
    ensures r == Records(w, off, count)
  {
    var done, i := Item([], off), 0;
    ghost var read, whole := RecordAt(w), Records(w, off, count);
    PartlyStart(read, off, count);
    while i < count
      invariant 0 <= i <= count && Partly(read, done, count - i, whole)
    {
      var one := DecodeRecord(w, done.end);
      PartlyStep(read, done, count - i, whole, one);
      if !one.Ok? { return if one.Fault? then Fault else Reject; }
      done, i := Item(done.item + [one.value.item], one.value.end), i + 1;
    }
    PartlyDone(read, done, whole);
    r := Ok(done);
  }

  /** Two runs of items, one after the other, are one run. */
  lemma {:induction false} ManySplit<T>(read: nat -> Outcome<Item<T>>, off: nat, a: nat, b: nat)
    ensures var first := Many(read, off, a);
      Many(read, off, a + b) == if first.Ok? then Behind(first.value.item, Many(read, first.value.end, b)) else first
    decreases a
  {
    if a == 0 {
      BehindNothing(Many(read, off, b));
    } else if read(off).Ok? {
      var one := read(off).value;
      ManySplit(read, one.end, a - 1, b);
      var some := Many(read, one.end, a - 1);
      if some.Ok? {
        var rest := Many(read, some.value.end, b);
        if rest.Ok? { assert [one.item] + (some.value.item + rest.value.item) == [one.item] + some.value.item + rest.value.item; }
      }
    }
  }

  method DecodeSections(w: Bytes, off: nat, an: nat, ns: nat, ar: nat)
    returns (r: Outcome<(seq<Record>, seq<Record>, seq<Record>)>)
    ensures r == Sections(w, off, an, ns, ar)
  {
    var answers := DecodeSection(w, off, an);
    if answers.Ok? {
      var others := DecodeLastTwo(w, answers.value.end, ns, ar);
      r := if others.Ok? then Ok((answers.value.item, others.value.0, others.value.1))
           else if others.Fault? then Fault else Reject;
    } else {
      r := if answers.Fault? then Fault else Reject;
    }
    SectionsSplit(RecordAt(w), off, an, ns, ar);
  }

  lemma SectionsSplit(read: nat -> Outcome<Item<Record>>, off: nat, an: nat, ns: nat, ar: nat)
    ensures Cut3(Many(read, off, an + ns + ar), an, ns) ==
      match Many(read, off, an)
      case Reject => Reject
      case Fault => Fault
      case Ok(first) =>
        match Many(read, first.end, ns + ar)
        case Reject => Reject
        case Fault => Fault
        case Ok(rest) => Ok((first.item, rest.item[..ns], rest.item[ns..]))
  {
    ManySplit(read, off, an, ns + ar);
    assert an + (ns + ar) == an + ns + ar;
    var first := Many(read, off, an);
    Cut3Behind(Many(read, off, an + ns + ar), first, Many(read, Ended(first), ns + ar), an, ns);
  }

  ghost function Ended<T>(r: Outcome<Item<T>>): nat { if r.Ok? then r.value.end else 0 }

  lemma Cut3Behind(whole: Outcome<Item<seq<Record>>>, first: Outcome<Item<seq<Record>>>, rest: Outcome<Item<seq<Record>>>, an: nat, ns: nat)
    requires whole == if first.Ok? then Behind(first.value.item, rest) else first
    requires first.Ok? ==> |first.value.item| == an
    requires rest.Ok? ==> ns <= |rest.value.item|
    ensures Cut3(whole, an, ns) ==
      match first
      case Reject => Reject
      case Fault => Fault
      case Ok(first) =>
        match rest
        case Reject => Reject
        case Fault => Fault
        case Ok(rest) => Ok((first.item, rest.item[..ns], rest.item[ns..]))
  {
    if first.Ok? && rest.Ok? { CutAppended(first.value.item, rest.value.item, ns); }
  }

  lemma CutAppended(a: seq<Record>, b: seq<Record>, ns: nat)
    requires ns <= |b|
    ensures (a + b)[..|a|] == a && (a + b)[|a|..|a| + ns] == b[..ns] && (a + b)[|a| + ns..] == b[ns..]
  {
  }

  method DecodeLastTwo(w: Bytes, off: nat, ns: nat, ar: nat) returns (r: Outcome<(seq<Record>, seq<Record>)>)
    ensures match Records(w, off, ns + ar)
      case Ok(all) => r == Ok((all.item[..ns], all.item[ns..]))
      case Reject => r.Reject?
      case Fault => r.Fault?
  {
    var authority := DecodeSection(w, off, ns);
    ghost var read := RecordAt(w);
    ManySplit(read, off, ns, ar);
    if !authority.Ok? { return if authority.Fault? then Fault else Reject; }
    var additional := DecodeSection(w, authority.value.end, ar);
    if !additional.Ok? { return if additional.Fault? then Fault else Reject; }
    r := Ok((authority.value.item, additional.value.item));
  }

  /** decode: three sections read one after the other. */
  method DecodeMessage(w: Bytes) returns (r: Outcome<Message>)
    ensures r == Decode(w)
  {
    if |w| < 12 { return Reject; }
    var qs := DecodeQuestions(w, 12, U16(w, 4));
    if !qs.Ok? { return if qs.Fault? then Fault else Reject; }
    var rs := DecodeSections(w, qs.value.end, U16(w, 6), U16(w, 8), U16(w, 10));
    if !rs.Ok? { return if rs.Fault? then Fault else Reject; }
    r := Ok(Message(U16(w, 0), FlagBits(U16(w, 2)), qs.value.item, rs.value.0, rs.value.1, rs.value.2));
  }

  // ----- what a decoded message says about the bytes

  lemma {:induction false} QuestionsTake(w: Bytes, off: nat, count: nat)
    requires Questions(w, off, count).Ok? && off <= |w|
    ensures off + 5 * count <= Questions(w, off, count).value.end <= |w|
    decreases count
  {
    if count > 0 {
      NameFits(w, off);
      QuestionsTake(w, ReadQuestion(w, off).value.end, count - 1);
    }
  }

  lemma {:induction false} RecordsTake(w: Bytes, off: nat, count: nat)
    requires Records(w, off, count).Ok? && count > 0
    ensures off + 11 * count <= |w|
    decreases count
  {
    NameFits(w, off);
    if count > 1 { RecordsTake(w, ReadRecord(w, off).value.end, count - 1); }
  }

  /** A message that decodes has room for what it claims to hold, whatever its record data says. */
  lemma DecodedFits(w: Bytes)
    requires Decode(w).Ok?
    ensures var m := Decode(w).value; 12 + 5 * |m.questions| + 11 * (|m.answers| + |m.authority| + |m.additional|) <= |w|
  {
    BodyFits(w, U16(w, 0), U16(w, 2), U16(w, 4), U16(w, 6), U16(w, 8), U16(w, 10));
  }

  lemma BodyFits(w: Bytes, id: nat, flags: nat, qd: nat, an: nat, ns: nat, ar: nat)
    requires |w| >= 12 && Body(w, id, flags, qd, an, ns, ar).Ok?
    ensures var m := Body(w, id, flags, qd, an, ns, ar).value;
      12 + 5 * |m.questions| + 11 * (|m.answers| + |m.authority| + |m.additional|) <= |w|
  {
    QuestionsTake(w, 12, qd);
    if an + ns + ar > 0 { RecordsTake(w, Questions(w, 12, qd).value.end, an + ns + ar); }
  }

  /** Where a record whose fixed part can be read says that its data ends. */
  function DataEnd(w: Bytes, off: nat): Option<nat> {
    var name := Name(w, off, DEPTH);
    if name.None? || name.value.1 + 10 > |w| then None else Some(name.value.1 + 10 + U16(w, name.value.1 + 8))
  }

  /** Every record that is reached has its data inside the message. */
  predicate DataInside(w: Bytes, off: nat, count: nat)
    decreases count
  {
    count > 0 && DataEnd(w, off).Some? ==> DataEnd(w, off).value <= |w| && DataInside(w, DataEnd(w, off).value, count - 1)
  }

  lemma {:induction false} StringsInside(w: Bytes, pos: nat, end: nat)
    requires end <= |w|
    ensures !Strings(w, pos, end).Fault?
    decreases end - pos
  {
    if pos < end && pos + 1 + w[pos] <= end { StringsInside(w, pos + 1 + w[pos], end); }
  }

  lemma DataReadsInside(w: Bytes, off: nat, len: nat, rtype: nat)
    requires off + len <= |w|
    ensures !Data(w, off, len, rtype).Fault?
  {
    StringsInside(w, off, off + len);
  }

  lemma RecordReadsInside(w: Bytes, off: nat)
    requires DataEnd(w, off).Some? ==> DataEnd(w, off).value <= |w|
    ensures !ReadRecord(w, off).Fault?
    ensures ReadRecord(w, off).Ok? ==> DataEnd(w, off) == Some(ReadRecord(w, off).value.end)
  {
    if DataEnd(w, off).Some? {
      var (name, at) := Name(w, off, DEPTH).value;
      var data := Data(w, at + 10, U16(w, at + 8), U16(w, at));
      DataReadsInside(w, at + 10, U16(w, at + 8), U16(w, at));
      RecordWithData(w, name, at, data);
    }
  }

  lemma RecordWithData(w: Bytes, name: Bytes, at: nat, data: Outcome<RData>)
    requires at + 10 <= |w| && !data.Fault?
    ensures var r := RecordWith(w, name, at, data); !r.Fault? && (r.Ok? ==> r.value.end == at + 10 + U16(w, at + 8))
  {
  }

  lemma {:induction false} RecordsReadInside(w: Bytes, off: nat, count: nat)
    requires DataInside(w, off, count)
    ensures !Records(w, off, count).Fault?
    decreases count
  {
    if count > 0 {
      RecordReadsInside(w, off);
      var one := ReadRecord(w, off);
      if one.Ok? { RecordsReadInside(w, one.value.end, count - 1); }
    }
  }

  lemma {:induction false} QuestionsReadInside(w: Bytes, off: nat, count: nat)
    ensures !Questions(w, off, count).Fault?
    decreases count
  {
    if count > 0 && ReadQuestion(w, off).Ok? { QuestionsReadInside(w, ReadQuestion(w, off).value.end, count - 1); }
  }

  /** Every record that is reached behind the questions has its data inside the message. */
  predicate AllDataInside(w: Bytes, qd: nat, records: nat) {
    var qs := Questions(w, 12, qd);
    qs.Ok? ==> DataInside(w, qs.value.end, records)
  }

  /** Decoding reads outside the message only if some record's data does not lie inside it. */
  lemma DecodeReadsInside(w: Bytes)
    requires |w| >= 12 ==> AllDataInside(w, U16(w, 4), U16(w, 6) + U16(w, 8) + U16(w, 10))
    ensures !Decode(w).Fault?
  {
    if |w| >= 12 { BodyReadsInside(w, U16(w, 0), U16(w, 2), U16(w, 4), U16(w, 6), U16(w, 8), U16(w, 10)); }
  }

  lemma BodyReadsInside(w: Bytes, id: nat, flags: nat, qd: nat, an: nat, ns: nat, ar: nat)
    requires AllDataInside(w, qd, an + ns + ar)
    ensures !Body(w, id, flags, qd, an, ns, ar).Fault?
  {
    QuestionsReadInside(w, 12, qd);
    var qs := Questions(w, 12, qd);
    if qs.Ok? { RecordsReadInside(w, qs.value.end, an + ns + ar); }
  }

  /** The character strings of TXT data lead out of the message before one of them is refused for passing the end of the data. */
  predicate WalkLeaves(w: Bytes, pos: nat, end: nat)
    decreases end - pos
  {
    pos < end && (pos >= |w| || (pos + 1 + w[pos] <= end && (pos + 1 + w[pos] > |w| || WalkLeaves(w, pos + 1 + w[pos], end))))
  }

  lemma {:induction false} StringsFault(w: Bytes, pos: nat, end: nat)
    ensures Strings(w, pos, end).Fault? <==> WalkLeaves(w, pos, end)
    decreases end - pos
  {
    if pos < end && pos < |w| && pos + 1 + w[pos] <= end && pos + 1 + w[pos] <= |w| { StringsFault(w, pos + 1 + w[pos], end); }
  }

  /** A record whose fixed part can be read, with MX data too near the end for its preference or TXT data that leads out of the message. */
  predicate Leaves(w: Bytes, off: nat) {
    DataEnd(w, off).Some? &&
    var at := Name(w, off, DEPTH).value.1;
    var (rtype, len) := (U16(w, at), U16(w, at + 8));
    (rtype == TYPE_MX && len >= 3 && at + 12 > |w|) || (rtype == TYPE_TXT && WalkLeaves(w, at + 10, at + 10 + len))
  }

  lemma RecordFaults(w: Bytes, off: nat)
    ensures ReadRecord(w, off).Fault? <==> Leaves(w, off)
  {
    if DataEnd(w, off).Some? {
      var at := Name(w, off, DEPTH).value.1;
      StringsFault(w, at + 10, at + 10 + U16(w, at + 8));
    }
  }

  /** Where the i-th item of a run stands, if all before it can be read. */
  function Reach<T>(read: nat -> Outcome<Item<T>>, off: nat, i: nat): Option<nat>
    decreases i
  {
    if i == 0 then Some(off) else if read(off).Ok? then Reach(read, read(off).value.end, i - 1) else None
  }

  /** The i-th item is reached and is one of those. */
  predicate Reaches<T>(read: nat -> Outcome<Item<T>>, those: nat -> bool, off: nat, i: nat) {
    Reach(read, off, i).Some? && those(Reach(read, off, i).value)
  }

  lemma {:induction false} RunFaults<T>(read: nat -> Outcome<Item<T>>, those: nat -> bool, off: nat, count: nat)
    requires forall at: nat :: read(at).Fault? <==> those(at)
    ensures Many(read, off, count).Fault? <==> exists i: nat | i < count :: Reaches(read, those, off, i)
    decreases count
  {
    if count > 0 {
      assert Reaches(read, those, off, 0) <==> those(off);
      if read(off).Ok? {
        var next := read(off).value.end;
        RunFaults(read, those, next, count - 1);
        if i: nat :| i < count - 1 && Reaches(read, those, next, i) { assert Reaches(read, those, off, i + 1); }
        if i: nat :| i < count && Reaches(read, those, off, i) { assert i > 0 && Reaches(read, those, next, i - 1); }
      } else {
        assert forall i: nat :: Reaches(read, those, off, i) ==> i == 0;
      }
    }
  }

  function LeavesAt(w: Bytes): nat -> bool { (at: nat) => Leaves(w, at) }

  lemma RecordsFaultIff(w: Bytes, off: nat, count: nat)
    ensures Records(w, off, count).Fault? <==> exists i: nat | i < count :: Reaches(RecordAt(w), LeavesAt(w), off, i)
  {
    var read, those := RecordAt(w), LeavesAt(w);
    forall at: nat ensures read(at).Fault? <==> those(at) { RecordFaults(w, at); }
    RunFaults(read, those, off, count);
  }

  /** Decoding reads outside the message if and only if a record leads out of it before anything is refused. */
  lemma DecodeFaultsIff(w: Bytes)
    ensures Decode(w).Fault? <==>
      |w| >= 12 && Questions(w, 12, U16(w, 4)).Ok? &&
      exists i: nat | i < U16(w, 6) + U16(w, 8) + U16(w, 10) :: Reaches(RecordAt(w), LeavesAt(w), Questions(w, 12, U16(w, 4)).value.end, i)
  {
    if |w| >= 12 {
      QuestionsReadInside(w, 12, U16(w, 4));
      BodyFaultsIff(w, U16(w, 0), U16(w, 2), U16(w, 4), U16(w, 6), U16(w, 8), U16(w, 10));
    }
  }

  lemma BodyFaultsIff(w: Bytes, id: nat, flags: nat, qd: nat, an: nat, ns: nat, ar: nat)
    requires !Questions(w, 12, qd).Fault?
    ensures Body(w, id, flags, qd, an, ns, ar).Fault? <==>
      Questions(w, 12, qd).Ok? && exists i: nat | i < an + ns + ar :: Reaches(RecordAt(w), LeavesAt(w), Questions(w, 12, qd).value.end, i)
  {
    var qs := Questions(w, 12, qd);
    if qs.Ok? {
      RecordsFaultIff(w, qs.value.end, an + ns + ar);
    }
  }

  /** TXT data that the header announces behind the end of the message is read there. */
  lemma DanglingTextFaults(w: Bytes)
    requires w == [0, 0, 0x80, 0, 0, 0, 0, 1, 0, 0, 0, 0] + [0] + [0, TYPE_TXT, 0, CLASS_IN, 0, 0, 0, 0, 0, 1]
    ensures Decode(w).Fault?
  {
    assert w[12] == 0 && w[13] == 0 && w[14] == TYPE_TXT && w[21] == 0 && w[22] == 1;
    assert ReadStretch(w, 12) == Ends([], 13);
    DanglingRecordFaults(w, 12, 13);
    ManyFaults(RecordAt(w), 12, 1);
    BodyFaults(w, U16(w, 0), U16(w, 2), U16(w, 8), U16(w, 10));
  }

  lemma DanglingRecordFaults(w: Bytes, off: nat, at: nat)
    requires ReadStretch(w, off) == Ends([], at) && |w| == at + 10 && U16(w, at) == TYPE_TXT && U16(w, at + 8) > 0
    ensures ReadRecord(w, off).Fault?
  {
    assert Name(w, off, DEPTH) == Some(([], at));
    assert Strings(w, at + 10, at + 10 + U16(w, at + 8)).Fault?;
  }

  lemma BodyFaults(w: Bytes, id: nat, flags: nat, ns: nat, ar: nat)
    requires Many(RecordAt(w), 12, 1).Fault? && ns == 0 && ar == 0
    ensures Body(w, id, flags, 0, 1, ns, ar).Fault?
  {
    assert Questions(w, 12, 0) == Ok(Item([], 12));
  }

  lemma ManyFaults<T>(read: nat -> Outcome<Item<T>>, off: nat, count: nat)
    requires count > 0 && read(off).Fault?
    ensures Many(read, off, count).Fault?
  {
  }

  // ----- queries

  type U16Value = v: int | 0 <= v < 0x1_0000

  function Two(v: U16Value): Bytes { [v / 256, v % 256] }

  function Header(id: U16Value): Bytes { Two(id) + Two(0x0100) + Two(1) + Two(0) + Two(0) + Two(0) }

  /** The wire form of a query. */
  function Query(name: Bytes, qtype: U16Value, id: U16Value): Bytes {
    Header(id) + WireOf(Split(name)) + Two(qtype) + Two(CLASS_IN)
  }

  method EncodeQuery(name: Bytes, qtype: U16Value, id: U16Value) returns (out: Bytes)
    ensures out == Query(name, qtype, id)
  {
    out := Two(id) + Two(0x0100) + Two(1) + Two(0) + Two(0) + Two(0);
    var labels := EncodeName(name);
    out := out + labels;
    out := out + Two(qtype);
    out := out + Two(CLASS_IN);
  }

  lemma ReadTwo(w: Bytes, off: nat, v: U16Value)
    requires At(w, off, Two(v))
    ensures off + 2 <= |w| && U16(w, off) == v
  {
    assert Two(v)[1..] == [v % 256];
    assert At(w, off + 1, [v % 256]);
  }

  lemma QueryHeader(w: Bytes, id: U16Value)
    requires At(w, 0, Header(id))
    ensures |w| >= 12 && U16(w, 0) == id && U16(w, 2) == 0x0100 && U16(w, 4) == 1
    ensures U16(w, 6) == 0 && U16(w, 8) == 0 && U16(w, 10) == 0
  {
    var h := Header(id);
    AtSlice(w, 0, h);
    assert forall i :: 0 <= i < 12 ==> w[i] == w[0..12][i];
  }

  lemma QueryQuestion(w: Bytes, off: nat, labels: seq<Bytes>, qtype: U16Value)
    requires Proper(labels) && At(w, off, Wire(labels) + Two(qtype) + Two(CLASS_IN))
    ensures ReadQuestion(w, off) == Ok(Item(Question(Join(labels), qtype, CLASS_IN), off + |Wire(labels)| + 4))
  {
    AtParts(w, off, Wire(labels) + Two(qtype), Two(CLASS_IN));
    AtParts(w, off, Wire(labels), Two(qtype));
    NameOfWire(w, off, labels);
    var at := off + |Wire(labels)|;
    ReadTwo(w, at, qtype);
    ReadTwo(w, at + 2, CLASS_IN);
  }

  lemma NameOfWire(w: Bytes, off: nat, labels: seq<Bytes>)
    requires Proper(labels) && At(w, off, Wire(labels))
    ensures Name(w, off, DEPTH) == Some((Join(labels), off + |Wire(labels)|))
  {
    StretchOfWire(w, off, labels);
  }

  /**
   Decoding a query gives back its id, recursion desired, no records and one question of its type, whose name is the
   given one with empty labels dropped and long labels cut.
   */
  lemma DecodeInvertsQuery(name: Bytes, qtype: U16Value, id: U16Value)
    ensures Decode(Query(name, qtype, id)) ==
      Ok(Message(id, Flags(false, 0, false, false, true, false, 0), [Question(Carried(name), qtype, CLASS_IN)], [], [], []))
  {
    var labels := Sent(Split(name));
    SentIsProper(Split(name));
    var body := Wire(labels) + Two(qtype) + Two(CLASS_IN);
    var w := Query(name, qtype, id);
    WholeQuery(w, Header(id), Wire(labels), Two(qtype), Two(CLASS_IN));
    QueryHeader(w, id);
    QueryQuestion(w, 12, labels, qtype);
    OneQuestionBody(w, id, ReadQuestion(w, 12).value);
  }

  lemma WholeQuery(w: Bytes, h: Bytes, a: Bytes, b: Bytes, c: Bytes)
    requires w == h + a + b + c
    ensures At(w, 0, h) && At(w, |h|, a + b + c)
  {
    assert w == h + (a + b + c);
    AtWhole(w);
    AtParts(w, 0, h, a + b + c);
  }

  lemma OneQuestionBody(w: Bytes, id: nat, q: Item<Question>)
    requires ReadQuestion(w, 12) == Ok(q)
    ensures Body(w, id, 0x0100, 1, 0, 0, 0) ==
      Ok(Message(id, Flags(false, 0, false, false, true, false, 0), [q.item], [], [], []))
  {
    QueryFlags();
    ManyOne(QuestionAt(w), 12, q);
    assert Records(w, q.end, 0) == Ok(Item([], q.end));
  }

  lemma QueryFlags()
    ensures FlagBits(0x0100) == Flags(false, 0, false, false, true, false, 0)
  {
    assert Shr(0x0100, 7) == 2 && Shr(0x0100, 8) == 1 && Shr(0x0100, 9) == 0 && Shr(0x0100, 10) == 0;
    assert Shr(0x0100, 11) == 0 && Shr(0x0100, 15) == 0;
  }

  lemma ManyOne<T>(read: nat -> Outcome<Item<T>>, off: nat, one: Item<T>)
    requires read(off) == Ok(one)
    ensures Many(read, off, 1) == Ok(Item([one.item], one.end))
  {
    assert Many(read, one.end, 0) == Ok(Item([], one.end));
    assert [one.item] + [] == [one.item];
  }
}
