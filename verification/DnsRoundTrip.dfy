/**
 An independent reference for the decoder of src/dns/message.cpp: the uncompressed wire form of a whole message
 (section 4.1 of RFC 1035), which the decoder reads back field by field.
 */
module DnsRoundTrip {
  import opened Common
  import opened Bits
  import opened DnsName
  import opened DnsMessage

  // ----- flags

  function B(b: bool): nat { if b then 1 else 0 }

  /** The flag bits above the response code, from the top down to each flag. */
  function UpToOpcode(f: Flags): nat { B(f.qr) * 16 + f.opcode }
  function UpToAa(f: Flags): nat { UpToOpcode(f) * 2 + B(f.aa) }
  function UpToTc(f: Flags): nat { UpToAa(f) * 2 + B(f.tc) }
  function UpToRd(f: Flags): nat { UpToTc(f) * 2 + B(f.rd) }
  function UpToRa(f: Flags): nat { UpToRd(f) * 2 + B(f.ra) }

  predicate FlagsOk(f: Flags) { f.opcode < 16 && f.rcode < 16 }

  function FlagWord(f: Flags): (v: U16Value)
    requires FlagsOk(f)
  {
    UpToRa(f) * 128 + f.rcode
  }

  lemma Sevenfold(x: nat)
    ensures Shl(x, 7) == x * 128 && Pow2(7) == 128
  {
    assert Shl(x, 1) == 2 * x && Shl(x, 2) == 2 * Shl(x, 1) && Shl(x, 3) == 2 * Shl(x, 2);
    assert Shl(x, 4) == 2 * Shl(x, 3) && Shl(x, 5) == 2 * Shl(x, 4) && Shl(x, 6) == 2 * Shl(x, 5);
  }

  lemma LowBit(x: nat, b: bool)
    ensures (x * 2 + B(b)) % 2 == 1 <==> b
    ensures (x * 2 + B(b)) / 2 == x
  {
  }

  lemma LowNibble(hi: nat, lo: nat)
    requires lo < 16
    ensures (hi * 16 + lo) % 16 == lo
  {
  }

  // Each flag, shifted to the bottom of the word.

  lemma RaBack(f: Flags)
    requires FlagsOk(f)
    ensures Shr(FlagWord(f), 7) == UpToRa(f) && (UpToRa(f) % 2 == 1 <==> f.ra)
  {
    Sevenfold(UpToRa(f));
    ShrBack(UpToRa(f), f.rcode, 7);
    LowBit(UpToRd(f), f.ra);
  }

  lemma RdBack(f: Flags)
    requires FlagsOk(f)
    ensures Shr(FlagWord(f), 8) == UpToRd(f) && (UpToRd(f) % 2 == 1 <==> f.rd)
  {
    RaBack(f);
    ShrNext(FlagWord(f), 7);
    LowBit(UpToRd(f), f.ra);
    LowBit(UpToTc(f), f.rd);
  }

  lemma TcBack(f: Flags)
    requires FlagsOk(f)
    ensures Shr(FlagWord(f), 9) == UpToTc(f) && (UpToTc(f) % 2 == 1 <==> f.tc)
  {
    RdBack(f);
    ShrNext(FlagWord(f), 8);
    LowBit(UpToTc(f), f.rd);
    LowBit(UpToAa(f), f.tc);
  }

  lemma AaBack(f: Flags)
    requires FlagsOk(f)
    ensures Shr(FlagWord(f), 10) == UpToAa(f) && (UpToAa(f) % 2 == 1 <==> f.aa)
  {
    TcBack(f);
    ShrNext(FlagWord(f), 9);
    LowBit(UpToAa(f), f.tc);
    LowBit(UpToOpcode(f), f.aa);
  }

  lemma OpcodeBack(f: Flags)
    requires FlagsOk(f)
    ensures Shr(FlagWord(f), 11) == UpToOpcode(f) && UpToOpcode(f) % 16 == f.opcode
  {
    AaBack(f);
    ShrNext(FlagWord(f), 10);
    LowBit(UpToOpcode(f), f.aa);
    LowNibble(B(f.qr), f.opcode);
  }

  lemma QrBack(f: Flags)
    requires FlagsOk(f)
    ensures Shr(FlagWord(f), 15) == B(f.qr)
  {
    OpcodeBack(f);
    FourMore(FlagWord(f), 11);
  }

  lemma FourMore(v: nat, k: nat)
    ensures Shr(v, k + 4) == Shr(v, k) / 16
  {
    ShrNext(v, k);
    ShrNext(v, k + 1);
    ShrNext(v, k + 2);
    ShrNext(v, k + 3);
  }

  lemma RcodeBack(f: Flags)
    requires FlagsOk(f)
    ensures FlagWord(f) % 16 == f.rcode
  {
    LowNibble(UpToRa(f) * 8, f.rcode);
  }

  lemma FlagsBack(f: Flags)
    requires FlagsOk(f)
    ensures FlagBits(FlagWord(f)) == f
  {
    RaBack(f);
    RdBack(f);
    TcBack(f);
    AaBack(f);
    OpcodeBack(f);
    QrBack(f);
    RcodeBack(f);
    FromFields(FlagWord(f), f);
  }

  lemma FromFields(v: nat, f: Flags)
    requires Shr(v, 15) % 2 == B(f.qr) && Shr(v, 11) % 16 == f.opcode && v % 16 == f.rcode
    requires (Shr(v, 10) % 2 == 1 <==> f.aa) && (Shr(v, 9) % 2 == 1 <==> f.tc) && (Shr(v, 8) % 2 == 1 <==> f.rd) && (Shr(v, 7) % 2 == 1 <==> f.ra)
    ensures FlagBits(v) == f
  {
  }

  // ----- names and record data

  /** A name whose labels all fit. */
  predicate NameOk(name: Bytes) { name == [] || Proper(Split(name)) }

  function NameWire(name: Bytes): Bytes { WireOf(Split(name)) }

  lemma NameBack(w: Bytes, off: nat, name: Bytes)
    requires NameOk(name) && At(w, off, NameWire(name))
    ensures Name(w, off, DEPTH) == Some((name, off + |NameWire(name)|))
  {
    SentIsProper(Split(name));
    CarriedUnchanged(name);
    SentBack(w, off, Sent(Split(name)), NameWire(name), name);
  }

  lemma SentBack(w: Bytes, off: nat, labels: seq<Bytes>, wire: Bytes, name: Bytes)
    requires Proper(labels) && wire == Wire(labels) && At(w, off, wire) && Join(labels) == name
    ensures Name(w, off, DEPTH) == Some((name, off + |wire|))
  {
    NameOfWire(w, off, labels);
  }

  /** A text in character strings of at most 255 bytes. */
  function StringsWire(text: Bytes): Bytes {
    if text == [] then []
    else if |text| <= 255 then [|text|] + text
    else [255] + text[..255] + StringsWire(text[255..])
  }

  lemma OneString(w: Bytes, pos: nat, s: Bytes, end: nat)
    requires |s| <= 255 && At(w, pos, [|s|] + s) && pos + 1 + |s| <= end
    ensures Strings(w, pos, end) == After(s, Strings(w, pos + 1 + |s|, end))
  {
    AtCounted(w, pos, s);
  }

  lemma {:induction false} StringsBack(w: Bytes, pos: nat, text: Bytes)
    requires At(w, pos, StringsWire(text))
    ensures Strings(w, pos, pos + |StringsWire(text)|) == Ok(text)
    decreases |text|
  {
    if text != [] {
      var end := pos + |StringsWire(text)|;
      if |text| <= 255 {
        OneString(w, pos, text, end);
        assert text + [] == text;
      } else {
        var first, rest := text[..255], text[255..];
        AtParts(w, pos, [|first|] + first, StringsWire(rest));
        OneString(w, pos, first, end);
        StringsBack(w, pos + 256, rest);
        assert first + rest == text;
      }
    }
  }

  predicate DataOk(d: RData) {
    match d
    case A(addr) => |addr| == 4
    case AAAA(addr) => |addr| == 16
    case MX(preference, exchange) => preference < 0x1_0000 && NameOk(exchange)
    case TXT(_) => true
    case CNAME(name) => NameOk(name)
    case NS(name) => NameOk(name)
  }

  function TypeOf(d: RData): U16Value {
    match d
    case A(_) => TYPE_A
    case AAAA(_) => TYPE_AAAA
    case MX(_, _) => TYPE_MX
    case TXT(_) => TYPE_TXT
    case CNAME(_) => TYPE_CNAME
    case NS(_) => TYPE_NS
  }

  function DataWire(d: RData): Bytes
    requires DataOk(d)
  {
    match d
    case A(addr) => addr
    case AAAA(addr) => addr
    case MX(preference, exchange) => Two(preference) + NameWire(exchange)
    case TXT(text) => StringsWire(text)
    case CNAME(name) => NameWire(name)
    case NS(name) => NameWire(name)
  }

  lemma NameWireNotEmpty(name: Bytes)
    ensures |NameWire(name)| >= 1
  {
    SentIsProper(Split(name));
  }

  lemma MxBack(w: Bytes, off: nat, preference: U16Value, exchange: Bytes)
    requires NameOk(exchange) && At(w, off, Two(preference) + NameWire(exchange))
    ensures Data(w, off, 2 + |NameWire(exchange)|, TYPE_MX) == Ok(MX(preference, exchange))
  {
    AtParts(w, off, Two(preference), NameWire(exchange));
    ReadTwo(w, off, preference);
    NameWireNotEmpty(exchange);
    NameBack(w, off + 2, exchange);
  }

  lemma DataBack(w: Bytes, off: nat, d: RData)
    requires DataOk(d) && At(w, off, DataWire(d))
    ensures Data(w, off, |DataWire(d)|, TypeOf(d)) == Ok(d)
  {
    match d
    case A(addr) => AtSlice(w, off, addr);
    case AAAA(addr) => AtSlice(w, off, addr);
    case MX(preference, exchange) => MxBack(w, off, preference, exchange);
    case TXT(text) => StringsBack(w, off, text);
    case CNAME(name) => NameBack(w, off, name);
    case NS(name) => NameBack(w, off, name);
  }

  // ----- questions and records

  predicate QuestionOk(q: Question) { NameOk(q.name) && q.qtype < 0x1_0000 && q.qclass < 0x1_0000 }

  function QuestionWire(q: Question): Bytes
    requires QuestionOk(q)
  {
    NameWire(q.name) + (Two(q.qtype) + Two(q.qclass))
  }

  lemma QuestionBack(w: Bytes, off: nat, q: Question)
    requires QuestionOk(q) && At(w, off, QuestionWire(q))
    ensures ReadQuestion(w, off) == Ok(Item(q, off + |QuestionWire(q)|))
  {
    var at := off + |NameWire(q.name)|;
    AtParts(w, off, NameWire(q.name), Two(q.qtype) + Two(q.qclass));
    AtParts(w, at, Two(q.qtype), Two(q.qclass));
    NameBack(w, off, q.name);
    ReadTwo(w, at, q.qtype);
    ReadTwo(w, at + 2, q.qclass);
  }

  const TTL_LIMIT := 0x1_0000_0000

  function Four(v: nat): Bytes
    requires v < TTL_LIMIT
  {
    Two(v / 0x1_0000) + Two(v % 0x1_0000)
  }

  lemma BigIsWord(w: Bytes, off: nat)
    requires off + 4 <= |w|
    ensures Big(w, off, 4) == U16(w, off) * 0x1_0000 + U16(w, off + 2)
  {
    assert Big(w, off, 1) == w[off];
    assert Big(w, off, 2) == U16(w, off);
    assert Big(w, off, 3) == U16(w, off) * 256 + w[off + 2];
  }

  predicate RecordOk(r: Record) {
    NameOk(r.name) && DataOk(r.rdata) && r.rtype == TypeOf(r.rdata) && r.rclass < 0x1_0000 && r.ttl < TTL_LIMIT &&
    |DataWire(r.rdata)| < 0x1_0000
  }

  /** Type, class, time to live and the length of the data. */
  function Fixed(r: Record): Bytes
    requires RecordOk(r)
  {
    (Two(r.rtype) + Two(r.rclass)) + (Four(r.ttl) + Two(|DataWire(r.rdata)|))
  }

  function RecordWire(r: Record): Bytes
    requires RecordOk(r)
  {
    NameWire(r.name) + (Fixed(r) + DataWire(r.rdata))
  }

  lemma FixedBack(w: Bytes, at: nat, r: Record)
    requires RecordOk(r) && At(w, at, Fixed(r))
    ensures at + 10 <= |w| && U16(w, at) == r.rtype && U16(w, at + 2) == r.rclass && Big(w, at + 4, 4) == r.ttl
    ensures U16(w, at + 8) == |DataWire(r.rdata)|
  {
    var len := |DataWire(r.rdata)|;
    AtParts(w, at, Two(r.rtype) + Two(r.rclass), Four(r.ttl) + Two(len));
    AtParts(w, at, Two(r.rtype), Two(r.rclass));
    AtParts(w, at + 4, Four(r.ttl), Two(len));
    AtParts(w, at + 4, Two(r.ttl / 0x1_0000), Two(r.ttl % 0x1_0000));
    ReadTwo(w, at, r.rtype);
    ReadTwo(w, at + 2, r.rclass);
    ReadTwo(w, at + 4, r.ttl / 0x1_0000);
    ReadTwo(w, at + 6, r.ttl % 0x1_0000);
    ReadTwo(w, at + 8, len);
    BigIsWord(w, at + 4);
  }

  lemma RecordFields(w: Bytes, off: nat, at: nat, len: nat, r: Record)
    requires Name(w, off, DEPTH) == Some((r.name, at)) && at + 10 <= |w|
    requires U16(w, at) == r.rtype && U16(w, at + 2) == r.rclass && Big(w, at + 4, 4) == r.ttl && U16(w, at + 8) == len
    requires Data(w, at + 10, len, r.rtype) == Ok(r.rdata)
    ensures ReadRecord(w, off) == Ok(Item(r, at + 10 + len))
  {
  }

  lemma RecordBack(w: Bytes, off: nat, r: Record)
    requires RecordOk(r) && At(w, off, RecordWire(r))
    ensures ReadRecord(w, off) == Ok(Item(r, off + |RecordWire(r)|))
  {
    var name, fixed, data := NameWire(r.name), Fixed(r), DataWire(r.rdata);
    var at := off + |name|;
    AtParts(w, off, name, fixed + data);
    AtParts(w, at, fixed, data);
    NameBack(w, off, r.name);
    FixedBack(w, at, r);
    DataBack(w, at + 10, r.rdata);
    RecordFields(w, off, at, |data|, r);
  }

  // ----- whole messages

  /** Items written one after the other. */
  function All<T>(write: T -> Bytes, xs: seq<T>): Bytes { if xs == [] then [] else write(xs[0]) + All(write, xs[1..]) }

  /** The bytes are read as the item wherever they stand. */
  ghost predicate ReadsAs<T(!new)>(w: Bytes, read: nat -> Outcome<Item<T>>, b: Bytes, x: T) {
    forall off: nat | At(w, off, b) :: read(off) == Ok(Item(x, off + |b|))
  }

  ghost predicate AllReadBack<T(!new)>(w: Bytes, read: nat -> Outcome<Item<T>>, write: T -> Bytes, xs: seq<T>) {
    xs == [] || (ReadsAs(w, read, write(xs[0]), xs[0]) && AllReadBack(w, read, write, xs[1..]))
  }

  lemma {:induction false} ManyBack<T(!new)>(w: Bytes, read: nat -> Outcome<Item<T>>, write: T -> Bytes, xs: seq<T>, off: nat)
    requires AllReadBack(w, read, write, xs) && At(w, off, All(write, xs))
    ensures Many(read, off, |xs|) == Ok(Item(xs, off + |All(write, xs)|))
    decreases |xs|
  {
    if xs != [] {
      var x, rest := xs[0], xs[1..];
      var next := off + |write(x)|;
      AtParts(w, off, write(x), All(write, rest));
      assert read(off) == Ok(Item(x, next));
      ManyBack(w, read, write, rest, next);
      assert xs == [x] + rest;
    }
  }

  lemma ThreeParts(w: Bytes, a: Bytes, b: Bytes, c: Bytes)
    requires w == a + (b + c)
    ensures At(w, 0, a) && At(w, |a|, b) && At(w, |a| + |b|, c)
  {
    AtWhole(w);
    AtParts(w, 0, a, b + c);
    AtParts(w, |a|, b, c);
  }

  function WriteQuestion(q: Question): Bytes { if QuestionOk(q) then QuestionWire(q) else [] }
  function WriteRecord(r: Record): Bytes { if RecordOk(r) then RecordWire(r) else [] }

  predicate QuestionsOk(qs: seq<Question>) { forall i :: 0 <= i < |qs| ==> QuestionOk(qs[i]) }
  predicate RecordsOk(rs: seq<Record>) { forall i :: 0 <= i < |rs| ==> RecordOk(rs[i]) }

  lemma QuestionReadsAnywhere(w: Bytes, x: Question, b: Bytes)
    requires QuestionOk(x) && b == QuestionWire(x)
    ensures ReadsAs(w, QuestionAt(w), b, x)
  {
    forall at: nat | At(w, at, b) ensures ReadQuestion(w, at) == Ok(Item(x, at + |b|)) { QuestionBack(w, at, x); }
  }

  lemma {:induction false} QuestionsReadBack(w: Bytes, xs: seq<Question>)
    requires QuestionsOk(xs)
    ensures AllReadBack(w, QuestionAt(w), WriteQuestion, xs)
    decreases |xs|
  {
    if xs != [] {
      QuestionReadsAnywhere(w, xs[0], WriteQuestion(xs[0]));
      QuestionsReadBack(w, xs[1..]);
    }
  }

  lemma RecordReadsAnywhere(w: Bytes, x: Record, b: Bytes)
    requires RecordOk(x) && b == RecordWire(x)
    ensures ReadsAs(w, RecordAt(w), b, x)
  {
    forall at: nat | At(w, at, b) ensures ReadRecord(w, at) == Ok(Item(x, at + |b|)) { RecordBack(w, at, x); }
  }

  lemma {:induction false} RecordsReadBack(w: Bytes, xs: seq<Record>)
    requires RecordsOk(xs)
    ensures AllReadBack(w, RecordAt(w), WriteRecord, xs)
    decreases |xs|
  {
    if xs != [] {
      RecordReadsAnywhere(w, xs[0], WriteRecord(xs[0]));
      RecordsReadBack(w, xs[1..]);
    }
  }

  /** The three record sections, one after the other. */
  function Sections3(m: Message): seq<Record> { m.answers + m.authority + m.additional }

  predicate MessageOk(m: Message) {
    m.id < 0x1_0000 && FlagsOk(m.flags) && QuestionsOk(m.questions) &&
    |m.questions| < 0x1_0000 && |m.answers| < 0x1_0000 && |m.authority| < 0x1_0000 && |m.additional| < 0x1_0000 &&
    RecordsOk(Sections3(m))
  }

  function HeaderWire(m: Message): Bytes
    requires MessageOk(m)
  {
    Two(m.id) + Two(FlagWord(m.flags)) + Two(|m.questions|) + Two(|m.answers|) + Two(|m.authority|) + Two(|m.additional|)
  }

  /** The uncompressed wire form of a message. */
  function MessageWire(m: Message): Bytes
    requires MessageOk(m)
  {
    HeaderWire(m) + (All(WriteQuestion, m.questions) + All(WriteRecord, Sections3(m)))
  }

  lemma HeaderBack(w: Bytes, m: Message)
    requires MessageOk(m) && At(w, 0, HeaderWire(m))
    ensures |w| >= 12 && U16(w, 0) == m.id && U16(w, 2) == FlagWord(m.flags) && U16(w, 4) == |m.questions|
    ensures U16(w, 6) == |m.answers| && U16(w, 8) == |m.authority| && U16(w, 10) == |m.additional|
  {
    HeaderFields(w, m.id, FlagWord(m.flags), |m.questions|, |m.answers|, |m.authority|, |m.additional|);
  }

  lemma HeaderFields(w: Bytes, a: U16Value, b: U16Value, c: U16Value, d: U16Value, e: U16Value, f: U16Value)
    requires At(w, 0, Two(a) + Two(b) + Two(c) + Two(d) + Two(e) + Two(f))
    ensures |w| >= 12 && U16(w, 0) == a && U16(w, 2) == b && U16(w, 4) == c && U16(w, 6) == d && U16(w, 8) == e && U16(w, 10) == f
  {
    var h := Two(a) + Two(b) + Two(c) + Two(d) + Two(e) + Two(f);
    AtSlice(w, 0, h);
    assert forall i :: 0 <= i < 12 ==> w[i] == w[0..12][i];
  }

  lemma SectionsBack(an: seq<Record>, ns: seq<Record>, ar: seq<Record>, end: nat)
    ensures Cut3(Ok(Item(an + ns + ar, end)), |an|, |ns|) == Ok((an, ns, ar))
  {
    var all := an + ns + ar;
    assert all[..|an|] == an && all[|an|..|an| + |ns|] == ns && all[|an| + |ns|..] == ar;
  }

  /** A body whose items stand where they were written and are read back by the readers. */
  lemma BodyBack(w: Bytes, m: Message, flags: nat, readQ: nat -> Outcome<Item<Question>>, readR: nat -> Outcome<Item<Record>>,
                 writeQ: Question -> Bytes, writeR: Record -> Bytes, q: Bytes, r: Bytes)
    requires FlagBits(flags) == m.flags && q == All(writeQ, m.questions) && r == All(writeR, Sections3(m))
    requires At(w, 12, q) && At(w, 12 + |q|, r)
    requires AllReadBack(w, readQ, writeQ, m.questions) && AllReadBack(w, readR, writeR, Sections3(m))
    ensures BodyOf(readQ, readR, m.id, flags, |m.questions|, |m.answers|, |m.authority|, |m.additional|) == Ok(m)
  {
    ManyBack(w, readQ, writeQ, m.questions, 12);
    ManyBack(w, readR, writeR, Sections3(m), 12 + |q|);
    BodyFrom(readQ, readR, m, flags, 12 + |q|, 12 + |q| + |r|);
  }

  lemma BodyFrom(readQ: nat -> Outcome<Item<Question>>, readR: nat -> Outcome<Item<Record>>, m: Message, flags: nat, off: nat, end: nat)
    requires FlagBits(flags) == m.flags && Many(readQ, 12, |m.questions|) == Ok(Item(m.questions, off))
    requires Many(readR, off, |Sections3(m)|) == Ok(Item(Sections3(m), end))
    ensures BodyOf(readQ, readR, m.id, flags, |m.questions|, |m.answers|, |m.authority|, |m.additional|) == Ok(m)
  {
    SectionsBack(m.answers, m.authority, m.additional, end);
  }

  lemma WrittenBack(w: Bytes, m: Message, flags: nat, q: Bytes, r: Bytes)
    requires FlagBits(flags) == m.flags && q == All(WriteQuestion, m.questions) && r == All(WriteRecord, Sections3(m))
    requires At(w, 12, q) && At(w, 12 + |q|, r) && QuestionsOk(m.questions) && RecordsOk(Sections3(m))
    ensures Body(w, m.id, flags, |m.questions|, |m.answers|, |m.authority|, |m.additional|) == Ok(m)
  {
    QuestionsReadBack(w, m.questions);
    RecordsReadBack(w, Sections3(m));
    BodyBack(w, m, flags, QuestionAt(w), RecordAt(w), WriteQuestion, WriteRecord, q, r);
  }

  /** Decoding gives back every message that can be written: all fields, all sections, in order. */
  lemma DecodeInvertsWrite(m: Message)
    requires MessageOk(m)
    ensures Decode(MessageWire(m)) == Ok(m)
  {
    var w := MessageWire(m);
    FlagsBack(m.flags);
    var q, r := All(WriteQuestion, m.questions), All(WriteRecord, Sections3(m));
    ThreeParts(w, HeaderWire(m), q, r);
    HeaderBack(w, m);
    WrittenBack(w, m, FlagWord(m.flags), q, r);
  }
}
