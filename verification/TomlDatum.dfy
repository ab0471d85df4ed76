/**
 TOML trees (src/utils/config/tomlc17.c): tab_find, tab_emplace, datum_copy, datum_merge and datum_equiv.
 A tree denotes a Value, in which tables are maps and timestamps keep only the fields their type has; comparison
 and merging are stated on values.
 */
module TomlDatum {
  import opened Common

  const TABLE_MAX := 16384
  const ARRAY_MAX := 16384

  datatype Float = NaN | NegativeInfinity | PositiveInfinity | Finite(value: real)

  datatype Stamp = Stamp(year: int, month: int, day: int, hour: int, minute: int, second: int, usec: int, tz: int)

  datatype Datum =
    | Unknown
    | Str(text: string)
    | Int64(i: int)
    | Fp64(f: Float)
    | Boolean(b: bool)
    | Date(ts: Stamp)
    | Time(ts: Stamp)
    | DateTime(ts: Stamp)
    | DateTimeTz(ts: Stamp)
    | Arr(elems: seq<Datum>)
    | Tab(entries: seq<Entry>)

  datatype Entry = Entry(key: string, value: Datum)

  /** toml_type_t. */
  predicate SameType(a: Datum, b: Datum) {
    match a
    case Unknown => b.Unknown?
    case Str(_) => b.Str?
    case Int64(_) => b.Int64?
    case Fp64(_) => b.Fp64?
    case Boolean(_) => b.Boolean?
    case Date(_) => b.Date?
    case Time(_) => b.Time?
    case DateTime(_) => b.DateTime?
    case DateTimeTz(_) => b.DateTimeTz?
    case Arr(_) => b.Arr?
    case Tab(_) => b.Tab?
  }

  // ----- what a tree means

  datatype Value =
    | NoValue
    | VStr(text: string)
    | VInt(i: int)
    | VFloat(f: Float)
    | VBool(b: bool)
    | VDate(day: (int, int, int))
    | VTime(time: (int, int, int, int))
    | VDateTime(day: (int, int, int), time: (int, int, int, int))
    | VDateTimeTz(day: (int, int, int), time: (int, int, int, int), tz: int)
    | VArr(elems: seq<Value>)
    | VTab(m: map<string, Value>)

  function Day(t: Stamp): (int, int, int) { (t.year, t.month, t.day) }
  function Clock(t: Stamp): (int, int, int, int) { (t.hour, t.minute, t.second, t.usec) }

  function Denote(d: Datum): Value
    decreases d, 1
  {
    match d
    case Unknown => NoValue
    case Str(text) => VStr(text)
    case Int64(i) => VInt(i)
    case Fp64(f) => VFloat(f)
    case Boolean(b) => VBool(b)
    case Date(t) => VDate(Day(t))
    case Time(t) => VTime(Clock(t))
    case DateTime(t) => VDateTime(Day(t), Clock(t))
    case DateTimeTz(t) => VDateTimeTz(Day(t), Clock(t), t.tz)
    case Arr(elems) => VArr(seq(|elems|, i requires 0 <= i < |elems| => Denote(elems[i])))
    case Tab(entries) => VTab(DenoteTable(entries))
  }

  /** As a lookup sees it: the first entry with a key gives its value. */
  function DenoteTable(es: seq<Entry>): map<string, Value>
    decreases es, 0
  {
    if es == [] then map[] else DenoteTable(es[1..])[es[0].key := Denote(es[0].value)]
  }

  predicate UniqueKeys(es: seq<Entry>) {
    forall i, j :: 0 <= i < j < |es| ==> es[i].key != es[j].key
  }

  /** What the parser builds: no unknown values, unique keys, and sizes within the limits. */
  predicate WellFormed(d: Datum)
    decreases d
  {
    match d
    case Unknown => false
    case Arr(elems) => |elems| <= ARRAY_MAX && forall i :: 0 <= i < |elems| ==> WellFormed(elems[i])
    case Tab(es) => |es| <= TABLE_MAX && UniqueKeys(es) && forall i :: 0 <= i < |es| ==> WellFormed(es[i].value)
    case _ => true
  }

  predicate WellFormedTable(es: seq<Entry>) {
    |es| <= TABLE_MAX && UniqueKeys(es) && forall i :: 0 <= i < |es| ==> WellFormed(es[i].value)
  }

  // ----- lookup

  /** The first index that holds `key`, or |es|. */
  function Index(es: seq<Entry>, key: string): (i: nat)
    ensures i <= |es|
    ensures i < |es| ==> es[i].key == key
    ensures forall j :: 0 <= j < i ==> es[j].key != key
  {
    if es == [] || es[0].key == key then 0 else 1 + Index(es[1..], key)
  }

  /** tab_find. */
  method TabFind(es: seq<Entry>, key: string) returns (i: int)
    ensures -1 <= i < |es|
    ensures i >= 0 ==> es[i].key == key && forall j :: 0 <= j < i ==> es[j].key != key
    ensures i == -1 ==> forall j :: 0 <= j < |es| ==> es[j].key != key
  {
    i := 0;
    while i < |es|
      invariant 0 <= i <= |es|
      invariant forall j :: 0 <= j < i ==> es[j].key != key
    {
      if es[i].key == key { return; }
      i := i + 1;
    }
    i := -1;
  }

  lemma {:induction false} DenoteAt(es: seq<Entry>, key: string)
    ensures key in DenoteTable(es) <==> Index(es, key) < |es|
    ensures key in DenoteTable(es) ==> DenoteTable(es)[key] == Denote(es[Index(es, key)].value)
  {
    if es != [] && es[0].key != key { DenoteAt(es[1..], key); }
  }

  lemma {:induction false} DenoteSize(es: seq<Entry>)
    requires UniqueKeys(es)
    ensures |DenoteTable(es)| == |es|
  {
    if es != [] {
      DenoteSize(es[1..]);
      DenoteAt(es[1..], es[0].key);
      assert DenoteTable(es).Keys == DenoteTable(es[1..]).Keys + {es[0].key};
    }
  }

  // ----- comparison

  /** datum_equiv. */
  predicate Equiv(a: Datum, b: Datum)
    decreases a
  {
    SameType(a, b) &&
    match a
    case Unknown => false
    case Str(text) => text == b.text
    case Int64(i) => i == b.i
    case Fp64(f) => f == b.f
    case Boolean(v) => v == b.b
    case Date(t) => Day(t) == Day(b.ts)
    case Time(t) => Clock(t) == Clock(b.ts)
    case DateTime(t) => Day(t) == Day(b.ts) && Clock(t) == Clock(b.ts)
    case DateTimeTz(t) => Day(t) == Day(b.ts) && Clock(t) == Clock(b.ts) && t.tz == b.ts.tz
    case Arr(elems) => |elems| == |b.elems| && forall i :: 0 <= i < |elems| ==> Equiv(elems[i], b.elems[i])
    case Tab(es) => |es| == |b.entries| && forall i :: 0 <= i < |es| ==> Found(b.entries, es[i].key) && Equiv(es[i].value, Held(b.entries, es[i].key))
  }

  predicate Found(es: seq<Entry>, key: string) { Index(es, key) < |es| }

  function Held(es: seq<Entry>, key: string): Datum
    requires Found(es, key)
  {
    es[Index(es, key)].value
  }

  /** The loops of datum_equiv. */
  method DatumEquiv(a: Datum, b: Datum) returns (r: bool)
    ensures r == Equiv(a, b)
    decreases a
  {
    if !SameType(a, b) { return false; }
    match a {
      case Arr(elems) =>
        if |elems| != |b.elems| { return false; }
        var i := 0;
        while i < |elems|
          invariant 0 <= i <= |elems|
          invariant forall k :: 0 <= k < i ==> Equiv(elems[k], b.elems[k])
        {
          var same := DatumEquiv(elems[i], b.elems[i]);
          if !same { return false; }
          i := i + 1;
        }
        return true;
      case Tab(es) =>
        if |es| != |b.entries| { return false; }
        var i := 0;
        while i < |es|
          invariant 0 <= i <= |es|
          invariant forall k :: 0 <= k < i ==> Found(b.entries, es[k].key) && Equiv(es[k].value, Held(b.entries, es[k].key))
        {
          var j := 0;
          while j < |es| && es[i].key != b.entries[j].key
            invariant 0 <= j <= |es|
            invariant forall k :: 0 <= k < j ==> b.entries[k].key != es[i].key
          {
            j := j + 1;
          }
          if j == |es| { return false; }
          assert j == Index(b.entries, es[i].key);
          var same := DatumEquiv(es[i].value, b.entries[j].value);
          if !same { return false; }
          i := i + 1;
        }
        return true;
      case _ => return Equiv(a, b);
    }
  }

  /** Equal sizes and a one-way key match make the key sets equal: the pigeonhole behind the comparison of tables. */
  lemma SameKeys(xs: seq<Entry>, ys: seq<Entry>)
    requires UniqueKeys(xs) && UniqueKeys(ys) && |xs| == |ys|
    requires forall i :: 0 <= i < |xs| ==> Found(ys, xs[i].key)
    ensures DenoteTable(xs).Keys == DenoteTable(ys).Keys
  {
    DenoteSize(xs);
    DenoteSize(ys);
    var kx, ky := DenoteTable(xs).Keys, DenoteTable(ys).Keys;
    forall k | k in kx ensures k in ky {
      DenoteAt(xs, k);
      DenoteAt(ys, k);
    }
    assert ky == kx + (ky - kx);
  }

  /** On well-formed trees datum_equiv decides equality of what they denote. */
  lemma {:induction false} EquivIsEquality(a: Datum, b: Datum)
    requires WellFormed(a) && WellFormed(b)
    ensures Equiv(a, b) <==> Denote(a) == Denote(b)
    decreases a
  {
    if a.Arr? && b.Arr? {
      ArraysEquiv(a, b);
    } else if a.Tab? && b.Tab? {
      TablesEquiv(a, b);
    }
  }

  lemma {:induction false} ArraysEquiv(a: Datum, b: Datum)
    requires WellFormed(a) && WellFormed(b) && a.Arr? && b.Arr?
    ensures Equiv(a, b) <==> Denote(a) == Denote(b)
    decreases a, 0
  {
    if |a.elems| == |b.elems| {
      forall i | 0 <= i < |a.elems| ensures Equiv(a.elems[i], b.elems[i]) <==> Denote(a).elems[i] == Denote(b).elems[i] {
        EquivIsEquality(a.elems[i], b.elems[i]);
      }
    }
  }

  lemma {:induction false} TablesEquiv(a: Datum, b: Datum)
    requires WellFormed(a) && WellFormed(b) && a.Tab? && b.Tab?
    ensures Equiv(a, b) <==> Denote(a) == Denote(b)
    decreases a, 0
  {
    var xs, ys := a.entries, b.entries;
    var mx, my := DenoteTable(xs), DenoteTable(ys);
    forall i | 0 <= i < |xs|
      ensures xs[i].key in mx && mx[xs[i].key] == Denote(xs[i].value)
      ensures Found(ys, xs[i].key) <==> xs[i].key in my
      ensures Found(ys, xs[i].key) ==> (Equiv(xs[i].value, Held(ys, xs[i].key)) <==> mx[xs[i].key] == my[xs[i].key])
    {
      DenoteAt(xs, xs[i].key);
      DenoteAt(ys, xs[i].key);
      if Found(ys, xs[i].key) { EquivIsEquality(xs[i].value, Held(ys, xs[i].key)); }
    }
    if Equiv(a, b) {
      SameKeys(xs, ys);
      forall k | k in mx ensures mx[k] == my[k] { DenoteAt(xs, k); }
    }
    if mx == my {
      DenoteSize(xs);
      DenoteSize(ys);
    }
  }

  lemma EquivIsEquivalence(a: Datum, b: Datum, c: Datum)
    requires WellFormed(a) && WellFormed(b) && WellFormed(c)
    ensures Equiv(a, a)
    ensures Equiv(a, b) ==> Equiv(b, a)
    ensures Equiv(a, b) && Equiv(b, c) ==> Equiv(a, c)
  {
    EquivIsEquality(a, a);
    EquivIsEquality(a, b);
    EquivIsEquality(b, a);
    EquivIsEquality(b, c);
    EquivIsEquality(a, c);
  }

  // ----- copying and merging

  /** tab_emplace: the table with a slot for `key`, new ones at the end and zeroed, and the slot's index. */
  function Emplace(es: seq<Entry>, key: string): (r: Option<(seq<Entry>, nat)>)
    ensures r.Some? ==> r.value.1 < |r.value.0| && r.value.0[r.value.1].key == key
    ensures r.Some? && UniqueKeys(es) ==> UniqueKeys(r.value.0)
    ensures r.None? <==> Index(es, key) == |es| && |es| >= TABLE_MAX
  {
    var i := Index(es, key);
    if i < |es| then Some((es, i))
    else if |es| >= TABLE_MAX then None
    else Some((es + [Entry(key, Unknown)], |es|))
  }

  function Put(es: seq<Entry>, i: nat, v: Datum): seq<Entry>
    requires i < |es|
  {
    es[i := Entry(es[i].key, v)]
  }

  /** datum_copy. */
  function Copy(src: Datum): Option<Datum>
    decreases src, 1
  {
    match src
    case Tab(es) => var r := CopyEntries([], es); if r.None? then None else Some(Tab(r.value))
    case Arr(elems) => var r := CopyElems([], elems); if r.None? then None else Some(Arr(r.value))
    case _ => Some(src)
  }

  function CopyEntries(dst: seq<Entry>, src: seq<Entry>): Option<seq<Entry>>
    decreases src, 0
  {
    if src == [] then Some(dst)
    else
      var slot := Emplace(dst, src[0].key);
      var v := Copy(src[0].value);
      if slot.None? || v.None? then None
      else CopyEntries(Put(slot.value.0, slot.value.1, v.value), src[1..])
  }

  function CopyElems(dst: seq<Datum>, src: seq<Datum>): Option<seq<Datum>>
    decreases src, 0
  {
    if src == [] then Some(dst)
    else
      var v := Copy(src[0]);
      if |dst| >= ARRAY_MAX || v.None? then None
      else CopyElems(dst + [v.value], src[1..])
  }

  predicate ArrayOfTables(d: Datum) { d.Arr? && forall i :: 0 <= i < |d.elems| ==> d.elems[i].Tab? }

  /** datum_merge. */
  function Merge(dst: Datum, src: Datum): Option<Datum>
    decreases src, 1
  {
    if dst.Tab? && src.Tab? then
      var r := MergeEntries(dst.entries, src.entries);
      if r.None? then None else Some(Tab(r.value))
    else if ArrayOfTables(dst) && ArrayOfTables(src) then
      var r := CopyElems(dst.elems, src.elems);
      if r.None? then None else Some(Arr(r.value))
    else Copy(src)
  }

  function MergeEntries(dst: seq<Entry>, src: seq<Entry>): Option<seq<Entry>>
    decreases src, 0
  {
    if src == [] then Some(dst)
    else
      var slot := Emplace(dst, src[0].key);
      if slot.None? then None
      else
        var v := Incoming(slot.value.0[slot.value.1].value, src[0].value);
        if v.None? then None
        else MergeEntries(Put(slot.value.0, slot.value.1, v.value), src[1..])
  }

  /** What goes into a slot: a copy if it is a new one, a merge with what it holds otherwise. */
  function Incoming(held: Datum, src: Datum): Option<Datum>
    decreases src, 2
  {
    if held.Unknown? then Copy(src) else Merge(held, src)
  }

  /** toml_merge: copy the base, then merge the overrides into the copy. */
  function TomlMerge(base: Datum, overrides: Datum): Option<Datum> {
    var copy := Copy(base);
    if copy.None? then None else Merge(copy.value, overrides)
  }

  /** The loops of datum_copy. */
  method DatumCopy(src: Datum) returns (r: Option<Datum>)
    ensures r == Copy(src)
    decreases src
  {
    match src {
      case Tab(es) =>
        var dst: seq<Entry> := [];
        var i := 0;
        while i < |es|
          invariant 0 <= i <= |es|
          invariant CopyEntries(dst, es[i..]) == CopyEntries([], es)
        {
          assert es[i..][0] == es[i] && es[i..][1..] == es[i + 1..];
          var slot := Emplace(dst, es[i].key);
          if slot.None? { return None; }
          var v := DatumCopy(es[i].value);
          if v.None? { return None; }
          dst := Put(slot.value.0, slot.value.1, v.value);
          i := i + 1;
        }
        return Some(Tab(dst));
      case Arr(elems) =>
        var dst: seq<Datum> := [];
        var i := 0;
        while i < |elems|
          invariant 0 <= i <= |elems|
          invariant CopyElems(dst, elems[i..]) == CopyElems([], elems)
        {
          assert elems[i..][0] == elems[i] && elems[i..][1..] == elems[i + 1..];
          if |dst| >= ARRAY_MAX { return None; }
          var v := DatumCopy(elems[i]);
          if v.None? { return None; }
          dst := dst + [v.value];
          i := i + 1;
        }
        return Some(Arr(dst));
      case _ => return Some(src);
    }
  }

  /** datum_merge, with its loops over the keys of a table and the elements of an array of tables. */
  method DatumMerge(into: Datum, src: Datum) returns (r: Option<Datum>)
    ensures r == Merge(into, src)
    decreases src, 1
  {
    if into.Tab? && src.Tab? {
      r := MergeTable(into.entries, src);
    } else if ArrayOfTables(into) && ArrayOfTables(src) {
      r := AppendTables(into.elems, src.elems);
    } else {
      r := DatumCopy(src);
    }
  }

  method MergeTable(into: seq<Entry>, src: Datum) returns (r: Option<Datum>)
    requires src.Tab?
    ensures r == Merge(Tab(into), src)
    decreases src, 0
  {
    var dst, es := into, src.entries;
    var i := 0;
    while i < |es|
      invariant 0 <= i <= |es|
      invariant MergeEntries(dst, es[i..]) == MergeEntries(into, es)
    {
      assert es[i..][0] == es[i] && es[i..][1..] == es[i + 1..];
      var slot := Emplace(dst, es[i].key);
      if slot.None? { return None; }
      var v := FillSlot(slot.value.0[slot.value.1].value, es[i].value);
      if v.None? { return None; }
      dst := Put(slot.value.0, slot.value.1, v.value);
      i := i + 1;
    }
    return Some(Tab(dst));
  }

  method FillSlot(held: Datum, src: Datum) returns (r: Option<Datum>)
    ensures r == Incoming(held, src)
    decreases src, 2
  {
    if held.Unknown? { r := DatumCopy(src); } else { r := DatumMerge(held, src); }
  }

  method AppendTables(into: seq<Datum>, elems: seq<Datum>) returns (r: Option<Datum>)
    ensures r == var all := CopyElems(into, elems); if all.None? then None else Some(Arr(all.value))
  {
    var dst := into;
    var i := 0;
    while i < |elems|
      invariant 0 <= i <= |elems|
      invariant CopyElems(dst, elems[i..]) == CopyElems(into, elems)
    {
      assert elems[i..][0] == elems[i] && elems[i..][1..] == elems[i + 1..];
      if |dst| >= ARRAY_MAX { return None; }
      var v := DatumCopy(elems[i]);
      if v.None? { return None; }
      dst := dst + [v.value];
      i := i + 1;
    }
    return Some(Arr(dst));
  }

  // ----- the merge law, on values

  predicate TableArray(v: Value) { v.VArr? && forall i :: 0 <= i < |v.elems| ==> v.elems[i].VTab? }

  /** Tables merge key by key, arrays of tables are appended, anything else is overridden. */
  function MergeValue(x: Value, y: Value): Value
    decreases y
  {
    if x.VTab? && y.VTab? then
      VTab(map k | k in x.m.Keys + y.m.Keys ::
        if k !in y.m then x.m[k] else if k !in x.m then y.m[k] else MergeValue(x.m[k], y.m[k]))
    else if TableArray(x) && TableArray(y) then VArr(x.elems + y.elems)
    else y
  }

  /** All tables and arrays inside are within the limits. */
  predicate Fits(v: Value)
    decreases v
  {
    match v
    case VArr(elems) => |elems| <= ARRAY_MAX && forall i :: 0 <= i < |elems| ==> Fits(elems[i])
    case VTab(m) => |m| <= TABLE_MAX && forall k :: k in m ==> Fits(m[k])
    case _ => true
  }

  lemma {:induction false} WellFormedFits(d: Datum)
    requires WellFormed(d)
    ensures Fits(Denote(d))
    decreases d
  {
    if d.Arr? {
      forall i | 0 <= i < |d.elems| ensures Fits(Denote(d.elems[i])) { WellFormedFits(d.elems[i]); }
    } else if d.Tab? {
      DenoteSize(d.entries);
      forall k | k in DenoteTable(d.entries) ensures Fits(DenoteTable(d.entries)[k]) {
        DenoteAt(d.entries, k);
        WellFormedFits(d.entries[Index(d.entries, k)].value);
      }
    }
  }

  /** A deep copy of a well-formed tree is the tree itself and never fails. */
  lemma {:induction false} CopyIsIdentity(d: Datum)
    requires WellFormed(d)
    ensures Copy(d) == Some(d)
    decreases d, 1
  {
    match d
    case Tab(es) => CopyEntriesAppend([], es); assert [] + es == es;
    case Arr(elems) => CopyElemsAppend([], elems); assert [] + elems == elems;
    case _ =>
  }

  lemma {:induction false} CopyEntriesAppend(dst: seq<Entry>, src: seq<Entry>)
    requires WellFormedTable(src) && |dst| + |src| <= TABLE_MAX && UniqueKeys(dst + src)
    ensures CopyEntries(dst, src) == Some(dst + src)
    decreases src, 0
  {
    if src == [] {
      assert dst + src == dst;
    } else {
      CopyIsIdentity(src[0].value);
      forall j | 0 <= j < |dst| ensures dst[j].key != src[0].key {
        assert (dst + src)[j] == dst[j] && (dst + src)[|dst|] == src[0];
      }
      var dst' := Put(dst + [Entry(src[0].key, Unknown)], |dst|, src[0].value);
      assert dst' == dst + [src[0]] && dst' + src[1..] == dst + src;
      CopyEntriesAppend(dst', src[1..]);
    }
  }

  /** Appending copies fails exactly when the array gets too long. */
  lemma {:induction false} CopyElemsAppend(dst: seq<Datum>, src: seq<Datum>)
    requires forall i :: 0 <= i < |src| ==> WellFormed(src[i])
    requires |dst| <= ARRAY_MAX
    ensures CopyElems(dst, src) == if |dst| + |src| <= ARRAY_MAX then Some(dst + src) else None
    decreases src, 0
  {
    if src == [] {
      assert dst + src == dst;
    } else {
      CopyIsIdentity(src[0]);
      if |dst| < ARRAY_MAX {
        CopyElemsAppend(dst + [src[0]], src[1..]);
        assert dst + [src[0]] + src[1..] == dst + src;
      }
    }
  }

  lemma DenoteCons(e: Entry, rest: seq<Entry>)
    ensures DenoteTable([e] + rest) == DenoteTable(rest)[e.key := Denote(e.value)]
  {
    assert ([e] + rest)[1..] == rest;
  }

  lemma UpdatesCommute(m: map<string, Value>, k: string, v: Value, l: string, w: Value)
    requires k != l
    ensures m[k := v][l := w] == m[l := w][k := v]
  {
  }

  function Written(es: seq<Entry>, key: string, v: Datum): seq<Entry> {
    var i := Index(es, key);
    if i < |es| then Put(es, i, v) else es + [Entry(key, v)]
  }

  lemma WrittenBehind(e: Entry, rest: seq<Entry>, key: string, v: Datum)
    requires e.key != key
    ensures Written([e] + rest, key, v) == [e] + Written(rest, key, v)
  {
    assert ([e] + rest)[1..] == rest;
    assert Index([e] + rest, key) == 1 + Index(rest, key);
  }

  /** Writing the value of a key, in an existing slot or a new one, updates the denoted map at that key only. */
  lemma {:induction false} DenotePut(es: seq<Entry>, key: string, v: Datum)
    ensures DenoteTable(Written(es, key, v)) == DenoteTable(es)[key := Denote(v)]
  {
    if es == [] {
      assert es + [Entry(key, v)] == [Entry(key, v)] + [];
      DenoteCons(Entry(key, v), []);
    } else {
      var e, rest := es[0], es[1..];
      assert es == [e] + rest;
      if e.key == key {
        assert Put(es, 0, v) == [Entry(key, v)] + rest;
        DenoteCons(Entry(key, v), rest);
      } else {
        DenotePut(rest, key, v);
        WrittenBehind(e, rest, key, v);
        DenoteCons(e, Written(rest, key, v));
        UpdatesCommute(DenoteTable(rest), key, Denote(v), e.key, Denote(e.value));
      }
    }
  }

  lemma PutKeeps(es: seq<Entry>, key: string, v: Datum)
    requires WellFormedTable(es) && WellFormed(v) && Emplace(es, key).Some?
    ensures var slot := Emplace(es, key).value; var es' := Put(slot.0, slot.1, v);
      WellFormedTable(es') && DenoteTable(es') == DenoteTable(es)[key := Denote(v)]
  {
    DenotePut(es, key, v);
    var i := Index(es, key);
    if i == |es| { assert Put(es + [Entry(key, Unknown)], i, v) == es + [Entry(key, v)]; }
  }

  /** The merged value at a key that both tables may hold. */
  function MergeAt(x: map<string, Value>, k: string, v: Value): Value {
    if k in x then MergeValue(x[k], v) else v
  }

  /** Merging one key first and the rest after is merging them together. */
  lemma MergeOneKey(x: map<string, Value>, y: map<string, Value>, k: string, v: Value)
    requires k !in y
    ensures MergeValue(VTab(x[k := MergeAt(x, k, v)]), VTab(y)) == MergeValue(VTab(x), VTab(y[k := v]))
  {
    var a := MergeValue(VTab(x[k := MergeAt(x, k, v)]), VTab(y)).m;
    var b := MergeValue(VTab(x), VTab(y[k := v])).m;
    assert a.Keys == b.Keys;
    forall j | j in a ensures a[j] == b[j] { }
  }

  /** What a well-formed outcome of a merge is, and what its failure means. */
  ghost predicate Merged(r: Option<Datum>, x: Value, y: Value) {
    && (r.Some? ==> WellFormed(r.value) && Denote(r.value) == MergeValue(x, y))
    && (r.None? ==> !Fits(MergeValue(x, y)))
  }

  /** A merge of well-formed trees denotes the merge of what they denote, and fails exactly when that exceeds a size limit. */
  lemma {:induction false} MergeLaw(dst: Datum, src: Datum)
    requires WellFormed(dst) && WellFormed(src)
    ensures Merged(Merge(dst, src), Denote(dst), Denote(src))
    decreases src, 1
  {
    WellFormedFits(src);
    CopyIsIdentity(src);
    if dst.Tab? && src.Tab? {
      MergeEntriesLaw(dst.entries, src.entries);
    } else if dst.Arr? && src.Arr? {
      MergeArrays(dst, src);
    }
  }

  lemma MergeArrays(dst: Datum, src: Datum)
    requires WellFormed(dst) && WellFormed(src) && dst.Arr? && src.Arr?
    ensures Merged(Merge(dst, src), Denote(dst), Denote(src))
  {
    WellFormedFits(src);
    CopyIsIdentity(src);
    TableArrayDenoted(dst);
    TableArrayDenoted(src);
    if ArrayOfTables(dst) && ArrayOfTables(src) {
      CopyElemsAppend(dst.elems, src.elems);
      assert Denote(Arr(dst.elems + src.elems)).elems == Denote(dst).elems + Denote(src).elems;
    }
  }

  lemma TableArrayDenoted(d: Datum)
    requires d.Arr?
    ensures ArrayOfTables(d) <==> TableArray(Denote(d))
  {
    assert forall i :: 0 <= i < |d.elems| ==> (d.elems[i].Tab? <==> Denote(d).elems[i].VTab?);
  }

  lemma {:induction false} MergeEntriesLaw(dst: seq<Entry>, src: seq<Entry>)
    requires WellFormedTable(dst) && WellFormedTable(src)
    ensures var r := MergeEntries(dst, src);
      Merged(if r.None? then None else Some(Tab(r.value)), VTab(DenoteTable(dst)), VTab(DenoteTable(src)))
    decreases src, 0
  {
    var x, y := DenoteTable(dst), DenoteTable(src);
    if src == [] {
      NothingToMerge(x);
    } else {
      var e, rest := src[0], src[1..];
      var slot := Emplace(dst, e.key);
      DenoteAt(rest, e.key);
      DenoteAt(dst, e.key);
      MergeOneKey(x, DenoteTable(rest), e.key, Denote(e.value));
      if slot.None? {
        TooManyKeys(dst, y, e.key);
      } else {
        SlotLaw(dst, e);
        var v := Incoming(slot.value.0[slot.value.1].value, e.value);
        if v.None? {
          UnfitAt(x, y, e.key);
        } else {
          PutKeeps(dst, e.key, v.value);
          MergeEntriesLaw(Put(slot.value.0, slot.value.1, v.value), rest);
        }
      }
    }
  }

  lemma {:induction false} SlotLaw(dst: seq<Entry>, e: Entry)
    requires WellFormedTable(dst) && WellFormed(e.value) && Emplace(dst, e.key).Some?
    ensures var slot := Emplace(dst, e.key).value;
      var r, y := Incoming(slot.0[slot.1].value, e.value), MergeAt(DenoteTable(dst), e.key, Denote(e.value));
      && (r.Some? ==> WellFormed(r.value) && Denote(r.value) == y)
      && (r.None? ==> !Fits(y))
    decreases e.value, 2
  {
    DenoteAt(dst, e.key);
    CopyIsIdentity(e.value);
    var i := Index(dst, e.key);
    if i < |dst| { MergeLaw(dst[i].value, e.value); }
  }

  lemma NothingToMerge(x: map<string, Value>)
    ensures MergeValue(VTab(x), VTab(map[])) == VTab(x)
  {
    assert MergeValue(VTab(x), VTab(map[])).m == x;
  }

  lemma UnfitAt(x: map<string, Value>, y: map<string, Value>, k: string)
    requires k in y && !Fits(MergeAt(x, k, y[k]))
    ensures !Fits(MergeValue(VTab(x), VTab(y)))
  {
    assert MergeValue(VTab(x), VTab(y)).m[k] == MergeAt(x, k, y[k]);
  }

  lemma TooManyKeys(dst: seq<Entry>, y: map<string, Value>, key: string)
    requires UniqueKeys(dst) && |dst| >= TABLE_MAX && key !in DenoteTable(dst) && key in y
    ensures !Fits(MergeValue(VTab(DenoteTable(dst)), VTab(y)))
  {
    var x := DenoteTable(dst);
    DenoteSize(dst);
    var m := MergeValue(VTab(x), VTab(y)).m;
    assert m.Keys == x.Keys + y.Keys;
    assert x.Keys + {key} <= m.Keys;
    SubsetSize(x.Keys + {key}, m.Keys);
  }

  /** toml_merge on well-formed documents: it succeeds exactly when the merged document fits, and then yields it. */
  lemma TomlMergeLaw(base: Datum, overrides: Datum)
    requires WellFormed(base) && WellFormed(overrides)
    ensures TomlMerge(base, overrides).Some? <==> Fits(MergeValue(Denote(base), Denote(overrides)))
    ensures TomlMerge(base, overrides).Some? ==>
      var d := TomlMerge(base, overrides).value; WellFormed(d) && Denote(d) == MergeValue(Denote(base), Denote(overrides))
  {
    CopyIsIdentity(base);
    MergeLaw(base, overrides);
    if TomlMerge(base, overrides).Some? { WellFormedFits(TomlMerge(base, overrides).value); }
  }

  // ----- the merge as documented

  /** toml_type_t of a value. */
  predicate SameKind(x: Value, y: Value) {
    match x
    case NoValue => y.NoValue?
    case VStr(_) => y.VStr?
    case VInt(_) => y.VInt?
    case VFloat(_) => y.VFloat?
    case VBool(_) => y.VBool?
    case VDate(_) => y.VDate?
    case VTime(_) => y.VTime?
    case VDateTime(_, _) => y.VDateTime?
    case VDateTimeTz(_, _, _) => y.VDateTimeTz?
    case VArr(_) => y.VArr?
    case VTab(_) => y.VTab?
  }

  /** The LOGIC in the header: y overrides a value of another type, is appended to an array of tables, is merged into a table, and overrides the rest. */
  function Documented(x: Value, y: Value): Value
    decreases y
  {
    if !SameKind(x, y) then y
    else if TableArray(x) then VArr(x.elems + y.elems)
    else if x.VTab? then
      VTab(map k | k in x.m.Keys + y.m.Keys ::
        if k !in y.m then x.m[k] else if k !in x.m then y.m[k] else Documented(x.m[k], y.m[k]))
    else y
  }

  /** On some key path a non-empty array of tables meets an array that is not one. */
  predicate Clash(x: Value, y: Value)
    decreases y
  {
    if x.VTab? && y.VTab? then exists k | k in y.m :: k in x.m && Clash(x.m[k], y.m[k])
    else TableArray(x) && x.elems != [] && y.VArr? && !TableArray(y)
  }

  /** The code merges as documented exactly when no arrays clash. */
  lemma {:induction false} DocumentedIffNoClash(x: Value, y: Value)
    ensures MergeValue(x, y) == Documented(x, y) <==> !Clash(x, y)
    decreases y
  {
    if x.VTab? && y.VTab? {
      forall k | k in x.m && k in y.m ensures MergeValue(x.m[k], y.m[k]) == Documented(x.m[k], y.m[k]) <==> !Clash(x.m[k], y.m[k]) {
        DocumentedIffNoClash(x.m[k], y.m[k]);
      }
      TablesDocumented(x.m, y.m);
    } else if TableArray(x) && y.VArr? {
      assert x.elems == [] ==> x.elems + y.elems == y.elems;
      assert x.elems != [] ==> |x.elems + y.elems| > |y.elems|;
    }
  }

  lemma TablesDocumented(x: map<string, Value>, y: map<string, Value>)
    ensures MergeValue(VTab(x), VTab(y)) == Documented(VTab(x), VTab(y)) <==>
      forall k | k in y :: k in x ==> MergeValue(x[k], y[k]) == Documented(x[k], y[k])
  {
    var code, doc := MergeValue(VTab(x), VTab(y)).m, Documented(VTab(x), VTab(y)).m;
    assert code.Keys == doc.Keys == x.Keys + y.Keys;
    assert forall k | k in code && !(k in x && k in y) :: code[k] == doc[k];
    assert forall k | k in x && k in y :: code[k] == MergeValue(x[k], y[k]) && doc[k] == Documented(x[k], y[k]);
    if forall k | k in y :: k in x ==> MergeValue(x[k], y[k]) == Documented(x[k], y[k]) {
      assert code == doc;
    }
  }

  /** toml_merge does what its header says exactly when no arrays clash. */
  lemma TomlMergeAsDocumented(base: Datum, overrides: Datum)
    requires WellFormed(base) && WellFormed(overrides) && TomlMerge(base, overrides).Some?
    ensures Denote(TomlMerge(base, overrides).value) == Documented(Denote(base), Denote(overrides)) <==> !Clash(Denote(base), Denote(overrides))
  {
    TomlMergeLaw(base, overrides);
    DocumentedIffNoClash(Denote(base), Denote(overrides));
  }

  lemma OneKeyDenoted(key: string, d: Datum)
    ensures Denote(Tab([Entry(key, d)])) == VTab(map[key := Denote(d)])
  {
    DenoteCons(Entry(key, d), []);
    assert [Entry(key, d)] + [] == [Entry(key, d)];
  }

  lemma OneKeyDocumented(key: string, x: Value, y: Value)
    ensures Documented(VTab(map[key := x]), VTab(map[key := y])) == VTab(map[key := Documented(x, y)])
  {
  }

  lemma OneElementDenoted(d: Datum)
    ensures Denote(Arr([d])) == VArr([Denote(d)])
  {
  }

  lemma OneKeyMerged(key: string, held: Datum, incoming: Datum)
    requires WellFormed(held) && Merge(held, incoming) == Some(incoming)
    ensures TomlMerge(Tab([Entry(key, held)]), Tab([Entry(key, incoming)])) == Some(Tab([Entry(key, incoming)]))
  {
    var base, overrides := [Entry(key, held)], [Entry(key, incoming)];
    CopyIsIdentity(Tab(base));
    assert Index(base, key) == 0;
    assert Emplace(base, key) == Some((base, 0));
    assert Put(base, 0, incoming) == overrides;
    assert overrides[1..] == [];
    assert MergeEntries(overrides, []) == Some(overrides);
    assert !held.Unknown? && Incoming(held, incoming) == Some(incoming);
    assert MergeEntries(base, overrides) == MergeEntries(Put(base, 0, incoming), overrides[1..]);
    assert Merge(Tab(base), Tab(overrides)) == Some(Tab(overrides));
    assert Copy(Tab(base)) == Some(Tab(base));
  }

  /** Clashing arrays under a key: the code keeps only the second, where the header promises both, one after the other. */
  lemma ClashingArrays(key: string, held: Datum, incoming: Datum)
    requires WellFormed(held) && WellFormed(incoming) && ArrayOfTables(held) && incoming.Arr? && !ArrayOfTables(incoming)
    ensures var base, overrides := Tab([Entry(key, held)]), Tab([Entry(key, incoming)]);
      TomlMerge(base, overrides) == Some(overrides) &&
      Documented(Denote(base), Denote(overrides)) == VTab(map[key := VArr(Denote(held).elems + Denote(incoming).elems)])
  {
    CopyIsIdentity(incoming);
    OneKeyMerged(key, held, incoming);
    OneKeyDenoted(key, held);
    OneKeyDenoted(key, incoming);
    OneKeyDocumented(key, Denote(held), Denote(incoming));
    TableArrayDenoted(held);
  }

  /** Such a pair: a = [{}] and a = [1]. */
  lemma ClashingPair()
    ensures var base, overrides := Tab([Entry("a", Arr([Tab([])]))]), Tab([Entry("a", Arr([Int64(1)]))]);
      TomlMerge(base, overrides) == Some(overrides) &&
      Documented(Denote(base), Denote(overrides)) == VTab(map["a" := VArr([VTab(map[])] + [VInt(1)])])
  {
    var tables, ints := Arr([Tab([])]), Arr([Int64(1)]);
    assert ints.elems[0] == Int64(1);
    ClashingArrays("a", tables, ints);
    OneElementDenoted(Tab([]));
    OneElementDenoted(Int64(1));
  }
}
