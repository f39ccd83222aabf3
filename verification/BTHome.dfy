/**
  * The BTHome v2 encoder (components/bthome_advertiser/bthome_encoder.cpp) against the BTHome v2
  * payload format: a device-information byte, then object id and little-endian scaled value for
  * each measurement. Values and scale factors are real numbers.
  */
module BTHome {
  import opened Common

  /** The scale factor of an object: 1.0, 0.01 or 0.001. */
  datatype Scale = Unit | Hundredth | Thousandth

  datatype Spec = Spec(size: nat, signed: bool, scale: Scale)

  /** The supported object ids. */
  function ObjectSpec(id: Byte): (s: Option<Spec>)
    ensures s.Some? ==> 1 <= s.value.size <= 3
  {
    match id
    case 0x00 => Some(Spec(1, false, Unit))
    case 0x01 => Some(Spec(1, false, Unit))
    case 0x02 => Some(Spec(2, true, Hundredth))
    case 0x03 => Some(Spec(2, false, Hundredth))
    case 0x04 => Some(Spec(3, false, Hundredth))
    case 0x05 => Some(Spec(3, false, Hundredth))
    case 0x0C => Some(Spec(2, false, Thousandth))
    case 0x12 => Some(Spec(2, false, Unit))
    case 0x13 => Some(Spec(2, false, Unit))
    case 0x14 => Some(Spec(2, false, Hundredth))
    case 0x10 => Some(Spec(1, false, Unit))
    case 0x21 => Some(Spec(1, false, Unit))
    case 0x23 => Some(Spec(1, false, Unit))
    case _ => None
  }

  datatype Object = Object(id: Byte, value: real)

  // ----- raw values -----

  /** Half away from zero. */
  function Round(x: real): int {
    if x >= 0.0 then (x + 0.5).Floor else -((-x + 0.5).Floor)
  }

  function Limit(size: nat): int {
    if size == 1 then 0x100 else if size == 2 then 0x1_0000 else 0x100_0000
  }

  function Low(s: Spec): int {
    if s.signed then -(Limit(s.size) / 2) else 0
  }

  function High(s: Spec): int {
    if s.signed then Limit(s.size) / 2 - 1 else Limit(s.size) - 1
  }

  function Clamp(s: Spec, raw: int): int {
    if raw < Low(s) then Low(s) else if raw > High(s) then High(s) else raw
  }

  /** value / factor */
  function Unscaled(s: Spec, value: real): real {
    match s.scale
    case Unit => value
    case Hundredth => value / 0.01
    case Thousandth => value / 0.001
  }

  /** x * factor */
  function Scaled(s: Spec, x: real): real {
    match s.scale
    case Unit => x
    case Hundredth => x * 0.01
    case Thousandth => x * 0.001
  }

  function Raw(s: Spec, value: real): int {
    Clamp(s, Round(Unscaled(s, value)))
  }

  function Distance(a: real, b: real): real {
    if a <= b then b - a else a - b
  }

  lemma {:induction false} RoundIsNearest(x: real, r: int)
    ensures Distance(Round(x) as real, x) <= 0.5
    ensures Distance(Round(x) as real, x) <= Distance(r as real, x)
  {
    var n := Round(x);
    if r > n {
      assert r as real >= n as real + 1.0;
    } else if r < n {
      assert r as real <= n as real - 1.0;
    }
  }

  lemma {:induction false} ClampIsNearest(s: Spec, x: real, r: int)
    requires s.size in {1, 2, 3} && Low(s) <= r <= High(s)
    ensures Low(s) <= Clamp(s, Round(x)) <= High(s)
    ensures Distance(Clamp(s, Round(x)) as real, x) <= Distance(r as real, x)
  {
    var n := Round(x);
    RoundIsNearest(x, r);
    if n < Low(s) {
      RoundIsNearest(x, Low(s));
      assert x <= n as real + 0.5 <= Low(s) as real - 0.5;
    } else if n > High(s) {
      RoundIsNearest(x, High(s));
      assert x >= n as real - 0.5 >= High(s) as real + 0.5;
    }
  }

  /** The raw value sent stands for the representable value nearest to the one given. */
  lemma {:induction false} RawIsNearest(s: Spec, value: real, r: int)
    requires s.size in {1, 2, 3} && Low(s) <= r <= High(s)
    ensures Low(s) <= Raw(s, value) <= High(s)
    ensures Distance(Scaled(s, Raw(s, value) as real), value) <= Distance(Scaled(s, r as real), value)
  {
    var x := Unscaled(s, value);
    ClampIsNearest(s, x, r);
  }

  lemma {:induction false} InRangeRounds(s: Spec, x: real)
    requires s.size in {1, 2, 3} && Low(s) as real <= x <= High(s) as real
    ensures Distance(Clamp(s, Round(x)) as real, x) <= 0.5
  {
    RoundIsNearest(x, Low(s));
    RoundIsNearest(x, High(s));
  }

  /** An in-range value comes back within half a scale step. */
  lemma {:induction false} InRangeWithinHalfStep(s: Spec, value: real)
    requires s.size in {1, 2, 3} && Scaled(s, Low(s) as real) <= value <= Scaled(s, High(s) as real)
    ensures Distance(Scaled(s, Raw(s, value) as real), value) <= Scaled(s, 0.5)
  {
    var x := Unscaled(s, value);
    InRangeRounds(s, x);
  }

  // ----- bytes -----

  /** Byte i of the two's complement form. */
  function ByteAt(raw: int, i: nat): Byte
    requires i < 3
  {
    (if i == 0 then raw else if i == 1 then raw / 256 else raw / 256 / 256) % 256
  }

  function Bytes(raw: int, size: nat): (b: seq<Byte>)
    requires size <= 3
    ensures |b| == size
  {
    seq(size, i requires 0 <= i < size => ByteAt(raw, i))
  }

  /** Little-endian two's complement, as a receiver reads it. */
  function ReadRaw(s: Spec, b: seq<Byte>): int {
    var v := LittleEndian(b);
    if s.signed && v >= Limit(s.size) / 2 then v - Limit(s.size) else v
  }

  lemma {:induction false} Value1(b: seq<Byte>)
    requires |b| == 1
    ensures LittleEndian(b) == b[0]
  {
  }

  lemma {:induction false} Value2(b: seq<Byte>)
    requires |b| == 2
    ensures LittleEndian(b) == (b[0] as int) + 256 * (b[1] as int)
  {
    Value1(b[1..]);
  }

  lemma {:induction false} Value3(b: seq<Byte>)
    requires |b| == 3
    ensures LittleEndian(b) == (b[0] as int) + 256 * ((b[1] as int) + 256 * (b[2] as int))
  {
    Value2(b[1..]);
  }

  lemma {:induction false} Mod24(n: int, k: int, r: int)
    requires n == 0x100_0000 * k + r && 0 <= r < 0x100_0000
    ensures n % 0x100_0000 == r
  {
  }

  lemma {:induction false} LowBytes(raw: int)
    ensures raw % 0x1_0000 == raw % 256 + 256 * (raw / 256 % 256)
    ensures raw % 0x100_0000 == raw % 256 + 256 * (raw / 256 % 256 + 256 * (raw / 256 / 256 % 256))
  {
    var q := raw / 256;
    var q2 := q / 256;
    var q3 := q2 / 256;
    Mod24(raw, q3, raw % 256 + 256 * (q % 256 + 256 * (q2 % 256)));
  }

  lemma {:induction false} BytesValue(raw: int, size: nat)
    requires 1 <= size <= 3
    ensures LittleEndian(Bytes(raw, size)) == raw % Limit(size)
  {
    LowBytes(raw);
    var b := Bytes(raw, size);
    if size == 1 {
      Value1(b);
    } else if size == 2 {
      Value2(b);
    } else {
      Value3(b);
    }
  }

  lemma {:induction false} ReadBytes(s: Spec, raw: int)
    requires 1 <= s.size <= 3 && Low(s) <= raw <= High(s)
    ensures ReadRaw(s, Bytes(raw, s.size)) == raw
  {
    BytesValue(raw, s.size);
  }

  // ----- order -----

  function Insert(s: seq<Object>, x: Object): seq<Object> {
    if s == [] || s[|s| - 1].id <= x.id then s + [x] else Insert(s[..|s| - 1], x) + [s[|s| - 1]]
  }

  /** Stable ascending sort by id of the first n objects. */
  function SortUpTo(os: seq<Object>, n: nat): seq<Object>
    requires n <= |os|
  {
    if n == 0 then [] else Insert(SortUpTo(os, n - 1), os[n - 1])
  }

  function StableSort(os: seq<Object>): seq<Object> {
    SortUpTo(os, |os|)
  }

  ghost predicate SortedObjects(s: seq<Object>) {
    forall i, j :: 0 <= i < j < |s| ==> s[i].id <= s[j].id
  }

  /** A measurement as it is sent. */
  datatype Reading = Reading(id: Byte, raw: int)

  function ReadingOf(o: Object): seq<Reading> {
    var s := ObjectSpec(o.id);
    if s.Some? then [Reading(o.id, Raw(s.value, o.value))] else []
  }

  /** The known objects of a list, in its order. */
  function Readings(os: seq<Object>): seq<Reading> {
    Collected(ReadingOf, os, |os|)
  }

  function RawOf(r: Reading, id: Byte): seq<int> {
    if r.id == id then [r.raw] else []
  }

  function RawsUpTo(rs: seq<Reading>, id: Byte, n: nat): seq<int>
    requires n <= |rs|
  {
    if n == 0 then [] else RawsUpTo(rs, id, n - 1) + RawOf(rs[n - 1], id)
  }

  /** The raw values sent for one id, in order. */
  function Raws(rs: seq<Reading>, id: Byte): seq<int> {
    RawsUpTo(rs, id, |rs|)
  }

  lemma {:induction false} RawsPrefix(a: seq<Reading>, b: seq<Reading>, id: Byte, n: nat)
    requires n <= |a|
    ensures RawsUpTo(a + b, id, n) == RawsUpTo(a, id, n)
  {
    if n > 0 {
      RawsPrefix(a, b, id, n - 1);
    }
  }

  lemma {:induction false} RawsSnoc(a: seq<Reading>, r: Reading, id: Byte)
    ensures Raws(a + [r], id) == Raws(a, id) + RawOf(r, id)
  {
    RawsPrefix(a, [r], id, |a|);
  }

  lemma {:induction false} RawsJoin(a: seq<Reading>, o: Object, id: Byte)
    ensures Raws(a + ReadingOf(o), id) == Raws(a, id) + Raws(ReadingOf(o), id)
  {
    if ReadingOf(o) == [] {
      assert a + [] == a;
    } else {
      RawsSnoc(a, ReadingOf(o)[0], id);
      RawsSnoc([], ReadingOf(o)[0], id);
      assert [] + ReadingOf(o) == ReadingOf(o);
    }
  }

  lemma {:induction false} ReadingsSnoc(a: seq<Object>, o: Object)
    ensures Readings(a + [o]) == Readings(a) + ReadingOf(o)
  {
    CollectedPrefix(ReadingOf, a, [o], |a|);
  }

  lemma {:induction false} OtherIdSendsNothing(o: Object, id: Byte)
    requires o.id != id
    ensures Raws(ReadingOf(o), id) == []
  {
    RawsSnoc([], if ReadingOf(o) == [] then Reading(o.id, 0) else ReadingOf(o)[0], id);
    if ReadingOf(o) != [] {
      assert [] + ReadingOf(o) == ReadingOf(o);
    }
  }

  /** The raw values a list of objects sends for one id, in order. */
  function Sent(os: seq<Object>, id: Byte): seq<int> {
    Raws(Readings(os), id)
  }

  lemma {:induction false} SentSnoc(s: seq<Object>, x: Object, id: Byte)
    ensures Sent(s + [x], id) == Sent(s, id) + Raws(ReadingOf(x), id)
  {
    ReadingsSnoc(s, x);
    RawsJoin(Readings(s), x, id);
  }

  /** Inserting adds the raw value after all others with the same id. */
  lemma {:induction false} InsertIsStable(s: seq<Object>, x: Object, id: Byte)
    ensures Sent(Insert(s, x), id) == Sent(s, id) + Raws(ReadingOf(x), id)
    decreases |s|
  {
    if s == [] || s[|s| - 1].id <= x.id {
      SentSnoc(s, x, id);
    } else {
      var init, last := s[..|s| - 1], s[|s| - 1];
      assert s == init + [last];
      InsertIsStable(init, x, id);
      SentSnoc(init, last, id);
      SentSnoc(Insert(init, x), last, id);
      if x.id == id {
        OtherIdSendsNothing(last, id);
      } else {
        OtherIdSendsNothing(x, id);
      }
    }
  }

  lemma {:induction false} InsertAdds(s: seq<Object>, x: Object)
    ensures multiset(Insert(s, x)) == multiset(s) + multiset{x}
    decreases |s|
  {
    if s != [] && s[|s| - 1].id > x.id {
      InsertAdds(s[..|s| - 1], x);
      assert s == s[..|s| - 1] + [s[|s| - 1]];
    }
  }

  lemma {:induction false} InsertSorts(s: seq<Object>, x: Object)
    requires SortedObjects(s)
    ensures SortedObjects(Insert(s, x))
    decreases |s|
  {
    if s == [] || s[|s| - 1].id <= x.id {
    } else {
      var init, last := s[..|s| - 1], s[|s| - 1];
      InsertSorts(init, x);
      InsertAdds(init, x);
      forall o | o in Insert(init, x) ensures o.id <= last.id {
        assert o in multiset(Insert(init, x));
      }
    }
  }

  lemma {:induction false} SortSorts(os: seq<Object>, n: nat)
    requires n <= |os|
    ensures SortedObjects(SortUpTo(os, n))
  {
    if n > 0 {
      SortSorts(os, n - 1);
      InsertSorts(SortUpTo(os, n - 1), os[n - 1]);
    }
  }

  /** The sort is stable: for each id the raw values keep their order. */
  lemma {:induction false} SortKeepsRaws(os: seq<Object>, n: nat, id: Byte)
    requires n <= |os|
    ensures Sent(SortUpTo(os, n), id) == Raws(Collected(ReadingOf, os, n), id)
  {
    if n > 0 {
      SortKeepsRaws(os, n - 1, id);
      InsertIsStable(SortUpTo(os, n - 1), os[n - 1], id);
      RawsJoin(Collected(ReadingOf, os, n - 1), os[n - 1], id);
    }
  }

  ghost predicate Ascending(rs: seq<Reading>) {
    forall i, j :: 0 <= i < j < |rs| ==> rs[i].id <= rs[j].id
  }

  lemma {:induction false} ReadingsAscend(os: seq<Object>, n: nat)
    requires n <= |os| && SortedObjects(os)
    ensures Ascending(Collected(ReadingOf, os, n))
    ensures forall r :: r in Collected(ReadingOf, os, n) ==> exists i :: 0 <= i < n && os[i].id == r.id
  {
    if n > 0 {
      ReadingsAscend(os, n - 1);
    }
  }

  lemma {:induction false} RawsPresent(rs: seq<Reading>, id: Byte, n: nat)
    requires n <= |rs|
    ensures RawsUpTo(rs, id, n) == [] <==> forall i :: 0 <= i < n ==> rs[i].id != id
  {
    if n > 0 {
      RawsPresent(rs, id, n - 1);
    }
  }

  lemma {:induction false} LastRaw(rs: seq<Reading>)
    requires rs != []
    ensures var r := rs[|rs| - 1]; Raws(rs, r.id) != [] && Raws(rs, r.id)[|Raws(rs, r.id)| - 1] == r.raw
  {
  }

  lemma {:induction false} DropSame(a: seq<int>, b: seq<int>, c: seq<int>)
    requires a + c == b + c
    ensures a == b
  {
    assert |a| == |b|;
    forall i | 0 <= i < |a| ensures a[i] == b[i] {
      assert (a + c)[i] == (b + c)[i];
    }
  }

  lemma {:induction false} SilentIsEmpty(rs: seq<Reading>)
    requires forall id: Byte :: Raws(rs, id) == []
    ensures rs == []
  {
    if rs != [] {
      LastRaw(rs);
    }
  }

  lemma {:induction false} LastIdAtMost(a: seq<Reading>, b: seq<Reading>)
    requires Ascending(b) && a != [] && b != [] && forall id: Byte :: Raws(a, id) == Raws(b, id)
    ensures a[|a| - 1].id <= b[|b| - 1].id
  {
    LastRaw(a);
    RawsPresent(b, a[|a| - 1].id, |b|);
  }

  lemma {:induction false} LastIsSame(a: seq<Reading>, b: seq<Reading>)
    requires Ascending(a) && Ascending(b) && a != [] && b != []
    requires forall id: Byte :: Raws(a, id) == Raws(b, id)
    ensures a[|a| - 1] == b[|b| - 1]
  {
    LastIdAtMost(a, b);
    LastIdAtMost(b, a);
    LastRaw(a);
    LastRaw(b);
  }

  /** An ascending list of readings is determined by the raw values of each id. */
  lemma {:induction false} AscendingUnique(a: seq<Reading>, b: seq<Reading>)
    requires Ascending(a) && Ascending(b) && forall id: Byte :: Raws(a, id) == Raws(b, id)
    ensures a == b
    decreases |a|
  {
    if a == [] {
      SilentIsEmpty(b);
    } else if b == [] {
      SilentIsEmpty(a);
    } else {
      LastIsSame(a, b);
      var x, a', b' := a[|a| - 1], a[..|a| - 1], b[..|b| - 1];
      assert a == a' + [x] && b == b' + [x];
      forall id: Byte ensures Raws(a', id) == Raws(b', id) {
        RawsSnoc(a', x, id);
        RawsSnoc(b', x, id);
        DropSame(Raws(a', id), Raws(b', id), RawOf(x, id));
      }
      AscendingUnique(a', b');
    }
  }

  // ----- payload -----

  const DEVICE_INFO: Byte := 0x40

  predicate Sendable(r: Reading) {
    var s := ObjectSpec(r.id);
    s.Some? && Low(s.value) <= r.raw <= High(s.value)
  }

  function EncodeReading(r: Reading): seq<Byte>
    requires Sendable(r)
  {
    [r.id] + Bytes(r.raw, ObjectSpec(r.id).value.size)
  }

  function EncodeUpTo(rs: seq<Reading>, n: nat): seq<Byte>
    requires n <= |rs| && forall r :: r in rs ==> Sendable(r)
  {
    if n == 0 then [] else EncodeUpTo(rs, n - 1) + EncodeReading(rs[n - 1])
  }

  lemma {:induction false} ReadingsAreSendable(os: seq<Object>, n: nat)
    requires n <= |os|
    ensures forall r :: r in Collected(ReadingOf, os, n) ==> Sendable(r)
  {
    if n > 0 {
      ReadingsAreSendable(os, n - 1);
    }
  }

  function Payload(os: seq<Object>, encrypted: bool): seq<Byte> {
    var rs := Readings(StableSort(os));
    ReadingsAreSendable(StableSort(os), |StableSort(os)|);
    [DEVICE_INFO + if encrypted then 1 else 0] + EncodeUpTo(rs, |rs|)
  }

  // ----- receiver -----

  // What the BTHome v2 format says of the objects the encoder knows, independently of its table.

  const ONE_BYTE: set<Byte> := {0x00, 0x01, 0x10, 0x21, 0x23}
  const TWO_BYTES: set<Byte> := {0x02, 0x03, 0x0C, 0x12, 0x13, 0x14}
  const THREE_BYTES: set<Byte> := {0x04, 0x05}
  const SIGNED: set<Byte> := {0x02}
  const HUNDREDTHS: set<Byte> := {0x02, 0x03, 0x04, 0x05, 0x14}
  const THOUSANDTHS: set<Byte> := {0x0C}

  /** Bytes of an object's value; none for an unknown object. */
  function Width(id: Byte): nat {
    if id in ONE_BYTE then 1 else if id in TWO_BYTES then 2 else if id in THREE_BYTES then 3 else 0
  }

  function StepsPerUnit(id: Byte): int {
    if id in HUNDREDTHS then 100 else if id in THOUSANDTHS then 1000 else 1
  }

  /** The values an object's bytes can carry. */
  predicate Carries(id: Byte, raw: int) {
    if id in SIGNED then -(Power256(Width(id)) / 2) <= raw < Power256(Width(id)) / 2 else 0 <= raw < Power256(Width(id))
  }

  lemma {:induction false} TableIsFormat(id: Byte)
    ensures ObjectSpec(id).Some? <==> Width(id) > 0
    ensures ObjectSpec(id).Some? ==>
              var s := ObjectSpec(id).value;
              && s.size == Width(id) && s.signed == (id in SIGNED) && Limit(s.size) == Power256(Width(id))
              && forall x: real :: Scaled(s, x) == x / StepsPerUnit(id) as real
  {
    assert Power256(2) == 0x1_0000;
    assert Power256(3) == 0x100_0000;
  }

  /** Little-endian, two's complement for a signed object. */
  function ReadValue(id: Byte, b: seq<Byte>): int {
    var v := LittleEndian(b);
    if id in SIGNED && v >= Power256(|b|) / 2 then v - Power256(|b|) else v
  }

  /** The receiver's reading of the objects: an unknown id or a cut object ends the parse. */
  function Decode(b: seq<Byte>): seq<Reading>
    decreases |b|
  {
    if b == [] || Width(b[0]) == 0 || |b| < 1 + Width(b[0]) then []
    else [Reading(b[0], ReadValue(b[0], b[1..1 + Width(b[0])]))] + Decode(b[1 + Width(b[0])..])
  }

  lemma {:induction false} DecodeOne(r: Reading, rest: seq<Byte>)
    requires Sendable(r)
    ensures Decode(EncodeReading(r) + rest) == [r] + Decode(rest)
  {
    var s := ObjectSpec(r.id).value;
    var b := EncodeReading(r) + rest;
    assert b[1..1 + s.size] == Bytes(r.raw, s.size);
    assert b[1 + s.size..] == rest;
    TableIsFormat(r.id);
    ReadBytes(s, r.raw);
  }

  lemma {:induction false} TakeOneMore(rs: seq<Reading>, n: nat, d: seq<Reading>)
    requires 0 < n <= |rs|
    ensures rs[..n - 1] + ([rs[n - 1]] + d) == rs[..n] + d
  {
  }

  lemma {:induction false} DecodeEncoded(rs: seq<Reading>, n: nat, rest: seq<Byte>)
    requires n <= |rs| && forall r :: r in rs ==> Sendable(r)
    ensures Decode(EncodeUpTo(rs, n) + rest) == rs[..n] + Decode(rest)
    decreases n
  {
    if n == 0 {
      assert [] + rest == rest && rs[..0] + Decode(rest) == Decode(rest);
    } else {
      var e := EncodeReading(rs[n - 1]);
      DecodeEncoded(rs, n - 1, e + rest);
      DecodeOne(rs[n - 1], rest);
      DecodeSplit(EncodeUpTo(rs, n - 1), e, rest, rs, n);
    }
  }

  lemma {:induction false} DecodeSplit(a: seq<Byte>, e: seq<Byte>, rest: seq<Byte>, rs: seq<Reading>, n: nat)
    requires 0 < n <= |rs|
    requires Decode(a + (e + rest)) == rs[..n - 1] + Decode(e + rest)
    requires Decode(e + rest) == [rs[n - 1]] + Decode(rest)
    ensures Decode(a + e + rest) == rs[..n] + Decode(rest)
  {
    ConcatAssociates(a, e, rest);
    TakeOneMore(rs, n, Decode(rest));
  }

  lemma {:induction false} DecodePayload(os: seq<Object>, encrypted: bool)
    ensures Decode(Payload(os, encrypted)[1..]) == Readings(StableSort(os))
  {
    var rs := Readings(StableSort(os));
    ReadingsAreSendable(StableSort(os), |StableSort(os)|);
    DecodeEncoded(rs, |rs|, []);
    assert Payload(os, encrypted)[1..] == EncodeUpTo(rs, |rs|) + [];
    assert rs[..|rs|] + [] == rs;
  }

  lemma {:induction false} SortedReadings(os: seq<Object>)
    ensures Ascending(Readings(StableSort(os)))
    ensures forall id: Byte :: Raws(Readings(StableSort(os)), id) == Sent(os, id)
  {
    SortSorts(os, |os|);
    ReadingsAscend(StableSort(os), |StableSort(os)|);
    forall id: Byte ensures Raws(Readings(StableSort(os)), id) == Sent(os, id) {
      SortKeepsRaws(os, |os|, id);
    }
  }

  /**
    * Decoding a payload gives version 2, the encryption flag, and the known objects in ascending
    * id order, those of each id in the order they were given and with their raw values.
    */
  lemma {:induction false} PayloadRoundTrip(os: seq<Object>, encrypted: bool)
    ensures Payload(os, encrypted)[0] / 32 == 2
    ensures Payload(os, encrypted)[0] % 2 == (if encrypted then 1 else 0)
    ensures Ascending(Decode(Payload(os, encrypted)[1..]))
    ensures forall id: Byte :: Raws(Decode(Payload(os, encrypted)[1..]), id) == Sent(os, id)
  {
    DecodePayload(os, encrypted);
    SortedReadings(os);
  }

  // ----- what the values mean -----

  /** The value a receiver shows for a raw one. */
  function Shown(id: Byte, raw: int): real {
    raw as real / StepsPerUnit(id) as real
  }

  function Magnitude(r: int): nat {
    if r < 0 then -r else r
  }

  /** No value the object can carry is shown nearer to the one given, and of two equally near the one
      further from zero is sent. */
  ghost predicate NearestShown(id: Byte, raw: int, value: real) {
    && Carries(id, raw)
    && forall r :: Carries(id, r) && r != raw ==>
         && Distance(Shown(id, raw), value) <= Distance(Shown(id, r), value)
         && (Distance(Shown(id, raw), value) == Distance(Shown(id, r), value) ==> Magnitude(r) < Magnitude(raw))
  }

  lemma {:induction false} RoundBreaksTies(s: Spec, x: real, r: int)
    requires s.size in {1, 2, 3} && Low(s) <= r <= High(s)
    ensures var raw := Clamp(s, Round(x));
            r != raw && Distance(raw as real, x) == Distance(r as real, x) ==> Magnitude(r) < Magnitude(raw)
  {
    var n := Round(x);
    RoundIsNearest(x, r);
    if n < Low(s) {
      assert x <= n as real + 0.5 <= Low(s) as real - 0.5;
    } else if n > High(s) {
      assert x >= n as real - 0.5 >= High(s) as real + 0.5;
    } else if r != n && Distance(n as real, x) == Distance(r as real, x) {
      TieIsNext(n, r, x);
    }
  }

  lemma {:induction false} TieIsNext(n: int, r: int, x: real)
    requires n == Round(x) && r != n && Distance(n as real, x) == Distance(r as real, x)
    ensures Magnitude(r) < Magnitude(n)
  {
    RoundIsNearest(x, n);
    if r > n {
      assert r as real >= n as real + 1.0;
      assert x - n as real == r as real - x;
    } else {
      assert r as real <= n as real - 1.0;
    }
  }

  /** The scale is linear, so distances scale too. */
  lemma {:induction false} DistancesScale(s: Spec, raw: int, value: real)
    ensures Distance(Scaled(s, raw as real), value) == Scaled(s, Distance(raw as real, Unscaled(s, value)))
  {
  }

  lemma {:induction false} SentIsNearest(id: Byte, value: real)
    requires ObjectSpec(id).Some?
    ensures NearestShown(id, Raw(ObjectSpec(id).value, value), value)
  {
    var s := ObjectSpec(id).value;
    TableIsFormat(id);
    var raw := Raw(s, value);
    RawIsNearest(s, value, Low(s));
    assert Low(s) <= High(s);
    forall r | Carries(id, r) && r != raw
      ensures Distance(Shown(id, raw), value) <= Distance(Shown(id, r), value)
      ensures Distance(Shown(id, raw), value) == Distance(Shown(id, r), value) ==> Magnitude(r) < Magnitude(raw)
    {
      RawIsNearest(s, value, r);
      RoundBreaksTies(s, Unscaled(s, value), r);
      DistancesScale(s, raw, value);
      DistancesScale(s, r, value);
    }
  }

  /** The values given for one object id, in order. */
  function ValuesUpTo(os: seq<Object>, id: Byte, n: nat): seq<real>
    requires n <= |os|
  {
    if n == 0 then [] else ValuesUpTo(os, id, n - 1) + ValueOf(os[n - 1], id)
  }

  ghost predicate AllNearest(id: Byte, raws: seq<int>, values: seq<real>) {
    |raws| == |values| && forall i :: 0 <= i < |raws| ==> NearestShown(id, raws[i], values[i])
  }

  /** What an id gets from one object. */
  function ValueOf(o: Object, id: Byte): seq<real> {
    if o.id == id then [o.value] else []
  }

  lemma {:induction false} OneSent(o: Object, id: Byte)
    ensures var raws := Raws(ReadingOf(o), id);
            if Width(id) > 0 then AllNearest(id, raws, ValueOf(o, id)) else raws == []
  {
    TableIsFormat(id);
    if o.id != id {
      OtherIdSendsNothing(o, id);
    } else if ObjectSpec(id).Some? {
      SentIsNearest(id, o.value);
      RawsSnoc([], ReadingOf(o)[0], id);
      assert [] + ReadingOf(o) == ReadingOf(o);
    }
  }

  lemma {:induction false} NearestJoin(id: Byte, a: seq<int>, v: seq<real>, b: seq<int>, w: seq<real>)
    requires AllNearest(id, a, v) && AllNearest(id, b, w)
    ensures AllNearest(id, a + b, v + w)
  {
  }

  lemma {:induction false} SentValues(os: seq<Object>, id: Byte, n: nat)
    requires n <= |os|
    ensures var raws := Raws(Collected(ReadingOf, os, n), id);
            if Width(id) > 0 then AllNearest(id, raws, ValuesUpTo(os, id, n)) else raws == []
  {
    if n > 0 {
      SentValues(os, id, n - 1);
      var before := Collected(ReadingOf, os, n - 1);
      RawsJoin(before, os[n - 1], id);
      OneSent(os[n - 1], id);
      if Width(id) > 0 {
        NearestJoin(id, Raws(before, id), ValuesUpTo(os, id, n - 1), Raws(ReadingOf(os[n - 1]), id), ValueOf(os[n - 1], id));
      }
    }
  }

  /**
    * What a receiver of the payload learns, by the format alone: version 2 and the encryption flag, and
    * then, in ascending order of object ids, for each known id one value for each one given, in order,
    * the nearest that can be carried; nothing for an unknown id.
    */
  lemma {:induction false} PayloadSays(os: seq<Object>, encrypted: bool)
    ensures var p := Payload(os, encrypted);
            && p[0] / 32 == 2 && p[0] % 2 == (if encrypted then 1 else 0)
            && Ascending(Decode(p[1..]))
            && forall id: Byte ::
                 if Width(id) > 0 then AllNearest(id, Raws(Decode(p[1..]), id), ValuesUpTo(os, id, |os|))
                 else Raws(Decode(p[1..]), id) == []
  {
    PayloadRoundTrip(os, encrypted);
    forall id: Byte
      ensures if Width(id) > 0 then AllNearest(id, Sent(os, id), ValuesUpTo(os, id, |os|)) else Sent(os, id) == []
    {
      SentValues(os, id, |os|);
    }
  }

  /** Two lists give the same payload exactly when each id sends the same raw values in the same order. */
  lemma {:induction false} SamePayloadIff(a: seq<Object>, b: seq<Object>, encrypted: bool)
    ensures Payload(a, encrypted) == Payload(b, encrypted) <==> forall id: Byte :: Sent(a, id) == Sent(b, id)
  {
    PayloadRoundTrip(a, encrypted);
    PayloadRoundTrip(b, encrypted);
    if forall id: Byte :: Sent(a, id) == Sent(b, id) {
      DecodePayload(a, encrypted);
      DecodePayload(b, encrypted);
      AscendingUnique(Readings(StableSort(a)), Readings(StableSort(b)));
    }
  }

  ghost predicate DistinctIds(os: seq<Object>) {
    forall i, j :: 0 <= i < j < |os| ==> os[i].id != os[j].id
  }

  /** With distinct ids, an id sends what its only object sends. */
  lemma {:induction false} SentByOnly(os: seq<Object>, n: nat, k: nat, id: Byte)
    requires DistinctIds(os) && k < n <= |os| && os[k].id == id
    ensures Raws(Collected(ReadingOf, os, n), id) == Raws(ReadingOf(os[k]), id)
    decreases n
  {
    var before, last := Collected(ReadingOf, os, n - 1), os[n - 1];
    RawsJoin(before, last, id);
    if k < n - 1 {
      SentByOnly(os, n - 1, k, id);
      OtherIdSendsNothing(last, id);
      assert Raws(before, id) + [] == Raws(before, id);
    } else {
      SentByNone(os, n - 1, id);
      assert [] + Raws(ReadingOf(last), id) == Raws(ReadingOf(last), id);
    }
  }

  lemma {:induction false} SentByNone(os: seq<Object>, n: nat, id: Byte)
    requires n <= |os| && forall i :: 0 <= i < n ==> os[i].id != id
    ensures Raws(Collected(ReadingOf, os, n), id) == []
  {
    if n > 0 {
      SentByNone(os, n - 1, id);
      RawsJoin(Collected(ReadingOf, os, n - 1), os[n - 1], id);
      OtherIdSendsNothing(os[n - 1], id);
    }
  }

  lemma {:induction false} CountOnce(a: seq<Object>, k: nat)
    requires DistinctIds(a) && k < |a|
    ensures multiset(a)[a[k]] == 1
  {
    assert a == a[..k] + [a[k]] + a[k + 1..];
    assert a[k] !in a[..k] && a[k] !in a[k + 1..];
  }

  lemma {:induction false} CountTwice(b: seq<Object>, i: nat, j: nat)
    requires i < j < |b| && b[i] == b[j]
    ensures multiset(b)[b[i]] >= 2
  {
    assert b == b[..j] + [b[j]] + b[j + 1..];
    assert b[..j] == b[..i] + [b[i]] + b[i + 1..j];
  }

  lemma {:induction false} PermutedStayDistinct(a: seq<Object>, b: seq<Object>)
    requires DistinctIds(a) && multiset(a) == multiset(b)
    ensures DistinctIds(b)
  {
    forall i, j | 0 <= i < j < |b| ensures b[i].id != b[j].id {
      assert b[i] in multiset(b) && b[j] in multiset(b);
      assert b[i] in a && b[j] in a;
      if b[i].id == b[j].id {
        var k :| 0 <= k < |a| && a[k] == b[i];
        CountOnce(a, k);
        CountTwice(b, i, j);
      }
    }
  }

  /** The payload of objects with distinct ids does not depend on their order. */
  lemma {:induction false} OrderDoesNotMatter(a: seq<Object>, b: seq<Object>, encrypted: bool)
    requires DistinctIds(a) && multiset(a) == multiset(b)
    ensures Payload(a, encrypted) == Payload(b, encrypted)
  {
    PermutedStayDistinct(a, b);
    forall id: Byte ensures Sent(a, id) == Sent(b, id) {
      SameSender(a, b, id);
    }
    SamePayloadIff(a, b, encrypted);
  }

  lemma {:induction false} SameSender(a: seq<Object>, b: seq<Object>, id: Byte)
    requires DistinctIds(a) && DistinctIds(b) && multiset(a) == multiset(b)
    ensures Sent(a, id) == Sent(b, id)
  {
    if i :| 0 <= i < |a| && a[i].id == id {
      assert a[i] in multiset(b);
      var j :| 0 <= j < |b| && b[j] == a[i];
      SentByOnly(a, |a|, i, id);
      SentByOnly(b, |b|, j, id);
    } else {
      forall j | 0 <= j < |b| ensures b[j].id != id {
        assert b[j] in multiset(a);
      }
      SentByNone(a, |a|, id);
      SentByNone(b, |b|, id);
    }
  }

  // ----- the encoder -----

  /** (u >> 8 * i) & 0xFF */
  function ShiftedByte(u: Uint64, i: nat): Byte
    requires i < 3
  {
    (if i == 0 then u as int else if i == 1 then u as int / 256 else u as int / 0x1_0000) % 256
  }

  lemma {:induction false} Shift8(n: int, q: int, r: int)
    requires n == 256 * q + r && 0 <= r < 256
    ensures n / 256 == q
  {
  }

  lemma {:induction false} Shift16(n: int, q: int, r: int)
    requires n == 0x1_0000 * q + r && 0 <= r < 0x1_0000
    ensures n / 0x1_0000 == q
  {
  }

  /** Converting to unsigned 64 bits and shifting gives the two's complement bytes. */
  lemma {:induction false} ShiftedIsByteAt(raw: int, i: nat)
    requires i < 3
    ensures ShiftedByte(raw % 0x1_0000_0000_0000_0000, i) == ByteAt(raw, i)
  {
    var k := raw / 0x1_0000_0000_0000_0000;
    var u := raw % 0x1_0000_0000_0000_0000;
    var q, q2 := raw / 256, raw / 256 / 256;
    Shift8(u, q - k * 0x100_0000_0000_0000, raw % 256);
    Shift16(u, q2 - k * 0x1_0000_0000_0000, raw % 256 + 256 * (q % 256));
  }

  method ClampRaw(spec: Spec, rounded: int) returns (raw: int)
    requires 1 <= spec.size <= 3
    ensures Low(spec) <= raw <= High(spec)
    ensures raw == Clamp(spec, rounded)
  {
    raw := rounded;
    if spec.signed {
      var lo, hi := -(Limit(spec.size) / 2), Limit(spec.size) / 2 - 1;
      if raw < lo {
        raw := lo;
      }
      if raw > hi {
        raw := hi;
      }
    } else {
      if raw < 0 {
        raw := 0;
      }
      var umax := Limit(spec.size) - 1;
      if raw > umax {
        raw := umax;
      }
    }
  }

  method AppendObject(before: seq<Byte>, id: Byte, size: nat, raw: int) returns (out: seq<Byte>)
    requires size <= 3
    ensures out == before + ([id] + Bytes(raw, size))
  {
    var u: Uint64 := raw % 0x1_0000_0000_0000_0000;
    out := before + [id];
    for i := 0 to size
      invariant out == before + ([id] + Bytes(raw, size)[..i])
    {
      ShiftedIsByteAt(raw, i);
      out := out + [ShiftedByte(u, i)];
    }
  }

  method BuildBTHomePayload(objects: seq<Object>, encrypted: bool) returns (out: seq<Byte>)
    ensures out == Payload(objects, encrypted)
  {
    var sorted := StableSort(objects);
    ReadingsAreSendable(sorted, |sorted|);
    out := [DEVICE_INFO + if encrypted then 1 else 0];
    ghost var first := out;
    for k := 0 to |sorted|
      invariant forall r :: r in Collected(ReadingOf, sorted, k) ==> Sendable(r)
      invariant out == first + EncodeUpTo(Collected(ReadingOf, sorted, k), |Collected(ReadingOf, sorted, k)|)
    {
      var o := sorted[k];
      var spec := ObjectSpec(o.id);
      ReadingsAreSendable(sorted, k + 1);
      if spec.None? {
        assert Collected(ReadingOf, sorted, k + 1) == Collected(ReadingOf, sorted, k);
        continue;
      }
      var raw := ClampRaw(spec.value, Round(Unscaled(spec.value, o.value)));
      PayloadStep(first, Collected(ReadingOf, sorted, k), Reading(o.id, raw));
      out := AppendObject(out, o.id, spec.value.size, raw);
    }
  }

  lemma {:induction false} EncodePrefix(a: seq<Reading>, b: seq<Reading>, n: nat)
    requires n <= |a| && forall r :: r in a + b ==> Sendable(r)
    requires forall r :: r in a ==> Sendable(r)
    ensures EncodeUpTo(a + b, n) == EncodeUpTo(a, n)
  {
    if n > 0 {
      EncodePrefix(a, b, n - 1);
    }
  }

  lemma {:induction false} EncodeSnoc(a: seq<Reading>, r: Reading)
    requires Sendable(r) && forall x :: x in a ==> Sendable(x)
    ensures EncodeUpTo(a + [r], |a| + 1) == EncodeUpTo(a, |a|) + EncodeReading(r)
  {
    EncodePrefix(a, [r], |a|);
  }

  lemma {:induction false} PayloadStep(first: seq<Byte>, sent: seq<Reading>, r: Reading)
    requires Sendable(r) && forall x :: x in sent ==> Sendable(x)
    ensures first + EncodeUpTo(sent + [r], |sent + [r]|) == first + EncodeUpTo(sent, |sent|) + EncodeReading(r)
  {
    EncodeSnoc(sent, r);
    ConcatAssociates(first, EncodeUpTo(sent, |sent|), EncodeReading(r));
  }
}
