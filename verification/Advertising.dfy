/**
  * Advertising data (Core Specification Vol 3 Part C, section 11): the proxy's serialiser
  * (components/bluetooth_proxy/bluetooth_proxy.cpp) against the tracker's parser
  * (components/esp32_ble_tracker/esp32_ble_tracker.cpp).
  */
module Advertising {
  import opened Common
  import opened Uuid

  const AD_FLAGS: Byte := 0x01
  const AD_COMPLETE_LOCAL_NAME: Byte := 0x09
  const AD_SERVICE_DATA_UUID16: Byte := 0x16
  const AD_MANUFACTURER_DATA: Byte := 0xff
  const BUFFER_SIZE := 62

  type AdUuid = u: BleUuid | Valid(u) witness FromUint16(0)

  datatype ServiceData = ServiceData(uuid: AdUuid, data: seq<Byte>)

  datatype Device = Device(
    flag: Option<Byte>,
    name: seq<Byte>,
    manufacturerDatas: seq<ServiceData>,
    serviceDatas: seq<ServiceData>,
    serviceUuids: seq<AdUuid>,
    txPowers: seq<int>,
    appearance: Option<Uint16>)

  const NO_DATA := Device(None, [], [], [], [], [], None)

  /** One AD structure on the air: a length byte, a type byte and the data. */
  datatype Field = Field(kind: Byte, data: seq<Byte>)

  // ----- the parser -----

  /** The AD structures of a payload from a position on, up to the first zero or overlong length. */
  function FieldsFrom(p: seq<Byte>, pos: nat): seq<Field>
    decreases |p| - pos
  {
    if pos + 1 >= |p| || p[pos] == 0 || pos + 1 + p[pos] as int > |p| then []
    else
      var end := pos + 1 + p[pos] as int;
      [Field(p[pos + 1], p[pos + 2..end])] + FieldsFrom(p, end)
  }

  function Fields(p: seq<Byte>): seq<Field> {
    FieldsFrom(p, 0)
  }

  function Le16(b: seq<Byte>): Uint16
    requires |b| >= 2
  {
    (b[0] as int) + 256 * (b[1] as int)
  }

  function Le32(b: seq<Byte>): Uint32
    requires |b| >= 4
  {
    (b[0] as int) + 0x100 * (b[1] as int) + 0x1_0000 * (b[2] as int) + 0x100_0000 * (b[3] as int)
  }

  /** A list of UUIDs `width` bytes each, from a position on; a rest that is too short is ignored. */
  function UuidsFrom(make: seq<Byte> -> AdUuid, width: nat, b: seq<Byte>, pos: nat): seq<AdUuid>
    requires width > 0
    decreases |b| - pos
  {
    if pos + width > |b| then [] else [make(b[pos..pos + width])] + UuidsFrom(make, width, b, pos + width)
  }

  function Uuid16(b: seq<Byte>): AdUuid {
    if |b| >= 2 then FromUint16(Le16(b)) else FromUint16(0)
  }

  function Uuid32(b: seq<Byte>): AdUuid {
    if |b| >= 4 then FromUint32(Le32(b)) else FromUint16(0)
  }

  function Uuid128(b: seq<Byte>): AdUuid {
    if |b| >= 16 then FromRaw(b[..16]) else FromUint16(0)
  }

  function Interpret(d: Device, f: Field): Device {
    var n := |f.data|;
    if f.kind == AD_FLAGS then
      if n > 0 then d.(flag := Some(f.data[0])) else d
    else if f.kind == 0x02 || f.kind == 0x03 then d.(serviceUuids := d.serviceUuids + UuidsFrom(Uuid16, 2, f.data, 0))
    else if f.kind == 0x04 || f.kind == 0x05 then d.(serviceUuids := d.serviceUuids + UuidsFrom(Uuid32, 4, f.data, 0))
    else if f.kind == 0x06 || f.kind == 0x07 then d.(serviceUuids := d.serviceUuids + UuidsFrom(Uuid128, 16, f.data, 0))
    else if f.kind == 0x08 || f.kind == AD_COMPLETE_LOCAL_NAME then d.(name := f.data)
    else if f.kind == 0x0a then
      if n > 0 then d.(txPowers := d.txPowers + [SignedByte(f.data[0])]) else d
    else if f.kind == 0x19 then
      if n >= 2 then d.(appearance := Some(Le16(f.data))) else d
    else if f.kind == AD_SERVICE_DATA_UUID16 then
      if n >= 2 then d.(serviceDatas := d.serviceDatas + [ServiceData(FromUint16(Le16(f.data)), f.data[2..])]) else d
    else if f.kind == 0x20 then
      if n >= 4 then d.(serviceDatas := d.serviceDatas + [ServiceData(FromUint32(Le32(f.data)), f.data[4..])]) else d
    else if f.kind == 0x21 then
      if n >= 16 then d.(serviceDatas := d.serviceDatas + [ServiceData(FromRaw(f.data[..16]), f.data[16..])]) else d
    else if f.kind == AD_MANUFACTURER_DATA then
      if n >= 2 then d.(manufacturerDatas := d.manufacturerDatas + [ServiceData(FromUint16(Le16(f.data)), f.data)]) else d
    else d
  }

  function InterpretAll(d: Device, fs: seq<Field>): Device
    decreases |fs|
  {
    if fs == [] then d else InterpretAll(Interpret(d, fs[0]), fs[1..])
  }

  function Parse(p: seq<Byte>): Device {
    InterpretAll(NO_DATA, Fields(p))
  }

  /** The three list cases run the same loop at different widths. */
  method ReadUuids(make: seq<Byte> -> AdUuid, width: nat, data: seq<Byte>) returns (us: seq<AdUuid>)
    requires width > 0
    ensures us == UuidsFrom(make, width, data, 0)
  {
    us := [];
    var i := 0;
    while i + width <= |data|
      invariant us + UuidsFrom(make, width, data, i) == UuidsFrom(make, width, data, 0)
      decreases |data| - i
    {
      var u := make(data[i..i + width]);
      ConcatAssociates(us, [u], UuidsFrom(make, width, data, i + width));
      us := us + [u];
      i := i + width;
    }
  }

  method HandleField(d0: Device, kind: Byte, data: seq<Byte>) returns (d: Device)
    ensures d == Interpret(d0, Field(kind, data))
  {
    d := d0;
    match kind {
      case 0x02 =>
        var us := ReadUuids(Uuid16, 2, data);
        d := d.(serviceUuids := d.serviceUuids + us);
      case 0x03 =>
        var us := ReadUuids(Uuid16, 2, data);
        d := d.(serviceUuids := d.serviceUuids + us);
      case 0x04 =>
        var us := ReadUuids(Uuid32, 4, data);
        d := d.(serviceUuids := d.serviceUuids + us);
      case 0x05 =>
        var us := ReadUuids(Uuid32, 4, data);
        d := d.(serviceUuids := d.serviceUuids + us);
      case 0x06 =>
        var us := ReadUuids(Uuid128, 16, data);
        d := d.(serviceUuids := d.serviceUuids + us);
      case 0x07 =>
        var us := ReadUuids(Uuid128, 16, data);
        d := d.(serviceUuids := d.serviceUuids + us);
      case 0x01 =>
        if |data| > 0 { d := d.(flag := Some(data[0])); }
      case 0x08 => d := d.(name := data);
      case 0x09 => d := d.(name := data);
      case 0x0a =>
        if |data| > 0 { d := d.(txPowers := d.txPowers + [SignedByte(data[0])]); }
      case 0x19 =>
        if |data| >= 2 { d := d.(appearance := Some(Le16(data))); }
      case 0x16 =>
        if |data| >= 2 { d := d.(serviceDatas := d.serviceDatas + [ServiceData(FromUint16(Le16(data)), data[2..])]); }
      case 0x20 =>
        if |data| >= 4 { d := d.(serviceDatas := d.serviceDatas + [ServiceData(FromUint32(Le32(data)), data[4..])]); }
      case 0x21 =>
        if |data| >= 16 { d := d.(serviceDatas := d.serviceDatas + [ServiceData(FromRaw(data[..16]), data[16..])]); }
      case 0xff =>
        if |data| >= 2 { d := d.(manufacturerDatas := d.manufacturerDatas + [ServiceData(FromUint16(Le16(data)), data)]); }
      case _ =>
    }
  }

  lemma {:induction false} InterpretFirst(d: Device, f: Field, fs: seq<Field>)
    ensures InterpretAll(d, [f] + fs) == InterpretAll(Interpret(d, f), fs)
  {
    assert ([f] + fs)[1..] == fs;
  }

  method ParseAdPayload(payload: seq<Byte>) returns (device: Device)
    requires |payload| < 256
    ensures device == Parse(payload)
  {
    device := NO_DATA;
    var pos := 0;
    ghost var goal := Parse(payload);
    while pos + 1 < |payload|
      invariant pos <= |payload|
      invariant InterpretAll(device, FieldsFrom(payload, pos)) == goal
    {
      var fieldLen := payload[pos] as int;
      if fieldLen == 0 || pos + 1 + fieldLen > |payload| {
        break;
      }
      var end := pos + 1 + fieldLen;
      InterpretFirst(device, Field(payload[pos + 1], payload[pos + 2..end]), FieldsFrom(payload, end));
      device := HandleField(device, payload[pos + 1], payload[pos + 2..end]);
      pos := end;
    }
  }

  // ----- the serialiser -----

  /** A parsed property of the device, already cut to the length the serialiser sends. */
  datatype AdItem = Flags(flag: Byte) | Manufacturer(entry: ServiceData) | Service(entry: ServiceData) | Name(text: seq<Byte>)

  type Item = i: AdItem | FieldLength(i) <= 31 witness Flags(0)

  function FieldLength(i: AdItem): nat {
    match i
    case Flags(_) => 1
    case Manufacturer(e) => |e.data|
    case Service(e) => 2 + |e.data|
    case Name(t) => |t|
  }

  function ManufacturerItems(ms: seq<ServiceData>): seq<Item> {
    if ms == [] then [] else [Manufacturer(ms[0].(data := Truncate(ms[0].data, 30)))] + ManufacturerItems(ms[1..])
  }

  function ServiceItems(ss: seq<ServiceData>): seq<Item> {
    if ss == [] then [] else [Service(ss[0].(data := Truncate(ss[0].data, 29)))] + ServiceItems(ss[1..])
  }

  function FlagItems(flag: Option<Byte>): seq<Item> {
    if flag.Some? then [Flags(flag.value)] else []
  }

  function NameItems(name: seq<Byte>): seq<Item> {
    if name != [] then [Name(Truncate(name, 28))] else []
  }

  /** What the device offers, in the order it is offered to the buffer. */
  function Items(d: Device): seq<Item> {
    FlagItems(d.flag) + ManufacturerItems(d.manufacturerDatas) + ServiceItems(d.serviceDatas) + NameItems(d.name)
  }

  function ItemField(i: Item): (f: Field)
    ensures |f.data| == FieldLength(i)
  {
    match i
    case Flags(f) => Field(AD_FLAGS, [f])
    case Manufacturer(e) => Field(AD_MANUFACTURER_DATA, e.data)
    case Service(e) => Field(AD_SERVICE_DATA_UUID16, [Get16(e.uuid) % 256, Get16(e.uuid) / 256] + e.data)
    case Name(t) => Field(AD_COMPLETE_LOCAL_NAME, t)
  }

  /** The items that fit, greedily: one that does not fit is dropped, later ones may still fit. */
  function Kept(items: seq<Item>, used: nat): seq<Item> {
    if items == [] then []
    else if used + 2 + FieldLength(items[0]) > BUFFER_SIZE then Kept(items[1..], used)
    else [items[0]] + Kept(items[1..], used + 2 + FieldLength(items[0]))
  }

  function EncodeField(f: Field): seq<Byte>
    requires |f.data| < 255
  {
    [|f.data| + 1, f.kind] + f.data
  }

  function Encode(items: seq<Item>): seq<Byte> {
    if items == [] then [] else EncodeField(ItemField(items[0])) + Encode(items[1..])
  }

  function Serialise(d: Device): seq<Byte> {
    Encode(Kept(Items(d), 0))
  }

  lemma {:induction false} KeptFits(items: seq<Item>, used: nat)
    requires used <= BUFFER_SIZE
    ensures used + |Encode(Kept(items, used))| <= BUFFER_SIZE
  {
    if items != [] {
      var n := used + 2 + FieldLength(items[0]);
      if n > BUFFER_SIZE {
        KeptFits(items[1..], used);
      } else {
        KeptFits(items[1..], n);
        var k := Kept(items[1..], n);
        assert ([items[0]] + k)[1..] == k;
      }
    }
  }

  /** The AD buffer: fixed storage filled from the front. */
  class AdBuffer {
    const buf: array<Byte>
    var len: nat

    ghost predicate Valid()
      reads this
    {
      buf.Length == BUFFER_SIZE && len <= BUFFER_SIZE
    }

    ghost function Contents(): seq<Byte>
      requires Valid()
      reads this, buf
    {
      buf[..len]
    }

    constructor ()
      ensures Valid() && fresh(buf) && Contents() == []
    {
      buf := new Byte[BUFFER_SIZE](_ => 0);
      len := 0;
    }

    /** memcpy behind the bytes used so far. */
    method CopyBehind(data: seq<Byte>)
      requires Valid() && len + |data| <= BUFFER_SIZE
      modifies buf
      ensures buf[..len + |data|] == old(buf[..len]) + data
    {
      for i := 0 to |data|
        invariant buf[..len + i] == old(buf[..len]) + data[..i]
      {
        buf[len + i] := data[i];
        assert data[..i + 1] == data[..i] + [data[i]];
        assert buf[..len + i + 1] == buf[..len + i] + [data[i]];
      }
      assert data[..|data|] == data;
    }

    method AppendAd(kind: Byte, data: seq<Byte>)
      requires Valid() && |data| < 255
      modifies this, buf
      ensures Valid()
      ensures Contents() == if old(len) + 2 + |data| > BUFFER_SIZE then old(Contents())
                            else old(Contents()) + EncodeField(Field(kind, data))
    {
      if len + 2 + |data| > BUFFER_SIZE {
        return;
      }
      ghost var before := Contents();
      buf[len] := |data| + 1;
      buf[len + 1] := kind;
      len := len + 2;
      assert buf[..len] == before + [|data| + 1, kind];
      CopyBehind(data);
      ConcatAssociates(before, [|data| + 1, kind], data);
      len := len + |data|;
    }
  }

  lemma {:induction false} EncodeConcat(a: seq<Item>, b: seq<Item>)
    ensures Encode(a + b) == Encode(a) + Encode(b)
  {
    if a == [] {
      assert a + b == b;
    } else {
      assert (a + b)[1..] == a[1..] + b;
      EncodeConcat(a[1..], b);
    }
  }

  lemma {:induction false} KeptConcat(a: seq<Item>, b: seq<Item>, used: nat)
    ensures Kept(a + b, used) == Kept(a, used) + Kept(b, used + |Encode(Kept(a, used))|)
  {
    if a == [] {
      assert a + b == b;
    } else {
      assert (a + b)[1..] == a[1..] + b;
      var n := used + 2 + FieldLength(a[0]);
      if n > BUFFER_SIZE {
        KeptConcat(a[1..], b, used);
      } else {
        KeptConcat(a[1..], b, n);
        var k := Kept(a[1..], n);
        assert ([a[0]] + k)[1..] == k;
      }
    }
  }

  lemma {:induction false} KeptSnoc(a: seq<Item>, i: Item)
    ensures Encode(Kept(a + [i], 0)) == Encode(Kept(a, 0)) +
              if |Encode(Kept(a, 0))| + 2 + FieldLength(i) > BUFFER_SIZE then [] else EncodeField(ItemField(i))
  {
    KeptConcat(a, [i], 0);
    var k := Kept([i], |Encode(Kept(a, 0))|);
    EncodeConcat(Kept(a, 0), k);
    assert [i][1..] == [];
    assert Encode([]) == [] && Kept([], |Encode(Kept(a, 0))|) == [];
    assert Encode([i]) == EncodeField(ItemField(i));
  }

  lemma {:induction false} ManufacturerSnoc(ms: seq<ServiceData>, m: ServiceData)
    ensures ManufacturerItems(ms + [m]) == ManufacturerItems(ms) + [Manufacturer(m.(data := Truncate(m.data, 30)))]
  {
    if ms != [] {
      assert (ms + [m])[1..] == ms[1..] + [m];
      ManufacturerSnoc(ms[1..], m);
    }
  }

  lemma {:induction false} ServiceSnoc(ss: seq<ServiceData>, s: ServiceData)
    ensures ServiceItems(ss + [s]) == ServiceItems(ss) + [Service(s.(data := Truncate(s.data, 29)))]
  {
    if ss != [] {
      assert (ss + [s])[1..] == ss[1..] + [s];
      ServiceSnoc(ss[1..], s);
    }
  }

  lemma {:induction false} ManufacturerStep(offered: seq<Item>, ms: seq<ServiceData>, i: nat)
    requires i < |ms|
    ensures var sent := Encode(Kept(offered + ManufacturerItems(ms[..i]), 0));
            var data := Truncate(ms[i].data, 30);
            Encode(Kept(offered + ManufacturerItems(ms[..i + 1]), 0)) == sent +
              if |sent| + 2 + |data| > BUFFER_SIZE then [] else EncodeField(Field(AD_MANUFACTURER_DATA, data))
  {
    var now := offered + ManufacturerItems(ms[..i]);
    var item: Item := Manufacturer(ms[i].(data := Truncate(ms[i].data, 30)));
    KeptSnoc(now, item);
    ManufacturerSnoc(ms[..i], ms[i]);
    assert ms[..i + 1] == ms[..i] + [ms[i]];
    assert now + [item] == offered + ManufacturerItems(ms[..i + 1]);
  }

  method AppendManufacturers(buf: AdBuffer, ms: seq<ServiceData>, ghost offered: seq<Item>)
    requires buf.Valid() && buf.Contents() == Encode(Kept(offered, 0))
    modifies buf, buf.buf
    ensures buf.Valid() && buf.Contents() == Encode(Kept(offered + ManufacturerItems(ms), 0))
  {
    assert offered + ManufacturerItems([]) == offered;
    for i := 0 to |ms|
      invariant buf.Valid() && buf.Contents() == Encode(Kept(offered + ManufacturerItems(ms[..i]), 0))
    {
      ManufacturerStep(offered, ms, i);
      buf.AppendAd(AD_MANUFACTURER_DATA, Truncate(ms[i].data, 30));
    }
    assert ms[..|ms|] == ms;
  }

  /** 16-bit service data: the UUID's low two bytes, then at most 29 bytes of payload. */
  function ServiceBytes(s: ServiceData): (b: seq<Byte>)
    ensures |b| <= 31
  {
    [Get16(s.uuid) % 256, Get16(s.uuid) / 256] + Truncate(s.data, 29)
  }

  lemma {:induction false} ServiceStep(offered: seq<Item>, ss: seq<ServiceData>, i: nat)
    requires i < |ss|
    ensures var sent := Encode(Kept(offered + ServiceItems(ss[..i]), 0));
            var data := ServiceBytes(ss[i]);
            Encode(Kept(offered + ServiceItems(ss[..i + 1]), 0)) == sent +
              if |sent| + 2 + |data| > BUFFER_SIZE then [] else EncodeField(Field(AD_SERVICE_DATA_UUID16, data))
  {
    var now := offered + ServiceItems(ss[..i]);
    var item: Item := Service(ss[i].(data := Truncate(ss[i].data, 29)));
    KeptSnoc(now, item);
    ServiceSnoc(ss[..i], ss[i]);
    assert ss[..i + 1] == ss[..i] + [ss[i]];
    assert now + [item] == offered + ServiceItems(ss[..i + 1]);
  }

  method AppendServices(buf: AdBuffer, ss: seq<ServiceData>, ghost offered: seq<Item>)
    requires buf.Valid() && buf.Contents() == Encode(Kept(offered, 0))
    modifies buf, buf.buf
    ensures buf.Valid() && buf.Contents() == Encode(Kept(offered + ServiceItems(ss), 0))
  {
    assert offered + ServiceItems([]) == offered;
    for i := 0 to |ss|
      invariant buf.Valid() && buf.Contents() == Encode(Kept(offered + ServiceItems(ss[..i]), 0))
    {
      ServiceStep(offered, ss, i);
      buf.AppendAd(AD_SERVICE_DATA_UUID16, ServiceBytes(ss[i]));
    }
    assert ss[..|ss|] == ss;
  }

  method AppendName(buf: AdBuffer, name: seq<Byte>, ghost offered: seq<Item>)
    requires buf.Valid() && buf.Contents() == Encode(Kept(offered, 0))
    modifies buf, buf.buf
    ensures buf.Valid() && buf.Contents() == Encode(Kept(offered + NameItems(name), 0))
  {
    assert offered + [] == offered;
    if name != [] {
      buf.AppendAd(AD_COMPLETE_LOCAL_NAME, Truncate(name, 28));
      KeptSnoc(offered, Name(Truncate(name, 28)));
    }
  }

  /** Rebuilds the AD payload of a device: flags, manufacturer data, 16-bit service data, name. */
  method BuildPayload(device: Device) returns (buf: AdBuffer)
    ensures fresh(buf) && fresh(buf.buf) && buf.Valid() && buf.Contents() == Serialise(device)
  {
    buf := new AdBuffer();
    assert [] + FlagItems(device.flag) == FlagItems(device.flag);
    if device.flag.Some? {
      buf.AppendAd(AD_FLAGS, [device.flag.value]);
      KeptSnoc([], Flags(device.flag.value));
    }
    ghost var offered := FlagItems(device.flag);
    AppendManufacturers(buf, device.manufacturerDatas, offered);
    offered := offered + ManufacturerItems(device.manufacturerDatas);
    AppendServices(buf, device.serviceDatas, offered);
    offered := offered + ServiceItems(device.serviceDatas);
    AppendName(buf, device.name, offered);
  }

  // ----- round trip -----

  function AddItem(d: Device, i: Item): Device {
    match i
    case Flags(f) => d.(flag := Some(f))
    case Manufacturer(e) => d.(manufacturerDatas := d.manufacturerDatas + [e])
    case Service(e) => d.(serviceDatas := d.serviceDatas + [e])
    case Name(t) => d.(name := t)
  }

  /** The device a list of items stands for. */
  function Rebuild(d: Device, items: seq<Item>): Device
    decreases |items|
  {
    if items == [] then d else Rebuild(AddItem(d, items[0]), items[1..])
  }

  /** An entry the AD format can carry back: the manufacturer entry starts with its
      company id, the service data has a 16-bit UUID. */
  predicate Clean(i: Item) {
    match i
    case Manufacturer(e) => |e.data| >= 2 && e.uuid == FromUint16(Le16(e.data))
    case Service(e) => e.uuid.len == 2
    case _ => true
  }

  /** What the parser makes of one sent item. */
  function Received(d: Device, items: seq<Item>): Device
    decreases |items|
  {
    if items == [] then d else Received(Interpret(d, ItemField(items[0])), items[1..])
  }

  /** p holds b from position k to its end. */
  ghost predicate EndsWith(p: seq<Byte>, k: nat, b: seq<Byte>) {
    |p| == k + |b| && forall i :: 0 <= i < |b| ==> p[k + i] == b[i]
  }

  lemma {:induction false} SameSlice(p: seq<Byte>, k: nat, b: seq<Byte>, i: nat, j: nat)
    requires EndsWith(p, k, b) && i <= j <= |b|
    ensures p[k + i..k + j] == b[i..j]
  {
  }

  lemma {:induction false} FieldsBehind(p: seq<Byte>, k: nat, b: seq<Byte>, pos: nat)
    requires EndsWith(p, k, b)
    ensures FieldsFrom(p, k + pos) == FieldsFrom(b, pos)
    decreases |b| - pos
  {
    if pos + 1 < |b| {
      assert p[k + pos] == b[pos] && p[k + (pos + 1)] == b[pos + 1];
      var end := pos + 1 + b[pos] as int;
      if b[pos] != 0 && end <= |b| {
        SameSlice(p, k, b, pos + 2, end);
        FieldsBehind(p, k, b, end);
      }
    }
  }

  lemma {:induction false} FieldsOfEncoding(f: Field, rest: seq<Byte>)
    requires |f.data| < 255
    ensures Fields(EncodeField(f) + rest) == [f] + Fields(rest)
  {
    var a := EncodeField(f);
    assert (a + rest)[2..|a|] == f.data;
    FieldsBehind(a + rest, |a|, rest, 0);
  }

  lemma {:induction false} ParseEncoding(d: Device, items: seq<Item>)
    ensures InterpretAll(d, Fields(Encode(items))) == Received(d, items)
    decreases |items|
  {
    if items != [] {
      var f := ItemField(items[0]);
      FieldsOfEncoding(f, Encode(items[1..]));
      ParseEncoding(Interpret(d, f), items[1..]);
      assert ([f] + Fields(Encode(items[1..])))[1..] == Fields(Encode(items[1..]));
    }
  }

  lemma {:induction false} CleanServiceField(e: ServiceData)
    requires e.uuid.len == 2
    ensures var f := [Get16(e.uuid) % 256, Get16(e.uuid) / 256] + e.data;
            FromUint16(Le16(f)) == e.uuid && f[2..] == e.data
  {
    ShortRoundTrip(e.uuid);
  }

  lemma {:induction false} CleanItemsReceived(d: Device, items: seq<Item>)
    requires forall k :: 0 <= k < |items| ==> Clean(items[k])
    ensures Received(d, items) == Rebuild(d, items)
    decreases |items|
  {
    if items != [] {
      if items[0].Service? {
        CleanServiceField(items[0].entry);
      }
      assert Clean(items[0]);
      CleanItemsReceived(Interpret(d, ItemField(items[0])), items[1..]);
    }
  }

  predicate AllClean(items: seq<Item>) {
    forall k :: 0 <= k < |items| ==> Clean(items[k])
  }

  /** The entries an item stands for, and those that come back from it. */
  function SentManufacturer(i: Item): seq<ServiceData> {
    if i.Manufacturer? then [i.entry] else []
  }

  function BackManufacturer(i: Item): seq<ServiceData> {
    if i.Manufacturer? && |i.entry.data| >= 2 then [ServiceData(FromUint16(Le16(i.entry.data)), i.entry.data)] else []
  }

  function SentService(i: Item): seq<ServiceData> {
    if i.Service? then [i.entry] else []
  }

  function BackService(i: Item): seq<ServiceData> {
    if i.Service? then [ServiceData(FromUint16(Get16(i.entry.uuid)), i.entry.data)] else []
  }

  function SentManufacturers(items: seq<Item>): seq<ServiceData> {
    if items == [] then [] else SentManufacturer(items[0]) + SentManufacturers(items[1..])
  }

  function BackManufacturers(items: seq<Item>): (b: seq<ServiceData>)
    ensures |b| <= |SentManufacturers(items)|
  {
    if items == [] then [] else BackManufacturer(items[0]) + BackManufacturers(items[1..])
  }

  function SentServices(items: seq<Item>): seq<ServiceData> {
    if items == [] then [] else SentService(items[0]) + SentServices(items[1..])
  }

  function BackServices(items: seq<Item>): seq<ServiceData> {
    if items == [] then [] else BackService(items[0]) + BackServices(items[1..])
  }

  lemma {:induction false} RebuiltLists(d: Device, items: seq<Item>)
    ensures Rebuild(d, items).manufacturerDatas == d.manufacturerDatas + SentManufacturers(items)
    ensures Rebuild(d, items).serviceDatas == d.serviceDatas + SentServices(items)
    decreases |items|
  {
    if items != [] {
      RebuiltLists(AddItem(d, items[0]), items[1..]);
    }
  }

  lemma {:induction false} ReceivedItem(d: Device, i: Item)
    ensures Interpret(d, ItemField(i)).manufacturerDatas == d.manufacturerDatas + BackManufacturer(i)
    ensures Interpret(d, ItemField(i)).serviceDatas == d.serviceDatas + BackService(i)
  {
    var f := ItemField(i);
    if i.Service? {
      assert Le16(f.data) == Get16(i.entry.uuid);
      assert f.data[2..] == i.entry.data;
    }
  }

  lemma {:induction false} ReceivedManufacturers(d: Device, items: seq<Item>)
    ensures Received(d, items).manufacturerDatas == d.manufacturerDatas + BackManufacturers(items)
    decreases |items|
  {
    if items != [] {
      var next := Interpret(d, ItemField(items[0]));
      ReceivedItem(d, items[0]);
      ReceivedManufacturers(next, items[1..]);
      ConcatAssociates(d.manufacturerDatas, BackManufacturer(items[0]), BackManufacturers(items[1..]));
    }
  }

  lemma {:induction false} ReceivedServices(d: Device, items: seq<Item>)
    ensures Received(d, items).serviceDatas == d.serviceDatas + BackServices(items)
    decreases |items|
  {
    if items != [] {
      var next := Interpret(d, ItemField(items[0]));
      ReceivedItem(d, items[0]);
      ReceivedServices(next, items[1..]);
      ConcatAssociates(d.serviceDatas, BackService(items[0]), BackServices(items[1..]));
    }
  }

  lemma {:induction false} UncleanDiffers(items: seq<Item>)
    requires !AllClean(items)
    ensures BackManufacturers(items) != SentManufacturers(items) || BackServices(items) != SentServices(items)
  {
    var rest := items[1..];
    if Clean(items[0]) {
      assert !AllClean(rest) by {
        var k :| 0 <= k < |items| && !Clean(items[k]);
        assert rest[k - 1] == items[k];
      }
      UncleanDiffers(rest);
      if items[0].Service? {
        ShortRoundTrip(items[0].entry.uuid);
      }
      var m, s := SentManufacturer(items[0]), SentService(items[0]);
      assert BackManufacturer(items[0]) == m && BackService(items[0]) == s;
      assert SentManufacturers(items)[|m|..] == SentManufacturers(rest);
      assert BackManufacturers(items)[|m|..] == BackManufacturers(rest);
      assert SentServices(items)[|s|..] == SentServices(rest);
      assert BackServices(items)[|s|..] == BackServices(rest);
    } else if items[0].Service? {
      assert BackServices(items)[0].uuid.len == 2;
    } else if |items[0].entry.data| >= 2 {
      assert BackManufacturers(items)[0].uuid != SentManufacturers(items)[0].uuid;
    } else {
      assert |BackManufacturers(items)| == |BackManufacturers(rest)|;
    }
  }

  /** The serialised payload never exceeds 62 bytes, and parsing it gives back exactly the
      entries that fitted (cut to length, in order) if and only if each of them is one the
      format can carry. */
  lemma {:induction false} RoundTrip(d: Device)
    ensures |Serialise(d)| <= BUFFER_SIZE
    ensures Parse(Serialise(d)) == Rebuild(NO_DATA, Kept(Items(d), 0)) <==> AllClean(Kept(Items(d), 0))
  {
    var kept := Kept(Items(d), 0);
    KeptFits(Items(d), 0);
    ParseEncoding(NO_DATA, kept);
    if AllClean(kept) {
      CleanItemsReceived(NO_DATA, kept);
    } else {
      UncleanDiffers(kept);
      ReceivedManufacturers(NO_DATA, kept);
      ReceivedServices(NO_DATA, kept);
      RebuiltLists(NO_DATA, kept);
      assert [] + BackManufacturers(kept) == BackManufacturers(kept);
      assert [] + SentManufacturers(kept) == SentManufacturers(kept);
      assert [] + BackServices(kept) == BackServices(kept);
      assert [] + SentServices(kept) == SentServices(kept);
    }
  }

  // ----- what is offered, and what is sent of it -----

  /** An entry with its data cut to n bytes. */
  function Cut(e: ServiceData, n: nat): ServiceData {
    ServiceData(e.uuid, e.data[..Min(|e.data|, n)])
  }

  ghost predicate ManufacturersFrom(items: seq<Item>, from: nat, ms: seq<ServiceData>) {
    from + |ms| <= |items| && forall k :: 0 <= k < |ms| ==> items[from + k] == Manufacturer(Cut(ms[k], 30))
  }

  ghost predicate ServicesFrom(items: seq<Item>, from: nat, ss: seq<ServiceData>) {
    from + |ss| <= |items| && forall k :: 0 <= k < |ss| ==> items[from + k] == Service(Cut(ss[k], 29))
  }

  lemma {:induction false} ManufacturerItemsAre(a: seq<Item>, ms: seq<ServiceData>, b: seq<Item>)
    ensures |ManufacturerItems(ms)| == |ms| && ManufacturersFrom(a + ManufacturerItems(ms) + b, |a|, ms)
  {
    if ms != [] {
      ManufacturerAt(ms, 0);
    }
    forall k | 0 <= k < |ms| ensures (a + ManufacturerItems(ms) + b)[|a| + k] == Manufacturer(Cut(ms[k], 30)) {
      ManufacturerAt(ms, k);
    }
  }

  lemma {:induction false} ServiceItemsAre(a: seq<Item>, ss: seq<ServiceData>, b: seq<Item>)
    ensures |ServiceItems(ss)| == |ss| && ServicesFrom(a + ServiceItems(ss) + b, |a|, ss)
  {
    if ss != [] {
      ServiceAt(ss, 0);
    }
    forall k | 0 <= k < |ss| ensures (a + ServiceItems(ss) + b)[|a| + k] == Service(Cut(ss[k], 29)) {
      ServiceAt(ss, k);
    }
  }

  /** The offers, one by one: the flags, each manufacturer entry cut to 30 bytes, each service entry
      cut to 29, and the name cut to 28. */
  lemma {:induction false} ItemsOffered(d: Device)
    ensures var items, f, m, s := Items(d), if d.flag.Some? then 1 else 0, |d.manufacturerDatas|, |d.serviceDatas|;
            && |items| == f + m + s + (if d.name != [] then 1 else 0)
            && (d.flag.Some? ==> items[0] == Flags(d.flag.value))
            && ManufacturersFrom(items, f, d.manufacturerDatas)
            && ServicesFrom(items, f + m, d.serviceDatas)
            && (d.name != [] ==> items[f + m + s] == Name(d.name[..Min(|d.name|, 28)]))
  {
    var f, m, s, n := FlagItems(d.flag), ManufacturerItems(d.manufacturerDatas), ServiceItems(d.serviceDatas), NameItems(d.name);
    ManufacturerItemsAre(f, d.manufacturerDatas, s + n);
    assert Items(d) == f + m + (s + n);
    ServiceItemsAre(f + m, d.serviceDatas, n);
    CutTo(d.name, 28);
  }

  lemma {:induction false} CutTo(s: seq<Byte>, n: nat)
    ensures Truncate(s, n) == s[..Min(|s|, n)]
  {
  }

  lemma {:induction false} ManufacturerAt(ms: seq<ServiceData>, k: nat)
    requires k < |ms|
    ensures |ManufacturerItems(ms)| == |ms|
    ensures ManufacturerItems(ms)[k] == Manufacturer(Cut(ms[k], 30))
  {
    CutTo(ms[k].data, 30);
    if |ms| > 1 {
      ManufacturerAt(ms[1..], if k > 0 then k - 1 else 0);
    }
  }

  lemma {:induction false} ServiceAt(ss: seq<ServiceData>, k: nat)
    requires k < |ss|
    ensures |ServiceItems(ss)| == |ss|
    ensures ServiceItems(ss)[k] == Service(Cut(ss[k], 29))
  {
    CutTo(ss[k].data, 29);
    if |ss| > 1 {
      ServiceAt(ss[1..], if k > 0 then k - 1 else 0);
    }
  }

  /** Each offer is kept exactly when it still fits into 62 bytes behind those kept before it. */
  lemma {:induction false} KeptIsGreedy(items: seq<Item>, k: nat)
    requires k < |items|
    ensures var sent := Kept(items[..k], 0);
            Kept(items[..k + 1], 0) == sent + if |Encode(sent)| + 2 + FieldLength(items[k]) <= 62 then [items[k]] else []
  {
    var used := |Encode(Kept(items[..k], 0))|;
    assert items[..k + 1] == items[..k] + [items[k]];
    KeptConcat(items[..k], [items[k]], 0);
    assert [items[k]][1..] == [] && Kept([], used) == [];
  }

  // ----- what advertisers send -----

  /** The AD structures of Part A of the Core Specification Supplement that the parser knows, and the
      ones it does not. */
  datatype AdStructure =
    | FlagsAd(flags: Byte)
    | Uuid16List(complete: bool, uuids16: seq<Uint16>)
    | Uuid32List(complete: bool, uuids32: seq<Uint32>)
    | Uuid128List(complete: bool, uuids128: seq<seq<Byte>>)
    | LocalName(complete: bool, text: seq<Byte>)
    | TxPowerLevel(level: int)
    | AppearanceAd(appearance: Uint16)
    | ServiceData16(uuid16: Uint16, data: seq<Byte>)
    | ServiceData32(uuid32: Uint32, data: seq<Byte>)
    | ServiceData128(uuid128: seq<Byte>, data: seq<Byte>)
    | ManufacturerAd(company: Uint16, data: seq<Byte>)
    | OtherAd(kind: Byte, data: seq<Byte>)

  const KNOWN_KINDS: set<Byte> := {0x01, 0x02, 0x03, 0x04, 0x05, 0x06, 0x07, 0x08, 0x09, 0x0a, 0x16, 0x19, 0x20, 0x21, 0xff}

  ghost predicate WellFormedAd(a: AdStructure) {
    match a
    case Uuid16List(_, us) => 2 * |us| < 255
    case Uuid32List(_, us) => 4 * |us| < 255
    case Uuid128List(_, us) => 16 * |us| < 255 && forall i :: 0 <= i < |us| ==> |us[i]| == 16
    case LocalName(_, text) => |text| < 255
    case TxPowerLevel(level) => -128 <= level < 128
    case ServiceData16(_, data) => |data| < 253
    case ServiceData32(_, data) => |data| < 251
    case ServiceData128(u, data) => |u| == 16 && |data| < 239
    case ManufacturerAd(_, data) => |data| < 253
    case OtherAd(kind, data) => kind !in KNOWN_KINDS && |data| < 255
    case _ => true
  }

  /** Least significant byte first. */
  function Le(v: nat, n: nat): (b: seq<Byte>)
    ensures |b| == n && (v < Power256(n) ==> LittleEndian(b) == v)
  {
    if n == 0 then [] else [v % 256] + Le(v / 256, n - 1)
  }

  function Le16s(us: seq<Uint16>): (parts: seq<seq<Byte>>)
    ensures |parts| == |us| && forall i :: 0 <= i < |us| ==> parts[i] == Le(us[i], 2)
  {
    seq(|us|, i requires 0 <= i < |us| => Le(us[i], 2))
  }

  function Le32s(us: seq<Uint32>): (parts: seq<seq<Byte>>)
    ensures |parts| == |us| && forall i :: 0 <= i < |us| ==> parts[i] == Le(us[i], 4)
  {
    seq(|us|, i requires 0 <= i < |us| => Le(us[i], 4))
  }

  /** The structure on the air. */
  function AirField(a: AdStructure): Field {
    match a
    case FlagsAd(flags) => Field(0x01, [flags])
    case Uuid16List(complete, us) => Field(if complete then 0x03 else 0x02, Flatten(Le16s(us)))
    case Uuid32List(complete, us) => Field(if complete then 0x05 else 0x04, Flatten(Le32s(us)))
    case Uuid128List(complete, us) => Field(if complete then 0x07 else 0x06, Flatten(us))
    case LocalName(complete, text) => Field(if complete then 0x09 else 0x08, text)
    case TxPowerLevel(level) => Field(0x0a, [level % 256])
    case AppearanceAd(v) => Field(0x19, Le(v, 2))
    case ServiceData16(u, data) => Field(0x16, Le(u, 2) + data)
    case ServiceData32(u, data) => Field(0x20, Le(u, 4) + data)
    case ServiceData128(u, data) => Field(0x21, u + data)
    case ManufacturerAd(company, data) => Field(0xff, Le(company, 2) + data)
    case OtherAd(kind, data) => Field(kind, data)
  }

  ghost predicate WellFormedAds(ads: seq<AdStructure>) {
    forall i :: 0 <= i < |ads| ==> WellFormedAd(ads[i])
  }

  /** A length byte, the type and the data of each. */
  ghost function OnAir(ads: seq<AdStructure>): seq<Byte>
    requires WellFormedAds(ads)
  {
    if ads == [] then []
    else
      AirLength(ads[0]);
      EncodeField(AirField(ads[0])) + OnAir(ads[1..])
  }

  lemma {:induction false} FlattenLength(parts: seq<seq<Byte>>, n: nat)
    requires forall i :: 0 <= i < |parts| ==> |parts[i]| == n
    ensures |Flatten(parts)| == n * |parts|
  {
    if parts != [] {
      FlattenLength(parts[1..], n);
      assert n * |parts| == n + n * |parts[1..]|;
    }
  }

  lemma {:induction false} AirLength(a: AdStructure)
    requires WellFormedAd(a)
    ensures |AirField(a).data| < 255
  {
    match a
    case Uuid16List(_, us) => FlattenLength(Le16s(us), 2);
    case Uuid32List(_, us) => FlattenLength(Le32s(us), 4);
    case Uuid128List(_, us) => FlattenLength(us, 16);
    case _ =>
  }

  // What a receiver should make of the structures: the last flags, name and appearance, and everything
  // else in order.

  function LastFlag(ads: seq<AdStructure>, n: nat): Option<Byte>
    requires n <= |ads|
  {
    if n == 0 then None else if ads[n - 1].FlagsAd? then Some(ads[n - 1].flags) else LastFlag(ads, n - 1)
  }

  function LastName(ads: seq<AdStructure>, n: nat): seq<Byte>
    requires n <= |ads|
  {
    if n == 0 then [] else if ads[n - 1].LocalName? then ads[n - 1].text else LastName(ads, n - 1)
  }

  function LastAppearance(ads: seq<AdStructure>, n: nat): Option<Uint16>
    requires n <= |ads|
  {
    if n == 0 then None else if ads[n - 1].AppearanceAd? then Some(ads[n - 1].appearance) else LastAppearance(ads, n - 1)
  }

  function ListedUuids(a: AdStructure): (us: seq<AdUuid>) {
    match a
    case Uuid16List(_, us) => seq(|us|, i requires 0 <= i < |us| => FromUint16(us[i]))
    case Uuid32List(_, us) => seq(|us|, i requires 0 <= i < |us| => FromUint32(us[i]))
    case Uuid128List(_, us) => seq(|us|, i requires 0 <= i < |us| => if |us[i]| == 16 then FromRaw(us[i]) else FromUint16(0))
    case _ => []
  }

  function TxPowersOf(a: AdStructure): seq<int> {
    if a.TxPowerLevel? then [a.level] else []
  }

  function ServiceDataOf(a: AdStructure): seq<ServiceData> {
    match a
    case ServiceData16(u, data) => [ServiceData(FromUint16(u), data)]
    case ServiceData32(u, data) => [ServiceData(FromUint32(u), data)]
    case ServiceData128(u, data) => if |u| == 16 then [ServiceData(FromRaw(u), data)] else []
    case _ => []
  }

  /** The company id stays in front of the data. */
  function ManufacturerDataOf(a: AdStructure): seq<ServiceData> {
    if a.ManufacturerAd? then [ServiceData(FromUint16(a.company), Le(a.company, 2) + a.data)] else []
  }

  /** The device the first n structures describe. */
  function Described(ads: seq<AdStructure>, n: nat): Device
    requires n <= |ads|
  {
    Device(LastFlag(ads, n), LastName(ads, n), Collected(ManufacturerDataOf, ads, n), Collected(ServiceDataOf, ads, n),
           Collected(ListedUuids, ads, n), Collected(TxPowersOf, ads, n), LastAppearance(ads, n))
  }

  lemma {:induction false} LittleEndianPair(b: seq<Byte>)
    requires |b| >= 2
    ensures Le16(b) == LittleEndian(b[..2])
  {
    var t := b[..2];
    assert t[1..][1..] == [];
    assert LittleEndian(t[1..]) == t[1];
  }

  lemma {:induction false} LittleEndianQuad(b: seq<Byte>)
    requires |b| >= 4
    ensures Le32(b) == LittleEndian(b[..4])
  {
    LittleEndian4(b[..4]);
  }

  lemma {:induction false} ReadBack16(v: Uint16, rest: seq<Byte>)
    ensures Le16(Le(v, 2) + rest) == v && (Le(v, 2) + rest)[2..] == rest
  {
    assert Power256(1) == 256 && Power256(2) == 0x1_0000;
    LittleEndianPair(Le(v, 2) + rest);
    assert (Le(v, 2) + rest)[..2] == Le(v, 2);
  }

  lemma {:induction false} ReadBack32(v: Uint32, rest: seq<Byte>)
    ensures Le32(Le(v, 4) + rest) == v && (Le(v, 4) + rest)[4..] == rest
  {
    assert Power256(2) == 0x1_0000;
    assert Power256(4) == 0x1_0000_0000;
    LittleEndianQuad(Le(v, 4) + rest);
    assert (Le(v, 4) + rest)[..4] == Le(v, 4);
  }

  lemma {:induction false} UuidsFromNext(make: seq<Byte> -> AdUuid, width: nat, b: seq<Byte>, pos: nat, part: seq<Byte>)
    requires width > 0 && pos + width <= |b| && b[pos..pos + width] == part
    ensures UuidsFrom(make, width, b, pos) == [make(part)] + UuidsFrom(make, width, b, pos + width)
  {
  }

  lemma {:induction false} PartsRead(make: seq<Byte> -> AdUuid, width: nat, pre: seq<Byte>, parts: seq<seq<Byte>>, us: seq<AdUuid>)
    requires width > 0 && |us| == |parts| && forall i :: 0 <= i < |parts| ==> |parts[i]| == width && make(parts[i]) == us[i]
    ensures UuidsFrom(make, width, pre + Flatten(parts), |pre|) == us
    decreases |parts|
  {
    var b := pre + Flatten(parts);
    if parts != [] {
      var p := parts[0];
      assert b == pre + p + Flatten(parts[1..]);
      assert b[|pre|..|pre| + width] == p;
      UuidsFromNext(make, width, b, |pre|, p);
      PartsRead(make, width, pre + p, parts[1..], us[1..]);
    }
  }

  lemma {:induction false} ListRead(make: seq<Byte> -> AdUuid, width: nat, parts: seq<seq<Byte>>, us: seq<AdUuid>)
    requires width > 0 && |us| == |parts| && forall i :: 0 <= i < |parts| ==> |parts[i]| == width && make(parts[i]) == us[i]
    ensures UuidsFrom(make, width, Flatten(parts), 0) == us
  {
    PartsRead(make, width, [], parts, us);
    assert [] + Flatten(parts) == Flatten(parts);
  }

  lemma {:induction false} Uuids16Read(complete: bool, us: seq<Uint16>)
    ensures UuidsFrom(Uuid16, 2, Flatten(Le16s(us)), 0) == ListedUuids(Uuid16List(complete, us))
  {
    forall i | 0 <= i < |us| ensures Uuid16(Le16s(us)[i]) == FromUint16(us[i]) {
      ReadBack16(us[i], []);
      assert Le(us[i], 2) + [] == Le(us[i], 2);
    }
    ListRead(Uuid16, 2, Le16s(us), ListedUuids(Uuid16List(complete, us)));
  }

  lemma {:induction false} Uuids32Read(complete: bool, us: seq<Uint32>)
    ensures UuidsFrom(Uuid32, 4, Flatten(Le32s(us)), 0) == ListedUuids(Uuid32List(complete, us))
  {
    forall i | 0 <= i < |us| ensures Uuid32(Le32s(us)[i]) == FromUint32(us[i]) {
      ReadBack32(us[i], []);
      assert Le(us[i], 4) + [] == Le(us[i], 4);
    }
    ListRead(Uuid32, 4, Le32s(us), ListedUuids(Uuid32List(complete, us)));
  }

  lemma {:induction false} Uuids128Read(complete: bool, us: seq<seq<Byte>>)
    requires forall i :: 0 <= i < |us| ==> |us[i]| == 16
    ensures UuidsFrom(Uuid128, 16, Flatten(us), 0) == ListedUuids(Uuid128List(complete, us))
  {
    forall i | 0 <= i < |us| ensures Uuid128(us[i]) == FromRaw(us[i]) {
      assert us[i][..16] == us[i];
    }
    ListRead(Uuid128, 16, us, ListedUuids(Uuid128List(complete, us)));
  }

  /** What one structure adds to a device. */
  ghost predicate Adds(d: Device, a: AdStructure, e: Device) {
    && e.flag == (if a.FlagsAd? then Some(a.flags) else d.flag)
    && e.name == (if a.LocalName? then a.text else d.name)
    && e.appearance == (if a.AppearanceAd? then Some(a.appearance) else d.appearance)
    && e.serviceUuids == d.serviceUuids + ListedUuids(a)
    && e.txPowers == d.txPowers + TxPowersOf(a)
    && e.serviceDatas == d.serviceDatas + ServiceDataOf(a)
    && e.manufacturerDatas == d.manufacturerDatas + ManufacturerDataOf(a)
  }

  lemma {:induction false} ListAdds(d: Device, a: AdStructure)
    requires WellFormedAd(a) && (a.Uuid16List? || a.Uuid32List? || a.Uuid128List?)
    ensures Adds(d, a, Interpret(d, AirField(a)))
  {
    match a
    case Uuid16List(complete, us) => Uuids16Read(complete, us);
    case Uuid32List(complete, us) => Uuids32Read(complete, us);
    case Uuid128List(complete, us) => Uuids128Read(complete, us);
  }

  lemma {:induction false} DataAdds(d: Device, a: AdStructure)
    requires WellFormedAd(a) && (a.ServiceData16? || a.ServiceData32? || a.ServiceData128? || a.ManufacturerAd?)
    ensures Adds(d, a, Interpret(d, AirField(a)))
  {
    match a
    case ServiceData16(u, data) => ReadBack16(u, data);
    case ServiceData32(u, data) => ReadBack32(u, data);
    case ServiceData128(u, data) => assert (u + data)[..16] == u && (u + data)[16..] == data;
    case ManufacturerAd(company, data) => ReadBack16(company, data);
  }

  lemma {:induction false} StructureAdds(d: Device, a: AdStructure)
    requires WellFormedAd(a)
    ensures Adds(d, a, Interpret(d, AirField(a)))
  {
    if a.Uuid16List? || a.Uuid32List? || a.Uuid128List? {
      ListAdds(d, a);
    } else if a.ServiceData16? || a.ServiceData32? || a.ServiceData128? || a.ManufacturerAd? {
      DataAdds(d, a);
    } else if a.AppearanceAd? {
      ReadBack16(a.appearance, []);
      assert Le(a.appearance, 2) + [] == Le(a.appearance, 2);
    }
  }

  lemma {:induction false} DescribedAdds(ads: seq<AdStructure>, n: nat, e: Device)
    requires 0 < n <= |ads|
    ensures Adds(Described(ads, n - 1), ads[n - 1], e) <==> e == Described(ads, n)
  {
  }

  /** The parser has come to the k-th structure. */
  lemma {:induction false} AirRead(ads: seq<AdStructure>, k: nat, rest: seq<Byte>)
    requires WellFormedAds(ads) && k <= |ads| && Fields(rest) == []
    ensures InterpretAll(Described(ads, k), Fields(OnAir(ads[k..]) + rest)) == Described(ads, |ads|)
    decreases |ads| - k
  {
    var tail := ads[k..];
    if k == |ads| {
      assert OnAir(tail) + rest == rest;
    } else {
      var a, f := ads[k], AirField(ads[k]);
      AirLength(a);
      assert tail[1..] == ads[k + 1..] && tail[0] == a;
      var more := OnAir(ads[k + 1..]) + rest;
      assert OnAir(tail) + rest == EncodeField(f) + more;
      FieldsOfEncoding(f, more);
      InterpretFirst(Described(ads, k), f, Fields(more));
      StructureAdds(Described(ads, k), a);
      DescribedAdds(ads, k + 1, Interpret(Described(ads, k), f));
      AirRead(ads, k + 1, rest);
    }
  }

  /** No structure can be read at the front: the end, padding, or a length beyond the end. */
  predicate Stops(rest: seq<Byte>) {
    |rest| < 2 || rest[0] == 0 || 1 + rest[0] as int > |rest|
  }

  /** Whatever structures an advertiser sends, up to padding or a cut, the parser reads what they
      describe: every listed UUID and every data entry in order, and the last flags, name and
      appearance. */
  lemma {:induction false} AirRoundTrip(ads: seq<AdStructure>, rest: seq<Byte>)
    requires WellFormedAds(ads) && Stops(rest)
    ensures Parse(OnAir(ads) + rest) == Described(ads, |ads|)
  {
    assert Described(ads, 0) == NO_DATA && ads[0..] == ads;
    AirRead(ads, 0, rest);
  }

  // ----- batching -----

  const BATCH_SIZE := 16

  datatype Advertisement = Advertisement(address: Uint64, rssi: int, data: seq<Byte>)

  /** The proxy's pending advertisements and the batches it has handed to the API connection. */
  class AdvertisementBatches {
    var subscribed: bool
    var pending: seq<Advertisement>
    var lastFlush: Uint32
    var sent: seq<seq<Advertisement>>

    ghost predicate Valid()
      reads this
    {
      && |pending| < BATCH_SIZE
      && forall k :: 0 <= k < |sent| ==> 0 < |sent[k]| <= BATCH_SIZE
    }

    /** Every accepted advertisement, in order, sent or still pending. */
    ghost function Accepted(): seq<Advertisement>
      reads this
    {
      Flatten(sent) + pending
    }

    constructor ()
      ensures Valid() && Accepted() == [] && !subscribed
    {
      subscribed, pending, lastFlush, sent := false, [], 0, [];
    }

    method FlushPendingAdvertisements()
      requires |pending| <= BATCH_SIZE && forall k :: 0 <= k < |sent| ==> 0 < |sent[k]| <= BATCH_SIZE
      modifies this`pending, this`sent
      ensures Valid() && pending == [] && Accepted() == old(Accepted())
      ensures sent == if old(pending) == [] then old(sent) else old(sent) + [old(pending)]
    {
      if pending == [] {
        return;
      }
      FlattenSnoc(sent, pending);
      sent := sent + [pending];
      pending := [];
    }

    method ParseDevice(address: Uint64, rssi: int, device: Device) returns (taken: bool)
      requires Valid()
      modifies this`pending, this`sent
      ensures Valid() && taken == subscribed
      ensures Accepted() == if taken then old(Accepted()) + [Advertisement(address, rssi, Serialise(device))] else old(Accepted())
      ensures taken ==> (pending == [] <==> |old(pending)| == 15)
    {
      if !subscribed {
        return false;
      }
      var buf := BuildPayload(device);
      pending := pending + [Advertisement(address, rssi, buf.buf[..buf.len])];
      if |pending| >= BATCH_SIZE {
        FlushPendingAdvertisements();
      }
      return true;
    }

    /** The periodic flush, at most every 100 ms on a wrapping clock. */
    method Loop(now: Uint32)
      requires Valid()
      modifies this
      ensures Valid() && Accepted() == old(Accepted()) && subscribed == old(subscribed)
      ensures var due := (now - old(lastFlush)) % 0x1_0000_0000 >= 100;
              && lastFlush == (if due then now else old(lastFlush))
              && pending == (if due && subscribed then [] else old(pending))
    {
      if (now - lastFlush) % 0x1_0000_0000 < 100 {
        return;
      }
      lastFlush := now;
      if subscribed {
        FlushPendingAdvertisements();
      }
    }
  }
}
