/**
  * Bluetooth UUIDs of 16, 32 or 128 bits, stored least significant byte first
  * (components/esp32_ble/ble_uuid.h, ble_uuid.cpp), their textual form, and the
  * two 64-bit words the proxy sends (components/bluetooth_proxy/bluetooth_connection.cpp).
  */
module Uuid {
  import opened Common

  datatype BleUuid = BleUuid(raw: seq<Byte>, len: nat)

  /** What every constructor of the class establishes: unused bytes stay zero. */
  ghost predicate Valid(u: BleUuid) {
    && |u.raw| == 16
    && u.len <= 16
    && forall i :: u.len <= i < 16 ==> u.raw[i] == 0
  }

  ghost predicate Sized(u: BleUuid) {
    Valid(u) && u.len in {2, 4, 16}
  }

  /** The tagged union `esp_bt_uuid_t`; `len` says which member is meaningful. */
  datatype EspUuid = Uuid16(v16: Uint16) | Uuid32(v32: Uint32) | Uuid128(len: nat, bytes: seq<Byte>)

  function FromUint16(v: Uint16): (u: BleUuid)
    ensures Sized(u) && u.len == 2 && Get16(u) == v
  {
    BleUuid([v % 256, v / 256] + Zeros(14), 2)
  }

  /** The four bytes of a 32-bit value, least significant first. */
  function Bytes32(v: Uint32): (b: seq<Byte>)
    ensures |b| == 4
    ensures v == (b[0] as int) + 0x100 * (b[1] as int) + 0x1_0000 * (b[2] as int) + 0x100_0000 * (b[3] as int)
  {
    var q1 := v / 256;
    var q2 := q1 / 256;
    var q3 := q2 / 256;
    [v % 256, q1 % 256, q2 % 256, q3]
  }

  function FromUint32(v: Uint32): (u: BleUuid)
    ensures Sized(u) && u.len == 4 && Get32(u) == v
  {
    BleUuid(Bytes32(v) + Zeros(12), 4)
  }

  function FromRaw(data: seq<Byte>): (u: BleUuid)
    requires |data| == 16
    ensures Sized(u) && u.len == 16
  {
    BleUuid(data, 16)
  }

  function Reverse(s: seq<Byte>): (r: seq<Byte>)
    ensures |r| == |s|
    ensures forall i :: 0 <= i < |s| ==> r[i] == s[|s| - 1 - i]
  {
    seq(|s|, i requires 0 <= i < |s| => s[|s| - 1 - i])
  }

  function Get16(u: BleUuid): Uint16
    requires |u.raw| == 16
  {
    (u.raw[0] as int) + 256 * (u.raw[1] as int)
  }

  function Get32(u: BleUuid): Uint32
    requires |u.raw| == 16
  {
    (u.raw[0] as int) + 0x100 * (u.raw[1] as int) + 0x1_0000 * (u.raw[2] as int) + 0x100_0000 * (u.raw[3] as int)
  }

  function GetUuid(u: BleUuid): EspUuid
    requires |u.raw| == 16
  {
    if u.len == 2 then Uuid16(Get16(u))
    else if u.len == 4 then Uuid32(Get32(u))
    else Uuid128(u.len, u.raw)
  }

  function FromUuid(e: EspUuid): BleUuid
    requires e.Uuid128? ==> |e.bytes| == 16
  {
    match e
    case Uuid16(v) => FromUint16(v)
    case Uuid32(v) => FromUint32(v)
    case Uuid128(_, b) => FromRaw(b)
  }

  /** Four base-256 digits are determined by their value. */
  lemma {:induction false} DigitsUnique(a: seq<Byte>, b: seq<Byte>)
    requires |a| == |b| == 16 && Get32(BleUuid(a, 4)) == Get32(BleUuid(b, 4))
    ensures a[0] == b[0] && a[1] == b[1] && a[2] == b[2] && a[3] == b[3]
  {
    LowDigit(a[0], (a[1] as int) + 0x100 * (a[2] as int) + 0x1_0000 * (a[3] as int),
             b[0], (b[1] as int) + 0x100 * (b[2] as int) + 0x1_0000 * (b[3] as int));
    LowDigit(a[1], (a[2] as int) + 0x100 * (a[3] as int), b[1], (b[2] as int) + 0x100 * (b[3] as int));
    LowDigit(a[2], a[3], b[2], b[3]);
  }

  lemma {:induction false} LowDigit(x: Byte, q: nat, y: Byte, r: nat)
    requires (x as int) + 256 * q == (y as int) + 256 * r
    ensures x == y && q == r
  {
  }

  lemma {:induction false} ShortRoundTrip(u: BleUuid)
    requires Valid(u) && u.len == 2
    ensures FromUint16(Get16(u)) == u
  {
    var r := FromUint16(Get16(u));
    DigitsUnique(r.raw, u.raw);
    assert r.raw == u.raw;
  }

  lemma {:induction false} MediumRoundTrip(u: BleUuid)
    requires Valid(u) && u.len == 4
    ensures FromUint32(Get32(u)) == u
  {
    var r := FromUint32(Get32(u));
    DigitsUnique(r.raw, u.raw);
    assert r.raw == u.raw;
  }

  /** `from_uuid` undoes `get_uuid` exactly on the three lengths the union can carry. */
  lemma {:induction false} FromUuidUndoesGetUuid(u: BleUuid)
    requires Valid(u)
    ensures FromUuid(GetUuid(u)) == u <==> u.len in {2, 4, 16}
  {
    if u.len == 2 {
      ShortRoundTrip(u);
    } else if u.len == 4 {
      MediumRoundTrip(u);
    }
  }

  /** `operator==`: same length, same leading bytes. */
  predicate Same(a: BleUuid, b: BleUuid)
    requires |a.raw| == 16 && |b.raw| == 16 && a.len <= 16
  {
    a.len == b.len && a.raw[..a.len] == b.raw[..a.len]
  }

  // ----- expansion over the Base UUID -----

  const BASE_LSB: seq<Byte> := [0xFB, 0x34, 0x9B, 0x5F, 0x80, 0x00, 0x00, 0x80, 0x00, 0x10, 0x00, 0x00]

  /** 00000000-0000-1000-8000-00805F9B34FB as a number. */
  const BASE_UUID := 0x0000_0000_0000_1000_8000_0080_5F9B_34FB

  function As128bit(u: BleUuid): (r: BleUuid)
    requires |u.raw| == 16
    ensures |r.raw| == 16 && r.len == 16
  {
    if u.len == 16 then u
    else
      var v: Uint32 := if u.len == 2 then Get16(u) else Get32(u);
      BleUuid(BASE_LSB + Bytes32(v), 16)
  }

  lemma {:induction false} LittleEndian4(b: seq<Byte>)
    requires |b| == 4
    ensures LittleEndian(b) == (b[0] as int) + 0x100 * (b[1] as int) + 0x1_0000 * (b[2] as int) + 0x100_0000 * (b[3] as int)
  {
    assert b[1..][1..] == b[2..];
    assert b[2..][1..] == b[3..];
    assert LittleEndian(b[3..]) == b[3];
    assert LittleEndian(b[2..]) == (b[2] as int) + 0x100 * (b[3] as int);
  }

  lemma {:induction false} LittleEndian8(b: seq<Byte>)
    requires |b| == 8
    ensures LittleEndian(b) == LittleEndian(b[..4]) + 0x1_0000_0000 * LittleEndian(b[4..])
  {
    assert b == b[..4] + b[4..];
    LittleEndianConcat(b[..4], b[4..]);
    assert Power256(2) == 0x1_0000;
    assert Power256(4) == 0x1_0000_0000;
  }

  lemma {:induction false} LittleEndian16(b: seq<Byte>)
    requires |b| == 16
    ensures LittleEndian(b) == LittleEndian(b[..8]) + 0x1_0000_0000_0000_0000 * LittleEndian(b[8..])
  {
    assert b == b[..8] + b[8..];
    LittleEndianConcat(b[..8], b[8..]);
    assert Power256(2) == 0x1_0000;
    assert Power256(4) == 0x1_0000_0000;
    assert Power256(6) == 0x1_0000_0000_0000;
    assert Power256(8) == 0x1_0000_0000_0000_0000;
  }

  lemma {:induction false} SplitWords(b: seq<Byte>)
    requires |b| == 16
    ensures b[..8][..4] == b[..4] && b[..8][4..] == b[4..8]
    ensures b[8..][..4] == b[8..12] && b[8..][4..] == b[12..]
  {
  }

  /** The expansion is the short value shifted into the top 32 bits of the Base UUID. */
  lemma {:induction false} ExpansionIsBaseUuid(u: BleUuid)
    requires Sized(u)
    ensures u.len == 16 ==> As128bit(u) == u
    ensures u.len == 2 ==> LittleEndian(As128bit(u).raw) == BASE_UUID + Get16(u) * 0x1_0000_0000_0000_0000_0000_0000
    ensures u.len == 4 ==> LittleEndian(As128bit(u).raw) == BASE_UUID + Get32(u) * 0x1_0000_0000_0000_0000_0000_0000
  {
    if u.len != 16 {
      var r := As128bit(u).raw;
      LittleEndian16(r);
      SplitWords(r);
      LittleEndian8(r[..8]);
      LittleEndian8(r[8..]);
      LittleEndian4(r[..4]);
      LittleEndian4(r[4..8]);
      LittleEndian4(r[8..12]);
      LittleEndian4(r[12..]);
    }
  }

  // ----- the proxy's two words -----

  function Word(b: seq<Byte>): nat
    requires |b| == 8
  {
    (b[7] as int) * 0x100_0000_0000_0000 + (b[6] as int) * 0x1_0000_0000_0000 + (b[5] as int) * 0x100_0000_0000 + (b[4] as int) * 0x1_0000_0000
      + (b[3] as int) * 0x100_0000 + (b[2] as int) * 0x1_0000 + (b[1] as int) * 0x100 + (b[0] as int)
  }

  /** `fill_128bit_uuid_array`; the shifted operands of each `|` are disjoint, so it is a sum. */
  function Fill128bitUuidArray(e: EspUuid): (nat, nat)
    requires e.Uuid128? ==> |e.bytes| == 16
  {
    match e
    case Uuid128(_, b) => (Word(b[8..]), Word(b[..8]))
    case Uuid16(v) => (v * 0x1_0000_0000 + 0x0000_1000, 0x8000_0080_5F9B_34FB)
    case Uuid32(v) => (v * 0x1_0000_0000 + 0x0000_1000, 0x8000_0080_5F9B_34FB)
  }

  lemma {:induction false} WordIsLittleEndian(b: seq<Byte>)
    requires |b| == 8
    ensures Word(b) == LittleEndian(b)
  {
    LittleEndian8(b);
    LittleEndian4(b[..4]);
    LittleEndian4(b[4..]);
  }

  /** The packed pair, read most significant word first, is the full 128-bit value. */
  lemma {:induction false} PackedWordsAreExpansion(u: BleUuid)
    requires Sized(u)
    ensures var w := Fill128bitUuidArray(GetUuid(u));
            w.0 * 0x1_0000_0000_0000_0000 + w.1 == LittleEndian(As128bit(u).raw)
  {
    ExpansionIsBaseUuid(u);
    if u.len == 16 {
      LittleEndian16(u.raw);
      WordIsLittleEndian(u.raw[8..]);
      WordIsLittleEndian(u.raw[..8]);
    }
  }

  // ----- text -----

  const DIGITS := "0123456789abcdef"

  /** Value of a hexadecimal digit, -1 for any other character. */
  function Nibble(c: char): (n: int)
    ensures -1 <= n < 16
  {
    if '0' <= c <= '9' then c as int - '0' as int
    else if 'a' <= c <= 'f' then c as int - 'a' as int + 10
    else if 'A' <= c <= 'F' then c as int - 'A' as int + 10
    else -1
  }

  function HexByte(x: Byte): (s: string)
    ensures |s| == 2
  {
    [DIGITS[x / 16], DIGITS[x % 16]]
  }

  function Hex(b: seq<Byte>): (s: string)
    ensures |s| == 2 * |b|
  {
    if b == [] then "" else HexByte(b[0]) + Hex(b[1..])
  }

  /** Canonical lower-case text, most significant byte first. */
  function ToStr(u: BleUuid): (s: string)
    requires |u.raw| == 16
    ensures |s| == 36
  {
    var r := Reverse(As128bit(u).raw);
    Hex(r[..4]) + "-" + Hex(r[4..6]) + "-" + Hex(r[6..8]) + "-" + Hex(r[8..10]) + "-" + Hex(r[10..])
  }

  /** The hex digits of the longest leading run of digits and dashes. */
  function Nibbles(s: string): (n: seq<Byte>)
    ensures forall i :: 0 <= i < |n| ==> n[i] < 16
  {
    if s == [] then []
    else if s[0] == '-' then Nibbles(s[1..])
    else if Nibble(s[0]) < 0 then []
    else [Nibble(s[0])] + Nibbles(s[1..])
  }

  function Pairs(n: seq<Byte>): (b: seq<Byte>)
    requires forall i :: 0 <= i < |n| ==> n[i] < 16
    ensures |b| == |n| / 2
  {
    if |n| < 2 then [] else [16 * n[0] + n[1]] + Pairs(n[2..])
  }

  /** Byte string to UUID: sixteen bytes are stored reversed, fewer are stored as read. */
  function FromBytes(b: seq<Byte>): BleUuid
    requires |b| <= 16
  {
    if |b| == 16 then BleUuid(Reverse(b), 16) else BleUuid(b + Zeros(16 - |b|), |b|)
  }

  function Parse(s: string): BleUuid {
    FromBytes(Truncate(Pairs(Nibbles(s)), 16))
  }

  predicate HexOrDash(s: string) {
    forall i :: 0 <= i < |s| ==> s[i] == '-' || Nibble(s[i]) >= 0
  }

  lemma {:induction false} NibblesConcat(a: string, b: string)
    requires HexOrDash(a)
    ensures Nibbles(a + b) == Nibbles(a) + Nibbles(b)
  {
    if a == [] {
      assert a + b == b;
    } else {
      assert (a + b)[1..] == a[1..] + b;
      NibblesConcat(a[1..], b);
    }
  }

  lemma {:induction false} PairsConcat(a: seq<Byte>, b: seq<Byte>)
    requires forall i :: 0 <= i < |a| ==> a[i] < 16
    requires forall i :: 0 <= i < |b| ==> b[i] < 16
    requires |a| % 2 == 0
    ensures Pairs(a + b) == Pairs(a) + Pairs(b)
  {
    if a == [] {
      assert a + b == b;
    } else {
      PairsConcat(a[2..], b);
      assert a == [a[0], a[1]] + a[2..];
      assert a + b == [a[0], a[1]] + (a[2..] + b);
      PairsNext(a[0], a[1], a[2..]);
      PairsNext(a[0], a[1], a[2..] + b);
    }
  }

  lemma {:induction false} PairsNext(hi: Byte, lo: Byte, n: seq<Byte>)
    requires hi < 16 && lo < 16 && forall i :: 0 <= i < |n| ==> n[i] < 16
    ensures Pairs([hi, lo] + n) == [16 * hi + lo] + Pairs(n)
  {
    assert ([hi, lo] + n)[2..] == n;
  }

  lemma {:induction false} PairsDropOdd(a: seq<Byte>, x: Byte)
    requires forall i :: 0 <= i < |a| ==> a[i] < 16
    requires |a| % 2 == 0 && x < 16
    ensures Pairs(a + [x]) == Pairs(a)
  {
    PairsConcat(a, [x]);
  }

  lemma {:induction false} NibblesStop(s: string, p: nat)
    requires p < |s| && HexOrDash(s[..p]) && s[p] != '-' && Nibble(s[p]) < 0
    ensures Nibbles(s) == Nibbles(s[..p])
  {
    assert s == s[..p] + s[p..];
    NibblesConcat(s[..p], s[p..]);
  }

  lemma {:induction false} NibblesSnoc(a: string, c: char)
    requires HexOrDash(a) && (c == '-' || Nibble(c) >= 0)
    ensures Nibbles(a + [c]) == if c == '-' then Nibbles(a) else Nibbles(a) + [Nibble(c)]
  {
    NibblesConcat(a, [c]);
    assert [c][1..] == [];
    assert Nibbles([c]) == if c == '-' then [] else [Nibble(c)];
  }

  lemma {:induction false} NibblesTwo(g: string)
    requires |g| == 2 && Nibble(g[0]) >= 0 && Nibble(g[1]) >= 0
    ensures HexOrDash(g) && Nibbles(g) == [Nibble(g[0]), Nibble(g[1])]
    ensures Pairs(Nibbles(g)) == [16 * Nibble(g[0]) + Nibble(g[1])]
  {
    assert g == [] + [g[0]] + [g[1]];
    NibblesSnoc([], g[0]);
    NibblesSnoc([] + [g[0]], g[1]);
    assert Nibbles(g)[2..] == [];
  }

  /** `bytes` are the complete bytes of the nibbles read so far and `hi` the odd one, if any. */
  ghost predicate Accumulated(n: seq<Byte>, bytes: seq<Byte>, hi: int) {
    && (forall i :: 0 <= i < |n| ==> n[i] < 16)
    && bytes == Pairs(n)
    && if hi < 0 then |n| % 2 == 0 else |n| % 2 == 1 && n[|n| - 1] == hi
  }

  lemma {:induction false} AccumulateLow(n: seq<Byte>, bytes: seq<Byte>, nib: Byte)
    requires Accumulated(n, bytes, -1) && nib < 16
    ensures Accumulated(n + [nib], bytes, nib)
  {
    PairsDropOdd(n, nib);
  }

  lemma {:induction false} AccumulateHigh(n: seq<Byte>, bytes: seq<Byte>, hi: Byte, nib: Byte)
    requires Accumulated(n, bytes, hi) && nib < 16
    ensures Accumulated(n + [nib], bytes + [16 * hi + nib], -1)
  {
    var m := n[..|n| - 1];
    assert n == m + [hi] && n + [nib] == m + [hi, nib];
    PairsDropOdd(m, hi);
    PairsConcat(m, [hi, nib]);
    assert [hi, nib][2..] == [];
    assert Pairs([hi, nib]) == [16 * hi + nib];
  }

  /** The parser: nibbles accumulate in `hi` until a byte is complete; dashes are skipped
      anywhere, any other character ends the scan, and so does the sixteenth byte. */
  method FromUuidStr(s: string) returns (u: BleUuid)
    ensures u == Parse(s)
  {
    var bytes: seq<Byte> := [];
    var hi := -1;
    var p := 0;
    while p < |s| && |bytes| < 16
      invariant 0 <= p <= |s| && |bytes| <= 16 && -1 <= hi < 16
      invariant HexOrDash(s[..p])
      invariant Accumulated(Nibbles(s[..p]), bytes, hi)
    {
      var c := s[p];
      var nib := Nibble(c);
      if c != '-' && nib < 0 {
        break;
      }
      ScanStep(s, p, bytes, hi);
      if c != '-' {
        if hi < 0 {
          hi := nib;
        } else {
          bytes := bytes + [16 * hi + nib];
          hi := -1;
        }
      }
      p := p + 1;
    }
    ScanEnds(s, p, bytes, hi);
    u := FromBytes(bytes);
  }

  lemma {:induction false} ScanStep(s: string, p: nat, bytes: seq<Byte>, hi: int)
    requires p < |s| && HexOrDash(s[..p]) && (s[p] == '-' || Nibble(s[p]) >= 0)
    requires -1 <= hi < 16 && Accumulated(Nibbles(s[..p]), bytes, hi)
    ensures HexOrDash(s[..p + 1])
    ensures s[p] == '-' ==> Accumulated(Nibbles(s[..p + 1]), bytes, hi)
    ensures s[p] != '-' && hi < 0 ==> Accumulated(Nibbles(s[..p + 1]), bytes, Nibble(s[p]))
    ensures s[p] != '-' && hi >= 0 ==> Accumulated(Nibbles(s[..p + 1]), bytes + [16 * hi + Nibble(s[p])], -1)
  {
    assert s[..p + 1] == s[..p] + [s[p]];
    NibblesSnoc(s[..p], s[p]);
    if s[p] != '-' {
      if hi < 0 {
        AccumulateLow(Nibbles(s[..p]), bytes, Nibble(s[p]));
      } else {
        AccumulateHigh(Nibbles(s[..p]), bytes, hi, Nibble(s[p]));
      }
    }
  }

  lemma {:induction false} ScanEnds(s: string, p: nat, bytes: seq<Byte>, hi: int)
    requires p <= |s| && HexOrDash(s[..p]) && |bytes| <= 16
    requires Accumulated(Nibbles(s[..p]), bytes, hi)
    requires p == |s| || |bytes| == 16 || (s[p] != '-' && Nibble(s[p]) < 0)
    ensures bytes == Truncate(Pairs(Nibbles(s)), 16)
  {
    if p == |s| {
      assert s[..p] == s;
    } else if |bytes| == 16 {
      FullAfter(s, p, Nibbles(s[..p]));
    } else {
      NibblesStop(s, p);
    }
  }

  lemma {:induction false} FullAfter(s: string, p: nat, seen: seq<Byte>)
    requires p <= |s| && HexOrDash(s[..p]) && seen == Nibbles(s[..p])
    requires |seen| / 2 == 16 && |seen| <= 33
    ensures Truncate(Pairs(Nibbles(s)), 16) == Pairs(seen)
  {
    var rest := Nibbles(s[p..]);
    assert s == s[..p] + s[p..];
    NibblesConcat(s[..p], s[p..]);
    if |seen| == 33 {
      var a, b := seen[..32], seen[32..] + rest;
      assert seen == a + [seen[32]] && seen + rest == a + b;
      PairsDropOdd(a, seen[32]);
      PairsConcat(a, b);
    } else {
      PairsConcat(seen, rest);
    }
  }

  lemma {:induction false} HexByteNibbles(x: Byte)
    ensures HexOrDash(HexByte(x)) && Nibbles(HexByte(x)) == [x / 16, x % 16]
    ensures Pairs([x / 16, x % 16]) == [x]
  {
    DigitNibble(x / 16);
    DigitNibble(x % 16);
    NibblesTwo(HexByte(x));
  }

  lemma {:induction false} HexNibbles(b: seq<Byte>)
    ensures HexOrDash(Hex(b)) && |Nibbles(Hex(b))| == 2 * |b| && Pairs(Nibbles(Hex(b))) == b
  {
    if b != [] {
      HexNibbles(b[1..]);
      HexByteNibbles(b[0]);
      NibblesConcat(HexByte(b[0]), Hex(b[1..]));
      PairsConcat([b[0] / 16, b[0] % 16], Nibbles(Hex(b[1..])));
    }
  }

  lemma {:induction false} DigitNibble(n: nat)
    requires n < 16
    ensures Nibble(DIGITS[n]) == n && DIGITS[n] != '-'
  {
  }

  /** Nibbles of five dash-separated groups are the nibbles of the groups in order. */
  lemma {:induction false} GroupNibbles(a: string, b: string, c: string, d: string, e: string)
    requires HexOrDash(a) && HexOrDash(b) && HexOrDash(c) && HexOrDash(d) && HexOrDash(e)
    ensures Nibbles(a + "-" + b + "-" + c + "-" + d + "-" + e)
         == Nibbles(a) + Nibbles(b) + Nibbles(c) + Nibbles(d) + Nibbles(e)
  {
    var ab := a + "-" + b;
    var abc := ab + "-" + c;
    var abcd := abc + "-" + d;
    DashNibbles(a, b);
    DashNibbles(ab, c);
    DashNibbles(abc, d);
    DashNibbles(abcd, e);
  }

  lemma {:induction false} DashNibbles(a: string, b: string)
    requires HexOrDash(a) && HexOrDash(b)
    ensures HexOrDash(a + "-" + b) && Nibbles(a + "-" + b) == Nibbles(a) + Nibbles(b)
  {
    NibblesConcat(a, "-");
    assert Nibbles("-") == [];
    NibblesConcat(a + "-", b);
  }

  /** Bytes of five groups of whole bytes are the groups' bytes in order. */
  lemma {:induction false} GroupBytes(a: seq<Byte>, b: seq<Byte>, c: seq<Byte>, d: seq<Byte>, e: seq<Byte>)
    requires forall i :: 0 <= i < |a| ==> a[i] < 16
    requires forall i :: 0 <= i < |b| ==> b[i] < 16
    requires forall i :: 0 <= i < |c| ==> c[i] < 16
    requires forall i :: 0 <= i < |d| ==> d[i] < 16
    requires forall i :: 0 <= i < |e| ==> e[i] < 16
    requires |a| % 2 == |b| % 2 == |c| % 2 == |d| % 2 == 0
    ensures Pairs(a + b + c + d + e) == Pairs(a) + Pairs(b) + Pairs(c) + Pairs(d) + Pairs(e)
  {
    PairsConcat(a, b);
    PairsConcat(a + b, c);
    PairsConcat(a + b + c, d);
    PairsConcat(a + b + c + d, e);
  }

  /** Parsing the printed form gives the 128-bit expansion. */
  lemma {:induction false} ParsePrinted(u: BleUuid)
    requires Sized(u)
    ensures Parse(ToStr(u)) == As128bit(u)
  {
    var r := Reverse(As128bit(u).raw);
    ParseGroups(r);
    assert Reverse(r) == As128bit(u).raw;
  }

  lemma {:induction false} ParseGroups(r: seq<Byte>)
    requires |r| == 16
    ensures var s := Hex(r[..4]) + "-" + Hex(r[4..6]) + "-" + Hex(r[6..8]) + "-" + Hex(r[8..10]) + "-" + Hex(r[10..]);
            Pairs(Nibbles(s)) == r
  {
    var a, b, c, d, e := r[..4], r[4..6], r[6..8], r[8..10], r[10..];
    HexNibbles(a);
    HexNibbles(b);
    HexNibbles(c);
    HexNibbles(d);
    HexNibbles(e);
    GroupNibbles(Hex(a), Hex(b), Hex(c), Hex(d), Hex(e));
    GroupBytes(Nibbles(Hex(a)), Nibbles(Hex(b)), Nibbles(Hex(c)), Nibbles(Hex(d)), Nibbles(Hex(e)));
    assert r == a + b + c + d + e;
  }

  /** Where the digits end: at the end of the text or at a character that is neither digit nor dash. */
  predicate Ends(rest: string) {
    rest == "" || (rest[0] != '-' && Nibble(rest[0]) < 0)
  }

  /** A text with fewer than sixteen bytes' digits, perhaps an odd one, and whatever follows them, is
      stored as it reads: that many bytes, the first one first. */
  lemma {:induction false} ParseShort(b: seq<Byte>, odd: string, rest: string)
    requires |b| < 16 && |odd| <= 1 && (odd != "" ==> Nibble(odd[0]) >= 0) && Ends(rest)
    ensures var u := Parse(Hex(b) + odd + rest); Valid(u) && u.len == |b| && u.raw[..|b|] == b
  {
    HexNibbles(b);
    OddNibble(b, odd);
    var t := Hex(b) + odd;
    if rest == "" {
      assert t + rest == t;
    } else {
      assert (t + rest)[..|t|] == t;
      NibblesStop(t + rest, |t|);
    }
  }

  lemma {:induction false} OddNibble(b: seq<Byte>, odd: string)
    requires |odd| <= 1 && (odd != "" ==> Nibble(odd[0]) >= 0)
    ensures HexOrDash(Hex(b) + odd) && Pairs(Nibbles(Hex(b) + odd)) == b
  {
    HexNibbles(b);
    if odd == "" {
      assert Hex(b) + odd == Hex(b);
    } else {
      NibblesConcat(Hex(b), odd);
      assert odd[1..] == "";
      assert Nibbles(odd) == [Nibble(odd[0])];
      PairsDropOdd(Nibbles(Hex(b)), Nibble(odd[0]));
    }
  }

  /** Other UUIDs are stored least significant byte first, so a short one given in text comes out with
      its bytes exchanged, and is the one meant only if they are equal. */
  lemma {:induction false} ShortTextIffSymmetric(v: Uint16)
    ensures Parse(Hex([v / 256, v % 256])) == FromUint16(v) <==> v / 256 == v % 256
  {
    var b: seq<Byte> := [v / 256, v % 256];
    ParseShort(b, "", "");
    assert Hex(b) + "" + "" == Hex(b);
    var u := Parse(Hex(b));
    assert u.raw[0] == u.raw[..2][0] == v / 256 && u.raw[1] == u.raw[..2][1] == v % 256;
    if v / 256 == v % 256 {
      SameIsEqualRaw(u, FromUint16(v));
    }
  }

  lemma {:induction false} SameIsEqualRaw(a: BleUuid, b: BleUuid)
    requires Valid(a) && Valid(b) && a.len == b.len == 2 && a.raw[0] == b.raw[0] && a.raw[1] == b.raw[1]
    ensures a == b
  {
    assert a.raw == b.raw;
  }

  function Lower(s: string): (t: string)
    ensures |t| == |s|
    ensures forall i :: 0 <= i < |s| ==> t[i] == LowerChar(s[i])
  {
    seq(|s|, i requires 0 <= i < |s| => LowerChar(s[i]))
  }

  function LowerChar(c: char): char {
    if 'A' <= c <= 'Z' then (c as int + 32) as char else c
  }

  predicate HexOnly(s: string) {
    forall i :: 0 <= i < |s| ==> Nibble(s[i]) >= 0
  }

  lemma {:induction false} PrintDigit(c: char)
    requires Nibble(c) >= 0
    ensures DIGITS[Nibble(c)] == LowerChar(c)
  {
  }

  lemma {:induction false} PrintDigits(g: string)
    requires |g| == 2 && Nibble(g[0]) >= 0 && Nibble(g[1]) >= 0
    ensures HexOrDash(g) && |Nibbles(g)| == 2 && Hex(Pairs(Nibbles(g))) == Lower(g)
  {
    NibblesTwo(g);
    PrintDigit(g[0]);
    PrintDigit(g[1]);
    var hi, lo := Nibble(g[0]), Nibble(g[1]);
    var x := 16 * hi + lo;
    assert x / 16 == hi && x % 16 == lo;
    assert [x][1..] == [];
    assert HexByte(x) + "" == HexByte(x);
  }

  lemma {:induction false} PrintGroup(g: string)
    requires HexOnly(g) && |g| % 2 == 0
    ensures |Nibbles(g)| == |g| && Hex(Pairs(Nibbles(g))) == Lower(g)
  {
    if g != [] {
      var h, r := g[..2], g[2..];
      PrintGroup(r);
      PrintDigits(h);
      NibblesConcat(h, r);
      PairsConcat(Nibbles(h), Nibbles(r));
      assert g == h + r;
    }
  }

  /** 8-4-4-4-12 hexadecimal digits separated by dashes. */
  predicate Canonical(s: string) {
    && |s| == 36
    && s[8] == '-' && s[13] == '-' && s[18] == '-' && s[23] == '-'
    && HexOnly(s[..8]) && HexOnly(s[9..13]) && HexOnly(s[14..18]) && HexOnly(s[19..23]) && HexOnly(s[24..])
  }

  lemma {:induction false} CutCanonical(s: string)
    requires Canonical(s)
    ensures s == s[..8] + "-" + s[9..13] + "-" + s[14..18] + "-" + s[19..23] + "-" + s[24..]
    ensures Lower(s) == Lower(s[..8]) + "-" + Lower(s[9..13]) + "-" + Lower(s[14..18]) + "-" + Lower(s[19..23]) + "-" + Lower(s[24..])
  {
  }

  /** Printing a parsed canonical string gives it back in lower case. */
  lemma {:induction false} PrintParsed(s: string)
    requires Canonical(s)
    ensures Parse(s).len == 16 && |Parse(s).raw| == 16
    ensures ToStr(Parse(s)) == Lower(s)
  {
    var a, b, c, d, e := s[..8], s[9..13], s[14..18], s[19..23], s[24..];
    CutCanonical(s);
    PrintGroup(a);
    PrintGroup(b);
    PrintGroup(c);
    PrintGroup(d);
    PrintGroup(e);
    GroupNibbles(a, b, c, d, e);
    GroupBytes(Nibbles(a), Nibbles(b), Nibbles(c), Nibbles(d), Nibbles(e));
    var bytes := Pairs(Nibbles(s));
    assert |bytes| == 16;
    assert Reverse(Parse(s).raw) == bytes;
    Regroup(Pairs(Nibbles(a)), Pairs(Nibbles(b)), Pairs(Nibbles(c)), Pairs(Nibbles(d)), Pairs(Nibbles(e)), bytes);
  }

  lemma {:induction false} Regroup(a: seq<Byte>, b: seq<Byte>, c: seq<Byte>, d: seq<Byte>, e: seq<Byte>, r: seq<Byte>)
    requires |a| == 4 && |b| == |c| == |d| == 2 && |e| == 6
    requires r == a + b + c + d + e
    ensures |r| == 16 && r[..4] == a && r[4..6] == b && r[6..8] == c && r[8..10] == d && r[10..] == e
  {
  }
}
