/**
  * The object tree the GATT server exports (components/esp32_ble_server/ble_gatt_server.cpp,
  * build_tree_ and find_desc_) and the service instances it is built from
  * (components/esp32_ble_server/ble_server.cpp, create_service and remove_service).
  */
module ExportedTree {
  import opened Common
  import opened Strings
  import opened Uuid

  type ServerUuid = u: BleUuid | Sized(u) witness FromUint16(0)

  datatype Characteristic = Characteristic(uuid: ServerUuid, descriptors: seq<ServerUuid>)
  datatype Service = Service(uuid: ServerUuid, characteristics: seq<Characteristic>)

  const APP_ROOT := "/org/esphome/host/ble/gatt"

  // ----- paths -----

  /** A node's position among its siblings, from the service down. */
  datatype Id = ServiceId(i: nat) | CharId(i: nat, j: nat) | DescId(i: nat, j: nat, k: nat)

  function ServicePath(i: nat): string {
    APP_ROOT + ("/service" + Decimal(i))
  }

  function CharPath(i: nat, j: nat): string {
    ServicePath(i) + ("/char" + Decimal(j))
  }

  function DescPath(i: nat, j: nat, k: nat): string {
    CharPath(i, j) + ("/desc" + Decimal(k))
  }

  function Path(id: Id): string {
    match id
    case ServiceId(i) => ServicePath(i)
    case CharId(i, j) => CharPath(i, j)
    case DescId(i, j, k) => DescPath(i, j, k)
  }

  function ParentPath(id: Id): string {
    match id
    case ServiceId(_) => APP_ROOT
    case CharId(i, _) => ServicePath(i)
    case DescId(i, j, _) => CharPath(i, j)
  }

  ghost predicate LastElement(x: string) {
    |x| > 1 && x[0] == '/' && forall k :: 0 < k < |x| ==> x[k] != '/'
  }

  lemma {:induction false} SplitAtLastSlash(a: string, x: string, b: string, y: string)
    requires LastElement(x) && LastElement(y) && a + x == b + y
    ensures a == b && x == y
  {
    var s := a + x;
    assert s[|a|] == '/' && s[|b|] == '/';
    assert forall k :: |a| < k < |s| ==> s[k] == x[k - |a|] && s[k] == (b + y)[k];
    assert forall k :: |b| < k < |s| ==> s[k] == y[k - |b|];
    assert s[..|a|] == a && s[..|b|] == b && s[|a|..] == x && s[|b|..] == y;
  }

  lemma {:induction false} Element(name: string, n: nat)
    requires name in {"/service", "/char", "/desc"}
    ensures LastElement(name + Decimal(n)) && (name + Decimal(n))[1] == name[1]
  {
    var x, d := name + Decimal(n), Decimal(n);
    forall k | 0 < k < |x| ensures x[k] != '/' {
      if k < |name| {
        assert x[k] == name[k];
      } else {
        assert x[k] == d[k - |name|];
      }
    }
  }

  lemma {:induction false} SameNumber(name: string, m: nat, n: nat)
    requires name + Decimal(m) == name + Decimal(n)
    ensures m == n
  {
    assert (name + Decimal(m))[|name|..] == Decimal(m) && (name + Decimal(n))[|name|..] == Decimal(n);
    DecimalRoundTrip(m);
    DecimalRoundTrip(n);
  }

  function Name(id: Id): string {
    match id
    case ServiceId(_) => "/service"
    case CharId(_, _) => "/char"
    case DescId(_, _, _) => "/desc"
  }

  function Number(id: Id): nat {
    match id
    case ServiceId(i) => i
    case CharId(_, j) => j
    case DescId(_, _, k) => k
  }

  lemma {:induction false} SamePathSameParent(a: Id, b: Id)
    requires Path(a) == Path(b)
    ensures ParentPath(a) == ParentPath(b) && Name(a) == Name(b) && Number(a) == Number(b)
  {
    Element(Name(a), Number(a));
    Element(Name(b), Number(b));
    SplitAtLastSlash(ParentPath(a), Name(a) + Decimal(Number(a)), ParentPath(b), Name(b) + Decimal(Number(b)));
    SameNumber(Name(a), Number(a), Number(b));
  }

  lemma {:induction false} ServicePathInjective(i: nat, m: nat)
    requires ServicePath(i) == ServicePath(m)
    ensures i == m
  {
    SamePathSameParent(ServiceId(i), ServiceId(m));
  }

  lemma {:induction false} CharPathInjective(i: nat, j: nat, m: nat, n: nat)
    requires CharPath(i, j) == CharPath(m, n)
    ensures i == m && j == n
  {
    SamePathSameParent(CharId(i, j), CharId(m, n));
    ServicePathInjective(i, m);
  }

  /** No two positions share a path, whatever their kinds. */
  lemma {:induction false} PathInjective(a: Id, b: Id)
    ensures Path(a) == Path(b) <==> a == b
  {
    if Path(a) == Path(b) {
      SamePathSameParent(a, b);
      match a
      case ServiceId(_) =>
      case CharId(i, j) => ServicePathInjective(i, b.i);
      case DescId(i, j, k) => CharPathInjective(i, j, b.i, b.j);
    }
  }

  // ----- the tree -----

  datatype Exported = Exported(path: string, parentPath: string, uuid: ServerUuid)

  datatype Placed = Placed(id: Id, uuid: ServerUuid)

  function Export(p: Placed): Exported {
    Exported(Path(p.id), ParentPath(p.id), p.uuid)
  }

  function ExportAll(ps: seq<Placed>): (es: seq<Exported>)
    ensures |es| == |ps| && forall x :: 0 <= x < |ps| ==> es[x] == Export(ps[x])
  {
    seq(|ps|, x requires 0 <= x < |ps| => Export(ps[x]))
  }

  /** BlueZ owns the Client Characteristic Configuration descriptor. */
  const CCCD: ServerUuid := FromUint16(0x2902)

  /** The descriptors that are exported, of the first n. */
  function Kept(ds: seq<ServerUuid>, n: nat): seq<ServerUuid>
    requires n <= |ds|
  {
    if n == 0 then [] else if Same(ds[n - 1], CCCD) then Kept(ds, n - 1) else Kept(ds, n - 1) + [ds[n - 1]]
  }

  function PlacedDescs(i: nat, j: nat, ds: seq<ServerUuid>): (ps: seq<Placed>)
    ensures |ps| == |ds| && forall k :: 0 <= k < |ds| ==> ps[k] == Placed(DescId(i, j, k), ds[k])
  {
    seq(|ds|, k requires 0 <= k < |ds| => Placed(DescId(i, j, k), ds[k]))
  }

  function DescsOf(i: nat, cs: seq<Characteristic>, n: nat): seq<Placed>
    requires n <= |cs|
  {
    if n == 0 then []
    else DescsOf(i, cs, n - 1) + PlacedDescs(i, n - 1, Kept(cs[n - 1].descriptors, |cs[n - 1].descriptors|))
  }

  function CharsOf(i: nat, cs: seq<Characteristic>, n: nat): (ps: seq<Placed>)
    requires n <= |cs|
    ensures |ps| == n && forall j :: 0 <= j < n ==> ps[j] == Placed(CharId(i, j), cs[j].uuid)
  {
    seq(n, j requires 0 <= j < n => Placed(CharId(i, j), cs[j].uuid))
  }

  function Descs(ss: seq<Service>, n: nat): seq<Placed>
    requires n <= |ss|
  {
    if n == 0 then [] else Descs(ss, n - 1) + DescsOf(n - 1, ss[n - 1].characteristics, |ss[n - 1].characteristics|)
  }

  function Chars(ss: seq<Service>, n: nat): seq<Placed>
    requires n <= |ss|
  {
    if n == 0 then [] else Chars(ss, n - 1) + CharsOf(n - 1, ss[n - 1].characteristics, |ss[n - 1].characteristics|)
  }

  function Services(ss: seq<Service>, n: nat): (ps: seq<Placed>)
    requires n <= |ss|
    ensures |ps| == n && forall i :: 0 <= i < n ==> ps[i] == Placed(ServiceId(i), ss[i].uuid)
  {
    seq(n, i requires 0 <= i < n => Placed(ServiceId(i), ss[i].uuid))
  }

  /** Every exported object. */
  function Listed(ss: seq<Service>): seq<Placed> {
    Services(ss, |ss|) + Chars(ss, |ss|) + Descs(ss, |ss|)
  }

  ghost predicate DistinctIds(ps: seq<Placed>) {
    forall x, y :: 0 <= x < y < |ps| ==> ps[x].id != ps[y].id
  }

  lemma {:induction false} DistinctConcat(a: seq<Placed>, b: seq<Placed>)
    requires DistinctIds(a) && DistinctIds(b)
    requires forall x, y :: 0 <= x < |a| && 0 <= y < |b| ==> a[x].id != b[y].id
    ensures DistinctIds(a + b)
  {
  }

  lemma {:induction false} DescsOfDistinct(i: nat, cs: seq<Characteristic>, n: nat)
    requires n <= |cs|
    ensures DistinctIds(DescsOf(i, cs, n))
    ensures forall p <- DescsOf(i, cs, n) :: p.id.DescId? && p.id.i == i && p.id.j < n
  {
    if n > 0 {
      DescsOfDistinct(i, cs, n - 1);
      var kept := Kept(cs[n - 1].descriptors, |cs[n - 1].descriptors|);
      DistinctConcat(DescsOf(i, cs, n - 1), PlacedDescs(i, n - 1, kept));
    }
  }

  lemma {:induction false} DescsDistinct(ss: seq<Service>, n: nat)
    requires n <= |ss|
    ensures DistinctIds(Descs(ss, n))
    ensures forall p <- Descs(ss, n) :: p.id.DescId? && p.id.i < n
  {
    if n > 0 {
      DescsDistinct(ss, n - 1);
      var cs := ss[n - 1].characteristics;
      DescsOfDistinct(n - 1, cs, |cs|);
      DistinctConcat(Descs(ss, n - 1), DescsOf(n - 1, cs, |cs|));
    }
  }

  lemma {:induction false} CharsDistinct(ss: seq<Service>, n: nat)
    requires n <= |ss|
    ensures DistinctIds(Chars(ss, n))
    ensures forall p <- Chars(ss, n) :: p.id.CharId? && p.id.i < n
  {
    if n > 0 {
      CharsDistinct(ss, n - 1);
      var cs := ss[n - 1].characteristics;
      DistinctConcat(Chars(ss, n - 1), CharsOf(n - 1, cs, |cs|));
    }
  }

  /** No two exported objects, of whatever kind, share a path. */
  lemma {:induction false} ExportedPathsDistinct(ss: seq<Service>)
    ensures var all := ExportAll(Listed(ss)); forall x, y :: 0 <= x < y < |all| ==> all[x].path != all[y].path
  {
    DescsDistinct(ss, |ss|);
    CharsDistinct(ss, |ss|);
    DistinctConcat(Services(ss, |ss|), Chars(ss, |ss|));
    DistinctConcat(Services(ss, |ss|) + Chars(ss, |ss|), Descs(ss, |ss|));
    var all := Listed(ss);
    forall x, y | 0 <= x < y < |all| ensures Path(all[x].id) != Path(all[y].id) {
      PathInjective(all[x].id, all[y].id);
    }
  }

  /** The parent's path is the path up to the last element, and is that of the object above. */
  lemma {:induction false} PathIsBelowParent(id: Id)
    ensures Path(id) == ParentPath(id) + (Name(id) + Decimal(Number(id))) && '/' !in (Name(id) + Decimal(Number(id)))[1..]
    ensures match id
            case ServiceId(_) => ParentPath(id) == "/org/esphome/host/ble/gatt"
            case CharId(i, _) => ParentPath(id) == Path(ServiceId(i))
            case DescId(i, j, _) => ParentPath(id) == Path(CharId(i, j))
  {
    Element(Name(id), Number(id));
  }

  /** How many of the first n descriptors are not the CCCD in its 16-bit form. */
  function OtherBefore(ds: seq<ServerUuid>, n: nat): nat
    requires n <= |ds|
  {
    if n == 0 then 0 else OtherBefore(ds, n - 1) + if ds[n - 1] == FromUint16(0x2902) then 0 else 1
  }

  /** The k-th descriptor that is exported of a characteristic has this UUID. */
  predicate ExportedAs(ds: seq<ServerUuid>, k: nat, u: ServerUuid) {
    u != FromUint16(0x2902) && exists d :: 0 <= d < |ds| && ds[d] == u && OtherBefore(ds, d) == k
  }

  /** What is to be exported: each service, each characteristic, and each descriptor but the CCCD, at
      its number among its siblings that are exported. */
  ghost predicate Belongs(ss: seq<Service>, p: Placed) {
    match p.id
    case ServiceId(i) => i < |ss| && p.uuid == ss[i].uuid
    case CharId(i, j) => i < |ss| && j < |ss[i].characteristics| && p.uuid == ss[i].characteristics[j].uuid
    case DescId(i, j, k) =>
      i < |ss| && j < |ss[i].characteristics| &&
      ExportedAs(ss[i].characteristics[j].descriptors, k, p.uuid)
  }

  lemma {:induction false} KeptCounted(ds: seq<ServerUuid>, n: nat)
    requires n <= |ds|
    ensures |Kept(ds, n)| == OtherBefore(ds, n)
  {
    if n > 0 {
      KeptCounted(ds, n - 1);
      SameIsEqual(ds[n - 1], CCCD);
    }
  }

  lemma {:induction false} KeptAt(ds: seq<ServerUuid>, n: nat, d: nat)
    requires d < n <= |ds| && ds[d] != FromUint16(0x2902)
    ensures OtherBefore(ds, d) < |Kept(ds, n)| && Kept(ds, n)[OtherBefore(ds, d)] == ds[d]
  {
    SameIsEqual(ds[n - 1], CCCD);
    if d < n - 1 {
      KeptAt(ds, n - 1, d);
    } else {
      KeptCounted(ds, d);
    }
  }

  lemma {:induction false} KeptFrom(ds: seq<ServerUuid>, n: nat, k: nat) returns (d: nat)
    requires n <= |ds| && k < |Kept(ds, n)|
    ensures d < n && ds[d] == Kept(ds, n)[k] != FromUint16(0x2902) && OtherBefore(ds, d) == k
  {
    SameIsEqual(ds[n - 1], CCCD);
    if k < |Kept(ds, n - 1)| {
      d := KeptFrom(ds, n - 1, k);
    } else {
      KeptCounted(ds, n - 1);
      d := n - 1;
    }
  }

  lemma {:induction false} KeptIff(ds: seq<ServerUuid>, k: nat, u: ServerUuid)
    ensures ExportedAs(ds, k, u) <==> k < |Kept(ds, |ds|)| && Kept(ds, |ds|)[k] == u
  {
    if ExportedAs(ds, k, u) {
      var d :| 0 <= d < |ds| && ds[d] == u && OtherBefore(ds, d) == k;
      KeptAt(ds, |ds|, d);
    }
    if k < |Kept(ds, |ds|)| && Kept(ds, |ds|)[k] == u {
      var d := KeptFrom(ds, |ds|, k);
    }
  }

  lemma {:induction false} PlacedDescsAre(i: nat, j: nat, ds: seq<ServerUuid>, p: Placed)
    ensures p in PlacedDescs(i, j, Kept(ds, |ds|)) <==>
            p.id.DescId? && p.id.i == i && p.id.j == j && ExportedAs(ds, p.id.k, p.uuid)
  {
    if p.id.DescId? {
      KeptIff(ds, p.id.k, p.uuid);
      if p.id.i == i && p.id.j == j && ExportedAs(ds, p.id.k, p.uuid) {
        assert PlacedDescs(i, j, Kept(ds, |ds|))[p.id.k] == p;
      }
    }
  }

  lemma {:induction false} DescsOfAre(i: nat, cs: seq<Characteristic>, n: nat, p: Placed)
    requires n <= |cs|
    ensures p in DescsOf(i, cs, n) <==>
            p.id.DescId? && p.id.i == i && p.id.j < n && ExportedAs(cs[p.id.j].descriptors, p.id.k, p.uuid)
  {
    if n > 0 {
      DescsOfAre(i, cs, n - 1, p);
      PlacedDescsAre(i, n - 1, cs[n - 1].descriptors, p);
    }
  }

  lemma {:induction false} DescsAre(ss: seq<Service>, n: nat, p: Placed)
    requires n <= |ss|
    ensures p in Descs(ss, n) <==> p.id.DescId? && p.id.i < n && Belongs(ss, p)
  {
    if n > 0 {
      DescsAre(ss, n - 1, p);
      DescsOfAre(n - 1, ss[n - 1].characteristics, |ss[n - 1].characteristics|, p);
    }
  }

  lemma {:induction false} CharsAre(ss: seq<Service>, n: nat, p: Placed)
    requires n <= |ss|
    ensures p in Chars(ss, n) <==> p.id.CharId? && p.id.i < n && Belongs(ss, p)
  {
    if n > 0 {
      CharsAre(ss, n - 1, p);
      var cs := ss[n - 1].characteristics;
      var here := CharsOf(n - 1, cs, |cs|);
      if p.id.CharId? && p.id.i == n - 1 && p.id.j < |cs| && p.uuid == cs[p.id.j].uuid {
        assert here[p.id.j] == p;
      }
    }
  }

  /** Exactly the objects that belong there are exported. */
  lemma {:induction false} ListedIff(ss: seq<Service>, p: Placed)
    ensures p in Listed(ss) <==> Belongs(ss, p)
  {
    DescsAre(ss, |ss|, p);
    CharsAre(ss, |ss|, p);
    if p.id.ServiceId? && Belongs(ss, p) {
      assert Services(ss, |ss|)[p.id.i] == p;
    }
  }

  lemma {:induction false} KeptIsFilter(ds: seq<ServerUuid>, n: nat)
    requires n <= |ds|
    ensures forall u :: u in Kept(ds, n) <==> u != CCCD && exists k :: 0 <= k < n && ds[k] == u
  {
    if n > 0 {
      KeptIsFilter(ds, n - 1);
      SameIsEqual(ds[n - 1], CCCD);
    }
  }

  lemma {:induction false} SameIsEqual(a: BleUuid, b: BleUuid)
    requires Valid(a) && Valid(b)
    ensures Same(a, b) <==> a == b
  {
    if Same(a, b) {
      forall k | 0 <= k < 16 ensures a.raw[k] == b.raw[k] {
        if k < a.len {
          assert a.raw[k] == a.raw[..a.len][k] == b.raw[..b.len][k];
        }
      }
      assert a.raw == b.raw;
    }
  }

  /**
    * The comparison is by length, so the exported descriptors of a characteristic are free of the
    * CCCD exactly when it is given in its 16-bit form only.
    */
  lemma {:induction false} CccdKeptBackIff(ds: seq<ServerUuid>)
    ensures (forall u <- Kept(ds, |ds|) :: As128bit(u) != As128bit(CCCD)) <==>
            forall u <- ds :: As128bit(u) == As128bit(CCCD) ==> u == CCCD
  {
    KeptIsFilter(ds, |ds|);
  }

  lemma {:induction false} LongCccdIsExported()
    ensures Sized(As128bit(CCCD)) && Kept([As128bit(CCCD)], 1) == [As128bit(CCCD)]
  {
    var ds: seq<ServerUuid> := [As128bit(CCCD)];
    assert Kept(ds, 0) == [] && !Same(ds[0], CCCD);
    assert Kept(ds, 1) == Kept(ds, 0) + [ds[0]];
  }

  // ----- the server -----

  class BleGattServer {
    var services: seq<Exported>
    var chars: seq<Exported>
    var descs: seq<Exported>

    constructor ()
      ensures services == [] && chars == [] && descs == []
    {
      services, chars, descs := [], [], [];
    }

    method ExportDescriptors(ds: seq<ServerUuid>, i: nat, j: nat)
      modifies this`descs
      ensures descs == old(descs) + ExportAll(PlacedDescs(i, j, Kept(ds, |ds|)))
    {
      var descIdx := 0;
      ghost var before, kept: seq<ServerUuid> := descs, [];
      for n := 0 to |ds|
        invariant kept == Kept(ds, n) && descIdx == |kept|
        invariant descs == before + ExportAll(PlacedDescs(i, j, kept))
      {
        if Same(ds[n], CCCD) {
          continue;
        }
        DescStep(i, j, kept, ds[n]);
        ConcatAssociates(before, ExportAll(PlacedDescs(i, j, kept)), [Exported(DescPath(i, j, descIdx), CharPath(i, j), ds[n])]);
        descs := descs + [Exported(CharPath(i, j) + ("/desc" + Decimal(descIdx)), CharPath(i, j), ds[n])];
        descIdx := descIdx + 1;
        kept := kept + [ds[n]];
      }
    }

    method ExportCharacteristics(cs: seq<Characteristic>, i: nat)
      modifies this`chars, this`descs
      ensures chars == old(chars) + ExportAll(CharsOf(i, cs, |cs|))
      ensures descs == old(descs) + ExportAll(DescsOf(i, cs, |cs|))
    {
      ghost var chars0, descs0 := chars, descs;
      for j := 0 to |cs|
        invariant chars == chars0 + ExportAll(CharsOf(i, cs, j))
        invariant descs == descs0 + ExportAll(DescsOf(i, cs, j))
      {
        CharStep(chars0, i, cs, j);
        DescsStep(descs0, i, cs, j);
        ExportDescriptors(cs[j].descriptors, i, j);
        chars := chars + [Exported(ServicePath(i) + ("/char" + Decimal(j)), ServicePath(i), cs[j].uuid)];
      }
    }

    method BuildTree(ss: seq<Service>)
      requires services == [] && chars == [] && descs == []
      modifies this
      ensures services + chars + descs == ExportAll(Listed(ss))
      ensures services == ExportAll(Services(ss, |ss|)) && chars == ExportAll(Chars(ss, |ss|))
    {
      for i := 0 to |ss|
        invariant services == ExportAll(Services(ss, i)) && chars == ExportAll(Chars(ss, i)) && descs == ExportAll(Descs(ss, i))
      {
        var cs := ss[i].characteristics;
        ServiceStep(ss, i);
        BelowServiceStep(ss, i, cs);
        ExportCharacteristics(cs, i);
        services := services + [Exported(APP_ROOT + ("/service" + Decimal(i)), APP_ROOT, ss[i].uuid)];
      }
      ExportConcat(Services(ss, |ss|), Chars(ss, |ss|));
      ExportConcat(Services(ss, |ss|) + Chars(ss, |ss|), Descs(ss, |ss|));
    }

    /** With distinct paths, a descriptor is found by its own path and by no other. */
    method FindDesc(path: string) returns (d: Option<Exported>)
      requires forall x, y :: 0 <= x < y < |descs| ==> descs[x].path != descs[y].path
      ensures forall x :: 0 <= x < |descs| ==> (d == Some(descs[x]) <==> descs[x].path == path)
      ensures d.Some? ==> d.value in descs
    {
      for k := 0 to |descs|
        invariant forall x :: 0 <= x < k ==> descs[x].path != path
      {
        if descs[k].path == path {
          return Some(descs[k]);
        }
      }
      d := None;
    }
  }

  lemma {:induction false} ServiceStep(ss: seq<Service>, i: nat)
    requires i < |ss|
    ensures ExportAll(Services(ss, i + 1)) == ExportAll(Services(ss, i)) + [Exported(ServicePath(i), APP_ROOT, ss[i].uuid)]
  {
  }

  lemma {:induction false} BelowServiceStep(ss: seq<Service>, i: nat, cs: seq<Characteristic>)
    requires i < |ss| && cs == ss[i].characteristics
    ensures ExportAll(Chars(ss, i + 1)) == ExportAll(Chars(ss, i)) + ExportAll(CharsOf(i, cs, |cs|))
    ensures ExportAll(Descs(ss, i + 1)) == ExportAll(Descs(ss, i)) + ExportAll(DescsOf(i, cs, |cs|))
  {
    ExportConcat(Chars(ss, i), CharsOf(i, cs, |cs|));
    assert Chars(ss, i + 1) == Chars(ss, i) + CharsOf(i, cs, |cs|);
    ExportConcat(Descs(ss, i), DescsOf(i, cs, |cs|));
    assert Descs(ss, i + 1) == Descs(ss, i) + DescsOf(i, cs, |cs|);
  }

  lemma {:induction false} CharStep(before: seq<Exported>, i: nat, cs: seq<Characteristic>, j: nat)
    requires j < |cs|
    ensures before + ExportAll(CharsOf(i, cs, j + 1)) ==
            before + ExportAll(CharsOf(i, cs, j)) + [Exported(CharPath(i, j), ServicePath(i), cs[j].uuid)]
  {
  }

  lemma {:induction false} DescsStep(before: seq<Exported>, i: nat, cs: seq<Characteristic>, j: nat)
    requires j < |cs|
    ensures var ds := cs[j].descriptors;
            before + ExportAll(DescsOf(i, cs, j + 1)) ==
            before + ExportAll(DescsOf(i, cs, j)) + ExportAll(PlacedDescs(i, j, Kept(ds, |ds|)))
  {
    var placed := PlacedDescs(i, j, Kept(cs[j].descriptors, |cs[j].descriptors|));
    ExportConcat(DescsOf(i, cs, j), placed);
    ConcatAssociates(before, ExportAll(DescsOf(i, cs, j)), ExportAll(placed));
  }

  lemma {:induction false} DescStep(i: nat, j: nat, kept: seq<ServerUuid>, u: ServerUuid)
    ensures ExportAll(PlacedDescs(i, j, kept + [u])) ==
            ExportAll(PlacedDescs(i, j, kept)) + [Exported(DescPath(i, j, |kept|), CharPath(i, j), u)]
  {
  }

  lemma {:induction false} ExportConcat(a: seq<Placed>, b: seq<Placed>)
    ensures ExportAll(a + b) == ExportAll(a) + ExportAll(b)
  {
  }

  // ----- service instances -----

  datatype Entry = Entry(uuid: ServerUuid, instId: Byte)

  ghost predicate DistinctEntries(es: seq<Entry>) {
    forall x, y :: 0 <= x < y < |es| ==> es[x] != es[y]
  }

  class ServiceRegistry {
    var entries: seq<Entry>

    constructor ()
      ensures entries == []
    {
      entries := [];
    }

    method GetService(uuid: ServerUuid, instId: Byte) returns (k: Option<nat>)
      ensures k.None? <==> Entry(uuid, instId) !in entries
      ensures k.Some? ==> k.value < |entries| && entries[k.value] == Entry(uuid, instId) && Entry(uuid, instId) !in entries[..k.value]
    {
      for x := 0 to |entries|
        invariant Entry(uuid, instId) !in entries[..x]
      {
        SameIsEqual(entries[x].uuid, uuid);
        if Same(entries[x].uuid, uuid) && entries[x].instId == instId {
          return Some(x);
        }
      }
      k := None;
    }

    /** Takes the least free instance id; there are 255 of them for each UUID. */
    method CreateService(uuid: ServerUuid) returns (instId: Option<Byte>)
      requires DistinctEntries(entries)
      modifies this
      ensures DistinctEntries(entries)
      ensures instId.None? <==> forall i: Byte :: i < 255 ==> Entry(uuid, i) in old(entries)
      ensures instId.None? ==> entries == old(entries)
      ensures instId.Some? ==>
                instId.value < 255 && entries == old(entries) + [Entry(uuid, instId.value)] &&
                Entry(uuid, instId.value) !in old(entries) && forall i: Byte :: i < instId.value ==> Entry(uuid, i) in old(entries)
    {
      var inst := 0;
      while inst < 255
        invariant inst <= 255 && entries == old(entries)
        invariant forall i: Byte :: i < inst ==> Entry(uuid, i) in entries
      {
        var found := GetService(uuid, inst);
        if found.None? {
          break;
        }
        inst := inst + 1;
      }
      if inst == 255 {
        return None;
      }
      entries := entries + [Entry(uuid, inst)];
      instId := Some(inst);
    }

    /** Removing an instance frees its id and leaves the others alone. */
    method RemoveService(uuid: ServerUuid, instId: Byte)
      requires DistinctEntries(entries)
      modifies this
      ensures DistinctEntries(entries)
      ensures forall e :: e in entries <==> e in old(entries) && e != Entry(uuid, instId)
    {
      var k := GetService(uuid, instId);
      if k.Some? {
        ghost var was := entries;
        entries := entries[..k.value] + entries[k.value + 1..];
        forall e ensures e in entries <==> e in was && e != Entry(uuid, instId) {
          if e in was && e != Entry(uuid, instId) {
            var x :| 0 <= x < |was| && was[x] == e;
            assert x < k.value ==> entries[x] == e;
            assert x > k.value ==> entries[x - 1] == e;
          }
        }
      }
    }
  }
}
