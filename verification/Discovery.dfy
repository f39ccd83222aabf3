/**
  * Service discovery: the worker turns BlueZ's flat object list into a service tree and a
  * handle index (components/esp32_ble_client/ble_gatt_host.cpp); the main thread rebuilds the
  * tree and looks handles up in it (components/esp32_ble_client/ble_client_base.cpp).
  */
module Discovery {
  import opened Common
  import opened Uuid

  datatype ObjKind = SERVICE | CHAR | DESC

  /** One GATT object of the device, as read from GetManagedObjects. */
  datatype GattObj = GattObj(path: string, kind: ObjKind, uuid: BleUuid, handle: Uint16, hasHandle: bool,
                             parent: string, props: Byte)

  datatype DiscoveredDescriptor = DiscoveredDescriptor(uuid: BleUuid, handle: Uint16)
  datatype DiscoveredCharacteristic = DiscoveredCharacteristic(uuid: BleUuid, handle: Uint16, properties: Byte,
                                                               descriptors: seq<DiscoveredDescriptor>)
  datatype DiscoveredService = DiscoveredService(uuid: BleUuid, startHandle: Uint16, endHandle: Uint16,
                                                 characteristics: seq<DiscoveredCharacteristic>)

  datatype EntryKind = CharEntry | DescEntry
  datatype ObjEntry = ObjEntry(path: string, kind: EntryKind, parentCharHandle: Uint16)

  type HandleMap = map<Uint16, ObjEntry>

  // ----- the tree, read off the parent links -----

  /** Objects of a kind whose parent path is given, among the first n. */
  function Children(objs: seq<GattObj>, kind: ObjKind, parent: string, n: nat): seq<GattObj>
    requires n <= |objs|
  {
    if n == 0 then []
    else if objs[n - 1].kind == kind && objs[n - 1].parent == parent then
      Children(objs, kind, parent, n - 1) + [objs[n - 1]]
    else Children(objs, kind, parent, n - 1)
  }

  function Services(objs: seq<GattObj>, n: nat): seq<GattObj>
    requires n <= |objs|
  {
    if n == 0 then []
    else if objs[n - 1].kind == SERVICE then Services(objs, n - 1) + [objs[n - 1]]
    else Services(objs, n - 1)
  }

  function DescsOf(objs: seq<GattObj>, c: GattObj): seq<GattObj> {
    Children(objs, DESC, c.path, |objs|)
  }

  function CharsOf(objs: seq<GattObj>, s: GattObj): seq<GattObj> {
    Children(objs, CHAR, s.path, |objs|)
  }

  function DescTree(ds: seq<GattObj>): seq<DiscoveredDescriptor> {
    if ds == [] then []
    else DescTree(ds[..|ds| - 1]) + [DiscoveredDescriptor(ds[|ds| - 1].uuid, ds[|ds| - 1].handle)]
  }

  function CharTree(objs: seq<GattObj>, cs: seq<GattObj>): seq<DiscoveredCharacteristic> {
    if cs == [] then [] else CharTree(objs, cs[..|cs| - 1]) + [CharLeaf(objs, cs[|cs| - 1])]
  }

  function ServiceTree(objs: seq<GattObj>, ss: seq<GattObj>): seq<DiscoveredService> {
    if ss == [] then []
    else
      var s := ss[|ss| - 1];
      ServiceTree(objs, ss[..|ss| - 1]) + [DiscoveredService(s.uuid, s.handle, s.handle, CharTree(objs, CharsOf(objs, s)))]
  }

  function Tree(objs: seq<GattObj>): seq<DiscoveredService> {
    ServiceTree(objs, Services(objs, |objs|))
  }

  // ----- the attributes that hang below a service, with their parents -----

  /** A characteristic (then `attr` is `owner`) or descriptor with its chain of parents. */
  datatype Node = Node(service: GattObj, owner: GattObj, attr: GattObj)

  function DescNodes(s: GattObj, c: GattObj, ds: seq<GattObj>): seq<Node> {
    if ds == [] then [] else DescNodes(s, c, ds[..|ds| - 1]) + [Node(s, c, ds[|ds| - 1])]
  }

  function CharBlock(objs: seq<GattObj>, s: GattObj, c: GattObj): seq<Node> {
    [Node(s, c, c)] + DescNodes(s, c, DescsOf(objs, c))
  }

  function CharLeaf(objs: seq<GattObj>, c: GattObj): DiscoveredCharacteristic {
    DiscoveredCharacteristic(c.uuid, c.handle, c.props, DescTree(DescsOf(objs, c)))
  }

  function CharNodes(objs: seq<GattObj>, s: GattObj, cs: seq<GattObj>): seq<Node> {
    if cs == [] then []
    else
      var c := cs[|cs| - 1];
      CharNodes(objs, s, cs[..|cs| - 1]) + CharBlock(objs, s, c)
  }

  function ServiceNodes(objs: seq<GattObj>, ss: seq<GattObj>): seq<Node> {
    if ss == [] then []
    else
      var s := ss[|ss| - 1];
      ServiceNodes(objs, ss[..|ss| - 1]) + CharNodes(objs, s, CharsOf(objs, s))
  }

  function Nodes(objs: seq<GattObj>): seq<Node> {
    ServiceNodes(objs, Services(objs, |objs|))
  }

  predicate AllHandled(ns: seq<Node>) {
    forall n <- ns :: n.attr.hasHandle
  }

  /** The nodes before the first one without a handle. */
  function UpToMissing(ns: seq<Node>): (r: seq<Node>)
    ensures r <= ns && AllHandled(r) && (|r| < |ns| ==> !ns[|r|].attr.hasHandle)
  {
    if ns == [] || !ns[0].attr.hasHandle then [] else [ns[0]] + UpToMissing(ns[1..])
  }

  /** The walk needs a Handle on everything it reaches. */
  predicate Walkable(objs: seq<GattObj>) {
    AllHandled(Nodes(objs))
  }

  function Entry(n: Node): ObjEntry {
    ObjEntry(n.attr.path, if n.attr.kind == CHAR then CharEntry else DescEntry, n.owner.handle)
  }

  /** The handle index: later attributes overwrite earlier ones with the same handle. */
  function Index(ns: seq<Node>): HandleMap {
    if ns == [] then map[] else Index(ns[..|ns| - 1])[ns[|ns| - 1].attr.handle := Entry(ns[|ns| - 1])]
  }

  // ----- synthetic GAP service -----

  const GAP_UUID: Uint16 := 0x1800
  const H_SVC: Uint16 := 0xFF00
  const H_NAME: Uint16 := 0xFF01
  const H_APPEARANCE: Uint16 := 0xFF02
  const H_CAR: Uint16 := 0xFF03
  const PROP_READ: Byte := 0x02

  /** The Device1 properties the synthetic service is built from; a failed read is empty or 0. */
  datatype Device1 = Device1(name: seq<Byte>, alias: seq<Byte>, appearance: Uint16)

  function SynthReads(d: Device1): map<Uint16, seq<Byte>> {
    map[H_NAME := if d.name != [] then d.name else d.alias,
        H_APPEARANCE := [d.appearance % 256, d.appearance / 256],
        H_CAR := [0x01]]
  }

  function GapService(): DiscoveredService {
    DiscoveredService(FromUint16(GAP_UUID), H_SVC, H_CAR, [
      DiscoveredCharacteristic(FromUint16(0x2A00), H_NAME, PROP_READ, []),
      DiscoveredCharacteristic(FromUint16(0x2A01), H_APPEARANCE, PROP_READ, []),
      DiscoveredCharacteristic(FromUint16(0x2AA6), H_CAR, PROP_READ, [])])
  }

  ghost predicate UuidsValid(objs: seq<GattObj>) {
    forall o <- objs :: Valid(o.uuid)
  }

  // ----- the worker -----

  class GattIndex {
    var handleMap: HandleMap
    var syntheticReads: map<Uint16, seq<Byte>>

    constructor ()
      ensures handleMap == map[] && syntheticReads == map[]
    {
      handleMap, syntheticReads := map[], map[];
    }

    /** Descriptors below one characteristic. */
    method WalkDescriptors(objs: seq<GattObj>, s: GattObj, c: GattObj, ghost before: seq<Node>)
      returns (ok: bool, ds: seq<DiscoveredDescriptor>)
      requires handleMap == Index(before)
      modifies this`handleMap
      ensures ok == AllHandled(DescNodes(s, c, DescsOf(objs, c)))
      ensures ok ==> ds == DescTree(DescsOf(objs, c))
      ensures handleMap == Index(before + UpToMissing(DescNodes(s, c, DescsOf(objs, c))))
    {
      ds := [];
      assert before + [] == before;
      for k := 0 to |objs|
        invariant ds == DescTree(Children(objs, DESC, c.path, k))
        invariant AllHandled(DescNodes(s, c, Children(objs, DESC, c.path, k)))
        invariant handleMap == Index(before + DescNodes(s, c, Children(objs, DESC, c.path, k)))
      {
        var d := objs[k];
        if d.kind != DESC || d.parent != c.path {
          continue;
        }
        DescStep(objs, s, c, before, k);
        if !d.hasHandle {
          DescMissing(objs, s, c, k);
          return false, ds;
        }
        ds := ds + [DiscoveredDescriptor(d.uuid, d.handle)];
        handleMap := handleMap[d.handle := ObjEntry(d.path, DescEntry, c.handle)];
      }
      NothingMissing(DescNodes(s, c, DescsOf(objs, c)));
      ok := true;
    }

    method WalkCharacteristic(objs: seq<GattObj>, s: GattObj, c: GattObj, ghost before: seq<Node>)
      returns (ok: bool, dc: DiscoveredCharacteristic)
      requires c.kind == CHAR && handleMap == Index(before)
      modifies this`handleMap
      ensures ok == AllHandled(CharBlock(objs, s, c))
      ensures ok ==> dc == CharLeaf(objs, c)
      ensures handleMap == Index(before + UpToMissing(CharBlock(objs, s, c)))
    {
      dc := DiscoveredCharacteristic(c.uuid, c.handle, c.props, []);
      if !c.hasHandle {
        assert Node(s, c, c) in CharBlock(objs, s, c);
        assert before + [] == before;
        return false, dc;
      }
      handleMap := handleMap[c.handle := ObjEntry(c.path, CharEntry, c.handle)];
      var descsOk, ds := WalkDescriptors(objs, s, c, before + [Node(s, c, c)]);
      ok := descsOk;
      assert CharBlock(objs, s, c)[1..] == DescNodes(s, c, DescsOf(objs, c));
      ConcatAssociates(before, [Node(s, c, c)], UpToMissing(DescNodes(s, c, DescsOf(objs, c))));
      if ok {
        dc := dc.(descriptors := ds);
      }
    }

    /** Characteristics below one service. */
    method WalkCharacteristics(objs: seq<GattObj>, s: GattObj, ghost before: seq<Node>)
      returns (ok: bool, cs: seq<DiscoveredCharacteristic>)
      requires handleMap == Index(before)
      modifies this`handleMap
      ensures ok == AllHandled(CharNodes(objs, s, CharsOf(objs, s)))
      ensures ok ==> cs == CharTree(objs, CharsOf(objs, s))
      ensures handleMap == Index(before + UpToMissing(CharNodes(objs, s, CharsOf(objs, s))))
    {
      cs := [];
      assert before + [] == before;
      for k := 0 to |objs|
        invariant cs == CharTree(objs, Children(objs, CHAR, s.path, k))
        invariant AllHandled(CharNodes(objs, s, Children(objs, CHAR, s.path, k)))
        invariant handleMap == Index(before + CharNodes(objs, s, Children(objs, CHAR, s.path, k)))
      {
        var c := objs[k];
        if c.kind != CHAR || c.parent != s.path {
          continue;
        }
        CharStep(objs, s, before, k);
        ghost var seen := CharNodes(objs, s, Children(objs, CHAR, s.path, k));
        var charOk, dc := WalkCharacteristic(objs, s, c, before + seen);
        if !charOk {
          CharMissing(objs, s, before, k);
          return false, cs;
        }
        NothingMissing(CharBlock(objs, s, c));
        cs := cs + [dc];
      }
      NothingMissing(CharNodes(objs, s, CharsOf(objs, s)));
      ok := true;
    }

    /** Rebuilds the index and the tree; fails on the first attribute without a handle. */
    method WalkGattTree(objs: seq<GattObj>, device: Device1) returns (ok: bool, out: seq<DiscoveredService>)
      requires UuidsValid(objs)
      modifies this
      ensures ok == Walkable(objs)
      ensures handleMap == Index(UpToMissing(Nodes(objs)))
      ensures ok ==> handleMap == Index(Nodes(objs))
      ensures !ok ==> syntheticReads == old(syntheticReads)
      ensures ok ==> TreeUuidsValid(Tree(objs)) && out == WithGap(Tree(objs)) && syntheticReads == GapReads(Tree(objs), device)
    {
      handleMap := map[];
      out := [];
      for k := 0 to |objs|
        invariant out == ServiceTree(objs, Services(objs, k))
        invariant AllHandled(ServiceNodes(objs, Services(objs, k)))
        invariant handleMap == Index(ServiceNodes(objs, Services(objs, k))) && syntheticReads == old(syntheticReads)
      {
        var o := objs[k];
        if o.kind != SERVICE {
          continue;
        }
        ghost var ss0 := Services(objs, k);
        ServiceSnoc(objs, ss0, o);
        var charsOk, cs := WalkCharacteristics(objs, o, ServiceNodes(objs, ss0));
        if !charsOk {
          ServiceMissing(objs, k);
          return false, out;
        }
        NothingMissing(CharNodes(objs, o, CharsOf(objs, o)));
        out := out + [DiscoveredService(o.uuid, o.handle, o.handle, cs)];
      }
      TreeIsValid(objs);
      NothingMissing(Nodes(objs));
      out := SynthesizeGapService(out, device);
      ok := true;
    }

    method SynthesizeGapService(tree: seq<DiscoveredService>, device: Device1) returns (out: seq<DiscoveredService>)
      requires TreeUuidsValid(tree)
      modifies this`syntheticReads
      ensures out == WithGap(tree) && syntheticReads == GapReads(tree, device)
    {
      syntheticReads := map[];
      for i := 0 to |tree|
        invariant forall j :: 0 <= j < i ==> !Same(tree[j].uuid, FromUint16(GAP_UUID))
      {
        if Same(tree[i].uuid, FromUint16(GAP_UUID)) {
          assert tree[i] in tree;
          return tree;
        }
      }
      var nameBytes := device.name;
      if nameBytes == [] {
        nameBytes := device.alias;
      }
      var name, reads0 := AddChar(H_NAME, 0x2A00, nameBytes, map[]);
      var appearance, reads1 := AddChar(H_APPEARANCE, 0x2A01, [device.appearance % 256, device.appearance / 256], reads0);
      var car, reads2 := AddChar(H_CAR, 0x2AA6, [0x01], reads1);
      syntheticReads := reads2;
      out := tree + [DiscoveredService(FromUint16(GAP_UUID), H_SVC, H_CAR, [name, appearance, car])];
    }
  }

  method AddChar(handle: Uint16, uuid16: Uint16, value: seq<Byte>, table: map<Uint16, seq<Byte>>)
    returns (dc: DiscoveredCharacteristic, added: map<Uint16, seq<Byte>>)
    ensures dc == DiscoveredCharacteristic(FromUint16(uuid16), handle, PROP_READ, []) && added == table[handle := value]
  {
    dc := DiscoveredCharacteristic(FromUint16(uuid16), handle, PROP_READ, []);
    added := table[handle := value];
  }

  ghost predicate TreeUuidsValid(tree: seq<DiscoveredService>) {
    forall i :: 0 <= i < |tree| ==> Valid(tree[i].uuid)
  }

  /** Whether the tree already holds a service with the two-byte UUID 0x1800. */
  predicate HasShortGap(tree: seq<DiscoveredService>)
    requires TreeUuidsValid(tree)
  {
    exists i :: 0 <= i < |tree| && Same(tree[i].uuid, FromUint16(GAP_UUID))
  }

  function WithGap(tree: seq<DiscoveredService>): seq<DiscoveredService>
    requires TreeUuidsValid(tree)
  {
    if HasShortGap(tree) then tree else tree + [GapService()]
  }

  function GapReads(tree: seq<DiscoveredService>, device: Device1): map<Uint16, seq<Byte>>
    requires TreeUuidsValid(tree)
  {
    if HasShortGap(tree) then map[] else SynthReads(device)
  }

  lemma {:induction false} ServicesMembers(objs: seq<GattObj>, n: nat)
    requires n <= |objs|
    ensures forall o :: o in Services(objs, n) <==> o in objs[..n] && o.kind == SERVICE
  {
    if n > 0 {
      ServicesMembers(objs, n - 1);
      assert objs[..n] == objs[..n - 1] + [objs[n - 1]];
    }
  }

  lemma {:induction false} ServiceTreeUuids(objs: seq<GattObj>, ss: seq<GattObj>)
    requires forall s <- ss :: Valid(s.uuid)
    ensures |ServiceTree(objs, ss)| == |ss| && TreeUuidsValid(ServiceTree(objs, ss))
  {
    if ss != [] {
      assert ss[|ss| - 1] in ss;
      ServiceTreeUuids(objs, ss[..|ss| - 1]);
    }
  }

  lemma {:induction false} TreeIsValid(objs: seq<GattObj>)
    requires UuidsValid(objs)
    ensures TreeUuidsValid(Tree(objs))
  {
    ServicesMembers(objs, |objs|);
    assert objs[..|objs|] == objs;
    ServiceTreeUuids(objs, Services(objs, |objs|));
  }

  lemma {:induction false} DescStep(objs: seq<GattObj>, s: GattObj, c: GattObj, before: seq<Node>, k: nat)
    requires k < |objs| && objs[k].kind == DESC && objs[k].parent == c.path
    ensures var d := objs[k];
            var ds0, ds1 := Children(objs, DESC, c.path, k), Children(objs, DESC, c.path, k + 1);
            && DescTree(ds1) == DescTree(ds0) + [DiscoveredDescriptor(d.uuid, d.handle)]
            && (AllHandled(DescNodes(s, c, ds1)) <==> AllHandled(DescNodes(s, c, ds0)) && d.hasHandle)
            && Index(before + DescNodes(s, c, ds1)) ==
               Index(before + DescNodes(s, c, ds0))[d.handle := ObjEntry(d.path, DescEntry, c.handle)]
  {
    var d := objs[k];
    var ds0 := Children(objs, DESC, c.path, k);
    assert (ds0 + [d])[..|ds0|] == ds0;
    var n := Node(s, c, d);
    assert before + DescNodes(s, c, ds0) + [n] == before + (DescNodes(s, c, ds0) + [n]);
    assert n in DescNodes(s, c, ds0) + [n];
  }

  lemma {:induction false} CharStep(objs: seq<GattObj>, s: GattObj, before: seq<Node>, k: nat)
    requires k < |objs| && objs[k].kind == CHAR && objs[k].parent == s.path
    ensures var cs0, cs1 := Children(objs, CHAR, s.path, k), Children(objs, CHAR, s.path, k + 1);
            var block := CharBlock(objs, s, objs[k]);
            && CharTree(objs, cs1) == CharTree(objs, cs0) + [CharLeaf(objs, objs[k])]
            && (AllHandled(CharNodes(objs, s, cs1)) <==> AllHandled(CharNodes(objs, s, cs0)) && AllHandled(block))
            && before + CharNodes(objs, s, cs1) == before + CharNodes(objs, s, cs0) + block
  {
    var cs0 := Children(objs, CHAR, s.path, k);
  }

  lemma {:induction false} ServiceSnoc(objs: seq<GattObj>, ss: seq<GattObj>, s: GattObj)
    ensures ServiceNodes(objs, ss + [s]) == ServiceNodes(objs, ss) + CharNodes(objs, s, CharsOf(objs, s))
    ensures ServiceTree(objs, ss + [s]) ==
            ServiceTree(objs, ss) + [DiscoveredService(s.uuid, s.handle, s.handle, CharTree(objs, CharsOf(objs, s)))]
  {
    assert (ss + [s])[..|ss|] == ss;
  }

  lemma {:induction false} CharSnoc(objs: seq<GattObj>, s: GattObj, cs: seq<GattObj>, c: GattObj)
    ensures CharNodes(objs, s, cs + [c]) == CharNodes(objs, s, cs) + CharBlock(objs, s, c)
  {
    assert (cs + [c])[..|cs|] == cs;
  }

  lemma {:induction false} CharNodesGrow(objs: seq<GattObj>, s: GattObj, k: nat)
    requires k <= |objs|
    ensures CharNodes(objs, s, Children(objs, CHAR, s.path, k)) <= CharNodes(objs, s, CharsOf(objs, s))
    decreases |objs| - k
  {
    if k < |objs| {
      CharNodesGrow(objs, s, k + 1);
      if objs[k].kind == CHAR && objs[k].parent == s.path {
        CharSnoc(objs, s, Children(objs, CHAR, s.path, k), objs[k]);
        ShorterPrefix(CharNodes(objs, s, Children(objs, CHAR, s.path, k)), CharBlock(objs, s, objs[k]),
                      CharNodes(objs, s, CharsOf(objs, s)));
      }
    }
  }

  lemma {:induction false} ServiceNodesGrow(objs: seq<GattObj>, k: nat)
    requires k <= |objs|
    ensures ServiceNodes(objs, Services(objs, k)) <= Nodes(objs)
    decreases |objs| - k
  {
    if k < |objs| {
      ServiceNodesGrow(objs, k + 1);
      OneServiceLess(objs, k, Nodes(objs));
    }
  }

  lemma {:induction false} OneServiceLess(objs: seq<GattObj>, k: nat, all: seq<Node>)
    requires k < |objs| && ServiceNodes(objs, Services(objs, k + 1)) <= all
    ensures ServiceNodes(objs, Services(objs, k)) <= all
  {
    if objs[k].kind == SERVICE {
      var ss, s := Services(objs, k), objs[k];
      ServiceSnoc(objs, ss, s);
      ShorterPrefix(ServiceNodes(objs, ss), CharNodes(objs, s, CharsOf(objs, s)), all);
    }
  }

  lemma {:induction false} NothingMissing(ns: seq<Node>)
    ensures AllHandled(ns) ==> UpToMissing(ns) == ns
  {
    if ns != [] {
      NothingMissing(ns[1..]);
    }
  }

  /** With a handle missing in part b, the nodes before it are all of a and those of b before it. */
  lemma {:induction false} StopsAtMissing(ns: seq<Node>, a: seq<Node>, b: seq<Node>)
    requires a + b <= ns && AllHandled(a) && !AllHandled(b)
    ensures !AllHandled(ns) && UpToMissing(ns) == a + UpToMissing(b)
    decreases |ns|
  {
    var n :| n in b && !n.attr.hasHandle;
    assert n in a + b && n in ns;
    if a != [] {
      assert a[0] in a && (a + b)[0] == a[0];
      assert (a + b)[1..] == a[1..] + b;
      StopsAtMissing(ns[1..], a[1..], b);
    } else {
      assert a + b == b;
      StopsWithin(ns, b);
    }
  }

  lemma {:induction false} StopsWithin(ns: seq<Node>, b: seq<Node>)
    requires b <= ns && !AllHandled(b)
    ensures UpToMissing(ns) == UpToMissing(b)
  {
    if b[0].attr.hasHandle {
      assert !AllHandled(b[1..]) by {
        var n :| n in b && !n.attr.hasHandle;
        assert n in b[1..];
      }
      StopsWithin(ns[1..], b[1..]);
    }
  }

  lemma {:induction false} DescNodesGrow(objs: seq<GattObj>, s: GattObj, c: GattObj, k: nat)
    requires k <= |objs|
    ensures DescNodes(s, c, Children(objs, DESC, c.path, k)) <= DescNodes(s, c, DescsOf(objs, c))
    decreases |objs| - k
  {
    if k < |objs| {
      DescNodesGrow(objs, s, c, k + 1);
      var ds0 := Children(objs, DESC, c.path, k);
      var ds1 := Children(objs, DESC, c.path, k + 1);
      if ds1 != ds0 {
        assert ds1[..|ds1| - 1] == ds0;
      }
    }
  }

  // ----- where a walk stops -----

  lemma {:induction false} DescMissing(objs: seq<GattObj>, s: GattObj, c: GattObj, k: nat)
    requires k < |objs| && objs[k].kind == DESC && objs[k].parent == c.path && !objs[k].hasHandle
    requires AllHandled(DescNodes(s, c, Children(objs, DESC, c.path, k)))
    ensures var all := DescNodes(s, c, DescsOf(objs, c));
            !AllHandled(all) && UpToMissing(all) == DescNodes(s, c, Children(objs, DESC, c.path, k))
  {
    var ds0, n := Children(objs, DESC, c.path, k), Node(s, c, objs[k]);
    DescNodesGrow(objs, s, c, k + 1);
    assert (ds0 + [objs[k]])[..|ds0|] == ds0;
    assert n in [n] && UpToMissing([n]) == [];
    StopsAtMissing(DescNodes(s, c, DescsOf(objs, c)), DescNodes(s, c, ds0), [n]);
  }

  lemma {:induction false} CharMissing(objs: seq<GattObj>, s: GattObj, before: seq<Node>, k: nat)
    requires k < |objs| && objs[k].kind == CHAR && objs[k].parent == s.path && !AllHandled(CharBlock(objs, s, objs[k]))
    requires AllHandled(CharNodes(objs, s, Children(objs, CHAR, s.path, k)))
    ensures var seen, all := CharNodes(objs, s, Children(objs, CHAR, s.path, k)), CharNodes(objs, s, CharsOf(objs, s));
            !AllHandled(all) && before + UpToMissing(all) == before + seen + UpToMissing(CharBlock(objs, s, objs[k]))
  {
    var seen, block := CharNodes(objs, s, Children(objs, CHAR, s.path, k)), CharBlock(objs, s, objs[k]);
    CharNodesGrow(objs, s, k + 1);
    CharSnoc(objs, s, Children(objs, CHAR, s.path, k), objs[k]);
    StopsAtMissing(CharNodes(objs, s, CharsOf(objs, s)), seen, block);
    ConcatAssociates(before, seen, UpToMissing(block));
  }

  lemma {:induction false} ServiceMissing(objs: seq<GattObj>, k: nat)
    requires k < |objs| && objs[k].kind == SERVICE && !AllHandled(CharNodes(objs, objs[k], CharsOf(objs, objs[k])))
    requires AllHandled(ServiceNodes(objs, Services(objs, k)))
    ensures !Walkable(objs)
    ensures UpToMissing(Nodes(objs)) ==
            ServiceNodes(objs, Services(objs, k)) + UpToMissing(CharNodes(objs, objs[k], CharsOf(objs, objs[k])))
  {
    var o := objs[k];
    ServiceNodesGrow(objs, k + 1);
    ServiceSnoc(objs, Services(objs, k), o);
    StopsAtMissing(Nodes(objs), ServiceNodes(objs, Services(objs, k)), CharNodes(objs, o, CharsOf(objs, o)));
  }
}
