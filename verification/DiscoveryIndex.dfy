/**
  * What the discovery walk guarantees: every attribute with a complete parent chain appears
  * exactly once below that parent, and the main thread's lookups by handle agree with the
  * worker's routing.
  */
module DiscoveryIndex {
  import opened Common
  import opened Uuid
  import opened Discovery

  ghost predicate DistinctPaths(objs: seq<GattObj>) {
    forall i, j :: 0 <= i < j < |objs| ==> objs[i].path != objs[j].path
  }

  /** The parent chain of an attribute is present in the object list. */
  ghost predicate Chain(objs: seq<GattObj>, n: Node) {
    && n.service in objs && n.service.kind == SERVICE
    && n.owner in objs && n.owner.kind == CHAR && n.owner.parent == n.service.path
    && (n.attr == n.owner || (n.attr in objs && n.attr.kind == DESC && n.attr.parent == n.owner.path))
  }

  ghost predicate NoDuplicates<T>(s: seq<T>) {
    forall i, j :: 0 <= i < j < |s| ==> s[i] != s[j]
  }

  // ----- the nodes are exactly the chains -----

  lemma {:induction false} ChildrenMembers(objs: seq<GattObj>, kind: ObjKind, parent: string, n: nat)
    requires n <= |objs|
    ensures forall o :: o in Children(objs, kind, parent, n) <==> o in objs[..n] && o.kind == kind && o.parent == parent
  {
    if n > 0 {
      ChildrenMembers(objs, kind, parent, n - 1);
      assert objs[..n] == objs[..n - 1] + [objs[n - 1]];
    }
  }

  lemma {:induction false} DescNodesMembers(s: GattObj, c: GattObj, ds: seq<GattObj>)
    ensures forall n :: n in DescNodes(s, c, ds) <==> n.service == s && n.owner == c && n.attr in ds
  {
    if ds != [] {
      var d := ds[|ds| - 1];
      DescNodesMembers(s, c, ds[..|ds| - 1]);
      assert ds == ds[..|ds| - 1] + [d];
      assert forall n: Node :: n == Node(s, c, d) <==> n.service == s && n.owner == c && n.attr == d;
    }
  }

  ghost predicate BelowChar(objs: seq<GattObj>, n: Node) {
    n.attr == n.owner || (n.attr in objs && n.attr.kind == DESC && n.attr.parent == n.owner.path)
  }

  lemma {:induction false} CharBlockMembers(objs: seq<GattObj>, s: GattObj, c: GattObj)
    ensures forall n :: n in CharBlock(objs, s, c) <==> n.service == s && n.owner == c && BelowChar(objs, n)
  {
    ChildrenMembers(objs, DESC, c.path, |objs|);
    assert objs[..|objs|] == objs;
    DescNodesMembers(s, c, DescsOf(objs, c));
    assert forall n: Node :: n == Node(s, c, c) <==> n.service == s && n.owner == c && n.attr == n.owner;
  }

  lemma {:induction false} CharNodesMembers(objs: seq<GattObj>, s: GattObj, cs: seq<GattObj>)
    ensures forall n :: n in CharNodes(objs, s, cs) <==> n.service == s && n.owner in cs && BelowChar(objs, n)
  {
    if cs != [] {
      var c := cs[|cs| - 1];
      CharNodesMembers(objs, s, cs[..|cs| - 1]);
      CharBlockMembers(objs, s, c);
      assert cs == cs[..|cs| - 1] + [c];
    }
  }

  ghost predicate BelowService(objs: seq<GattObj>, n: Node) {
    n.owner in objs && n.owner.kind == CHAR && n.owner.parent == n.service.path && BelowChar(objs, n)
  }

  lemma {:induction false} ServiceNodesMembers(objs: seq<GattObj>, ss: seq<GattObj>)
    ensures forall n :: n in ServiceNodes(objs, ss) <==> n.service in ss && BelowService(objs, n)
  {
    if ss != [] {
      var s := ss[|ss| - 1];
      ServiceNodesMembers(objs, ss[..|ss| - 1]);
      ChildrenMembers(objs, CHAR, s.path, |objs|);
      assert objs[..|objs|] == objs;
      CharNodesMembers(objs, s, CharsOf(objs, s));
      assert ss == ss[..|ss| - 1] + [s];
    }
  }

  lemma {:induction false} NodesAreChains(objs: seq<GattObj>)
    ensures forall n :: n in Nodes(objs) <==> Chain(objs, n)
  {
    ServicesMembers(objs, |objs|);
    assert objs[..|objs|] == objs;
    ServiceNodesMembers(objs, Services(objs, |objs|));
  }

  // ----- no node is listed twice -----

  lemma {:induction false} ChildrenDistinct(objs: seq<GattObj>, kind: ObjKind, parent: string, n: nat)
    requires n <= |objs| && DistinctPaths(objs)
    ensures NoDuplicates(Children(objs, kind, parent, n))
  {
    if n > 0 {
      ChildrenDistinct(objs, kind, parent, n - 1);
      ChildrenMembers(objs, kind, parent, n - 1);
    }
  }

  lemma {:induction false} ServicesDistinct(objs: seq<GattObj>, n: nat)
    requires n <= |objs| && DistinctPaths(objs)
    ensures NoDuplicates(Services(objs, n))
  {
    if n > 0 {
      ServicesDistinct(objs, n - 1);
      ServicesMembers(objs, n - 1);
    }
  }

  lemma {:induction false} DescNodesDistinct(s: GattObj, c: GattObj, ds: seq<GattObj>)
    requires NoDuplicates(ds)
    ensures NoDuplicates(DescNodes(s, c, ds))
  {
    if ds != [] {
      var rest, d := ds[..|ds| - 1], ds[|ds| - 1];
      DescNodesDistinct(s, c, rest);
      DescNodesMembers(s, c, rest);
      assert forall i :: 0 <= i < |rest| ==> rest[i] == ds[i];
      assert d !in rest;
    }
  }

  lemma {:induction false} CharBlockDistinct(objs: seq<GattObj>, s: GattObj, c: GattObj)
    requires DistinctPaths(objs) && c.kind == CHAR
    ensures NoDuplicates(CharBlock(objs, s, c))
  {
    var ds := DescsOf(objs, c);
    ChildrenDistinct(objs, DESC, c.path, |objs|);
    ChildrenMembers(objs, DESC, c.path, |objs|);
    DescNodesDistinct(s, c, ds);
    DescNodesMembers(s, c, ds);
  }

  lemma {:induction false} CharNodesDistinct(objs: seq<GattObj>, s: GattObj, cs: seq<GattObj>)
    requires DistinctPaths(objs) && NoDuplicates(cs) && forall c :: c in cs ==> c.kind == CHAR
    ensures NoDuplicates(CharNodes(objs, s, cs))
  {
    if cs != [] {
      var rest, c := cs[..|cs| - 1], cs[|cs| - 1];
      assert forall i :: 0 <= i < |rest| ==> rest[i] == cs[i];
      CharNodesDistinct(objs, s, rest);
      CharNodesMembers(objs, s, rest);
      CharBlockMembers(objs, s, c);
      CharBlockDistinct(objs, s, c);
      assert c !in rest;
    }
  }

  lemma {:induction false} ServiceNodesDistinct(objs: seq<GattObj>, ss: seq<GattObj>)
    requires DistinctPaths(objs) && NoDuplicates(ss)
    ensures NoDuplicates(ServiceNodes(objs, ss))
  {
    if ss != [] {
      var rest, s := ss[..|ss| - 1], ss[|ss| - 1];
      assert forall i :: 0 <= i < |rest| ==> rest[i] == ss[i];
      ServiceNodesDistinct(objs, rest);
      ServiceNodesMembers(objs, rest);
      ChildrenDistinct(objs, CHAR, s.path, |objs|);
      ChildrenMembers(objs, CHAR, s.path, |objs|);
      CharNodesDistinct(objs, s, CharsOf(objs, s));
      CharNodesMembers(objs, s, CharsOf(objs, s));
      assert s !in rest;
    }
  }

  lemma {:induction false} SamePathSameNode(objs: seq<GattObj>, m: Node, n: Node)
    requires DistinctPaths(objs) && Chain(objs, m) && Chain(objs, n) && m.attr.path == n.attr.path
    ensures m == n
  {
    assert forall a, b :: a in objs && b in objs && a.path == b.path ==> a == b;
  }

  /** Every attribute whose parent chain is present is listed exactly once, with that chain. */
  lemma {:induction false} EachAttributeOnce(objs: seq<GattObj>)
    requires DistinctPaths(objs)
    ensures forall n :: n in Nodes(objs) <==> Chain(objs, n)
    ensures forall i, j :: 0 <= i < j < |Nodes(objs)| ==> Nodes(objs)[i].attr.path != Nodes(objs)[j].attr.path
  {
    NodesAreChains(objs);
    ServicesDistinct(objs, |objs|);
    ServiceNodesDistinct(objs, Services(objs, |objs|));
    forall i, j | 0 <= i < j < |Nodes(objs)|
      ensures Nodes(objs)[i].attr.path != Nodes(objs)[j].attr.path
    {
      if Nodes(objs)[i].attr.path == Nodes(objs)[j].attr.path {
        assert Nodes(objs)[i] in Nodes(objs) && Nodes(objs)[j] in Nodes(objs);
        SamePathSameNode(objs, Nodes(objs)[i], Nodes(objs)[j]);
      }
    }
  }

  // ----- in the order of the objects -----

  /** x comes before y in the object list. */
  ghost predicate Precedes(objs: seq<GattObj>, x: GattObj, y: GattObj) {
    exists i, j :: 0 <= i < j < |objs| && objs[i] == x && objs[j] == y
  }

  /** Services in object order; in a service its characteristics in object order; a characteristic
      before its descriptors, and those in object order. */
  ghost predicate InOrder(objs: seq<GattObj>, m: Node, n: Node) {
    Precedes(objs, m.service, n.service) ||
    (m.service == n.service &&
     (Precedes(objs, m.owner, n.owner) ||
      (m.owner == n.owner && (m.attr == m.owner || Precedes(objs, m.attr, n.attr)))))
  }

  ghost predicate Ordered(objs: seq<GattObj>, ns: seq<Node>) {
    forall i, j :: 0 <= i < j < |ns| ==> InOrder(objs, ns[i], ns[j])
  }

  /** A selection of the objects, in their order. */
  ghost predicate Selects(objs: seq<GattObj>, sel: seq<GattObj>, n: nat)
    requires n <= |objs|
  {
    && (forall x <- sel :: exists i :: 0 <= i < n && objs[i] == x)
    && forall i, j :: 0 <= i < j < |sel| ==> Precedes(objs, sel[i], sel[j])
  }

  lemma {:induction false} SelectsNext(objs: seq<GattObj>, sel: seq<GattObj>, n: nat)
    requires n < |objs| && Selects(objs, sel, n)
    ensures Selects(objs, sel, n + 1) && Selects(objs, sel + [objs[n]], n + 1)
  {
    forall i | 0 <= i < |sel| ensures Precedes(objs, sel[i], objs[n]) {
      assert sel[i] in sel;
    }
  }

  lemma {:induction false} ChildrenSelect(objs: seq<GattObj>, kind: ObjKind, parent: string, n: nat)
    requires n <= |objs|
    ensures Selects(objs, Children(objs, kind, parent, n), n)
  {
    if n > 0 {
      ChildrenSelect(objs, kind, parent, n - 1);
      SelectsNext(objs, Children(objs, kind, parent, n - 1), n - 1);
    }
  }

  lemma {:induction false} ServicesSelect(objs: seq<GattObj>, n: nat)
    requires n <= |objs|
    ensures Selects(objs, Services(objs, n), n)
  {
    if n > 0 {
      ServicesSelect(objs, n - 1);
      SelectsNext(objs, Services(objs, n - 1), n - 1);
    }
  }

  lemma {:induction false} OrderedJoin(objs: seq<GattObj>, a: seq<Node>, b: seq<Node>)
    requires Ordered(objs, a) && Ordered(objs, b) && forall m <- a, n <- b :: InOrder(objs, m, n)
    ensures Ordered(objs, a + b)
  {
    forall i, j | 0 <= i < j < |a + b| ensures InOrder(objs, (a + b)[i], (a + b)[j]) {
      if i < |a| <= j {
        assert a[i] in a && b[j - |a|] in b;
      }
    }
  }

  lemma {:induction false} DescNodesOrdered(objs: seq<GattObj>, s: GattObj, c: GattObj, ds: seq<GattObj>)
    requires forall i, j :: 0 <= i < j < |ds| ==> Precedes(objs, ds[i], ds[j])
    ensures |DescNodes(s, c, ds)| == |ds| && forall i :: 0 <= i < |ds| ==> DescNodes(s, c, ds)[i] == Node(s, c, ds[i])
    ensures Ordered(objs, DescNodes(s, c, ds))
  {
    if ds != [] {
      var rest := ds[..|ds| - 1];
      DescNodesOrdered(objs, s, c, rest);
    }
  }

  lemma {:induction false} CharBlockOrdered(objs: seq<GattObj>, s: GattObj, c: GattObj)
    ensures Ordered(objs, CharBlock(objs, s, c))
  {
    ChildrenSelect(objs, DESC, c.path, |objs|);
    DescNodesOrdered(objs, s, c, DescsOf(objs, c));
    DescNodesMembers(s, c, DescsOf(objs, c));
    OrderedJoin(objs, [Node(s, c, c)], DescNodes(s, c, DescsOf(objs, c)));
  }

  lemma {:induction false} CharNodesOrdered(objs: seq<GattObj>, s: GattObj, cs: seq<GattObj>)
    requires forall i, j :: 0 <= i < j < |cs| ==> Precedes(objs, cs[i], cs[j])
    ensures Ordered(objs, CharNodes(objs, s, cs))
  {
    if cs != [] {
      var rest, c := cs[..|cs| - 1], cs[|cs| - 1];
      CharNodesOrdered(objs, s, rest);
      CharBlockOrdered(objs, s, c);
      CharNodesMembers(objs, s, rest);
      CharBlockMembers(objs, s, c);
      forall m <- CharNodes(objs, s, rest), n <- CharBlock(objs, s, c) ensures InOrder(objs, m, n) {
        var i :| 0 <= i < |rest| && rest[i] == m.owner;
        assert Precedes(objs, cs[i], cs[|cs| - 1]);
      }
      OrderedJoin(objs, CharNodes(objs, s, rest), CharBlock(objs, s, c));
    }
  }

  lemma {:induction false} ServiceNodesOrdered(objs: seq<GattObj>, ss: seq<GattObj>)
    requires forall i, j :: 0 <= i < j < |ss| ==> Precedes(objs, ss[i], ss[j])
    ensures Ordered(objs, ServiceNodes(objs, ss))
  {
    if ss != [] {
      var rest, s := ss[..|ss| - 1], ss[|ss| - 1];
      ServiceNodesOrdered(objs, rest);
      ChildrenSelect(objs, CHAR, s.path, |objs|);
      CharNodesOrdered(objs, s, CharsOf(objs, s));
      ServiceNodesMembers(objs, rest);
      CharNodesMembers(objs, s, CharsOf(objs, s));
      forall m <- ServiceNodes(objs, rest), n <- CharNodes(objs, s, CharsOf(objs, s)) ensures InOrder(objs, m, n) {
        var i :| 0 <= i < |rest| && rest[i] == m.service;
        assert Precedes(objs, ss[i], ss[|ss| - 1]);
      }
      OrderedJoin(objs, ServiceNodes(objs, rest), CharNodes(objs, s, CharsOf(objs, s)));
    }
  }

  /** The attributes are listed in the order of the objects, each characteristic before its
      descriptors. */
  lemma {:induction false} NodesInObjectOrder(objs: seq<GattObj>)
    ensures Ordered(objs, Nodes(objs))
  {
    ServicesSelect(objs, |objs|);
    ServiceNodesOrdered(objs, Services(objs, |objs|));
  }

  /** The tree has every service, in object order and empty ones too, with its UUID and its own handle
      at both ends of its range. */
  lemma {:induction false} TreeHasServices(objs: seq<GattObj>)
    ensures var ss, tree := Services(objs, |objs|), Tree(objs);
            && (forall o :: o in ss <==> o in objs && o.kind == SERVICE)
            && (forall i, j :: 0 <= i < j < |ss| ==> Precedes(objs, ss[i], ss[j]))
            && |tree| == |ss|
            && forall i :: 0 <= i < |tree| ==>
                 tree[i].uuid == ss[i].uuid && tree[i].startHandle == ss[i].handle && tree[i].endHandle == ss[i].handle
  {
    ServicesSelect(objs, |objs|);
    ServicesMembers(objs, |objs|);
    assert objs[..|objs|] == objs;
    ServiceTreeHeads(objs, Services(objs, |objs|));
  }

  lemma {:induction false} ServiceTreeHeads(objs: seq<GattObj>, ss: seq<GattObj>)
    ensures var tree := ServiceTree(objs, ss);
            && |tree| == |ss|
            && forall i :: 0 <= i < |tree| ==>
                 tree[i].uuid == ss[i].uuid && tree[i].startHandle == ss[i].handle && tree[i].endHandle == ss[i].handle
  {
    if ss != [] {
      ServiceTreeHeads(objs, ss[..|ss| - 1]);
    }
  }

  // ----- the tree lists the same attributes in the same order, below the same parents -----

  /** One characteristic or descriptor of a tree, together with what it hangs below. */
  datatype FlatAttr =
    | FlatChar(service: BleUuid, start: Uint16, uuid: BleUuid, handle: Uint16, properties: Byte)
    | FlatDesc(service: BleUuid, start: Uint16, owner: BleUuid, ownerHandle: Uint16, uuid: BleUuid, handle: Uint16)

  function View(n: Node): FlatAttr {
    if n.attr.kind == CHAR then FlatChar(n.service.uuid, n.service.handle, n.attr.uuid, n.attr.handle, n.attr.props)
    else FlatDesc(n.service.uuid, n.service.handle, n.owner.uuid, n.owner.handle, n.attr.uuid, n.attr.handle)
  }

  function Views(ns: seq<Node>): seq<FlatAttr> {
    if ns == [] then [] else Views(ns[..|ns| - 1]) + [View(ns[|ns| - 1])]
  }

  function FlatDescs(svc: BleUuid, start: Uint16, c: DiscoveredCharacteristic, ds: seq<DiscoveredDescriptor>): seq<FlatAttr> {
    if ds == [] then []
    else
      var d := ds[|ds| - 1];
      FlatDescs(svc, start, c, ds[..|ds| - 1]) + [FlatDesc(svc, start, c.uuid, c.handle, d.uuid, d.handle)]
  }

  function FlatBlock(svc: BleUuid, start: Uint16, c: DiscoveredCharacteristic): seq<FlatAttr> {
    [FlatChar(svc, start, c.uuid, c.handle, c.properties)] + FlatDescs(svc, start, c, c.descriptors)
  }

  function FlatChars(svc: BleUuid, start: Uint16, cs: seq<DiscoveredCharacteristic>): seq<FlatAttr> {
    if cs == [] then [] else FlatChars(svc, start, cs[..|cs| - 1]) + FlatBlock(svc, start, cs[|cs| - 1])
  }

  function FlatTree(tree: seq<DiscoveredService>): seq<FlatAttr> {
    if tree == [] then []
    else
      var s := tree[|tree| - 1];
      FlatTree(tree[..|tree| - 1]) + FlatChars(s.uuid, s.startHandle, s.characteristics)
  }

  lemma {:induction false} ViewsConcat(a: seq<Node>, b: seq<Node>)
    ensures Views(a + b) == Views(a) + Views(b)
  {
    if b == [] {
      assert a + b == a;
    } else {
      assert (a + b)[..|a + b| - 1] == a + b[..|b| - 1];
      ViewsConcat(a, b[..|b| - 1]);
    }
  }

  lemma {:induction false} FlatDescsAreNodes(objs: seq<GattObj>, s: GattObj, c: GattObj, leaf: DiscoveredCharacteristic, ds: seq<GattObj>)
    requires leaf.uuid == c.uuid && leaf.handle == c.handle
    requires forall d :: d in ds ==> d.kind == DESC
    ensures FlatDescs(s.uuid, s.handle, leaf, DescTree(ds)) == Views(DescNodes(s, c, ds))
  {
    if ds != [] {
      var rest := ds[..|ds| - 1];
      FlatDescsAreNodes(objs, s, c, leaf, rest);
      assert DescTree(ds)[..|DescTree(ds)| - 1] == DescTree(rest);
      assert DescNodes(s, c, ds)[..|DescNodes(s, c, ds)| - 1] == DescNodes(s, c, rest);
    }
  }

  lemma {:induction false} FlatBlockIsNodes(objs: seq<GattObj>, s: GattObj, c: GattObj)
    requires c.kind == CHAR
    ensures FlatBlock(s.uuid, s.handle, CharLeaf(objs, c)) == Views(CharBlock(objs, s, c))
  {
    ChildrenMembers(objs, DESC, c.path, |objs|);
    FlatDescsAreNodes(objs, s, c, CharLeaf(objs, c), DescsOf(objs, c));
    ViewsConcat([Node(s, c, c)], DescNodes(s, c, DescsOf(objs, c)));
    assert [Node(s, c, c)][..0] == [];
  }

  lemma {:induction false} FlatCharsAreNodes(objs: seq<GattObj>, s: GattObj, cs: seq<GattObj>)
    requires forall c :: c in cs ==> c.kind == CHAR
    ensures FlatChars(s.uuid, s.handle, CharTree(objs, cs)) == Views(CharNodes(objs, s, cs))
  {
    if cs != [] {
      var rest, c := cs[..|cs| - 1], cs[|cs| - 1];
      FlatCharsAreNodes(objs, s, rest);
      FlatBlockIsNodes(objs, s, c);
      ViewsConcat(CharNodes(objs, s, rest), CharBlock(objs, s, c));
      assert CharTree(objs, cs)[..|CharTree(objs, cs)| - 1] == CharTree(objs, rest);
    }
  }

  lemma {:induction false} FlatServicesAreNodes(objs: seq<GattObj>, ss: seq<GattObj>)
    ensures FlatTree(ServiceTree(objs, ss)) == Views(ServiceNodes(objs, ss))
  {
    if ss != [] {
      var rest, s := ss[..|ss| - 1], ss[|ss| - 1];
      FlatServicesAreNodes(objs, rest);
      FlatServiceIsNodes(objs, s);
      ViewsConcat(ServiceNodes(objs, rest), CharNodes(objs, s, CharsOf(objs, s)));
      FlatTreeSnoc(ServiceTree(objs, rest), DiscoveredService(s.uuid, s.handle, s.handle, CharTree(objs, CharsOf(objs, s))));
    }
  }

  lemma {:induction false} FlatServiceIsNodes(objs: seq<GattObj>, s: GattObj)
    ensures FlatChars(s.uuid, s.handle, CharTree(objs, CharsOf(objs, s))) == Views(CharNodes(objs, s, CharsOf(objs, s)))
  {
    ChildrenMembers(objs, CHAR, s.path, |objs|);
    FlatCharsAreNodes(objs, s, CharsOf(objs, s));
  }

  lemma {:induction false} FlatTreeSnoc(tree: seq<DiscoveredService>, s: DiscoveredService)
    ensures FlatTree(tree + [s]) == FlatTree(tree) + FlatChars(s.uuid, s.startHandle, s.characteristics)
  {
    assert (tree + [s])[..|tree|] == tree;
  }

  /** Reading the tree top to bottom gives the nodes, each below its own parents. */
  lemma {:induction false} TreeListsNodes(objs: seq<GattObj>)
    ensures FlatTree(Tree(objs)) == Views(Nodes(objs))
  {
    FlatServicesAreNodes(objs, Services(objs, |objs|));
  }

  // ----- the main thread's copy and its lookups -----

  /** The SERVICES_DISCOVERED handler rebuilds the wrapper tree from the worker's snapshot. */
  method RebuildTree(snapshot: seq<DiscoveredService>) returns (services: seq<DiscoveredService>)
    ensures services == snapshot
  {
    services := [];
    for i := 0 to |snapshot|
      invariant services == snapshot[..i]
    {
      var ds := snapshot[i];
      var chars: seq<DiscoveredCharacteristic> := [];
      for j := 0 to |ds.characteristics|
        invariant chars == ds.characteristics[..j]
      {
        var dc := ds.characteristics[j];
        var descs: seq<DiscoveredDescriptor> := [];
        for k := 0 to |dc.descriptors|
          invariant descs == dc.descriptors[..k]
        {
          descs := descs + [DiscoveredDescriptor(dc.descriptors[k].uuid, dc.descriptors[k].handle)];
        }
        assert dc.descriptors[..|dc.descriptors|] == dc.descriptors;
        chars := chars + [DiscoveredCharacteristic(dc.uuid, dc.handle, dc.properties, descs)];
      }
      assert ds.characteristics[..|ds.characteristics|] == ds.characteristics;
      services := services + [DiscoveredService(ds.uuid, ds.startHandle, ds.endHandle, chars)];
    }
  }

  function CharIn(cs: seq<DiscoveredCharacteristic>, h: Uint16): Option<DiscoveredCharacteristic> {
    if cs == [] then None
    else
      var r := CharIn(cs[..|cs| - 1], h);
      if r.Some? then r else if cs[|cs| - 1].handle == h then Some(cs[|cs| - 1]) else None
  }

  /** The first characteristic, in tree order, with the given handle. */
  function FindChar(tree: seq<DiscoveredService>, h: Uint16): Option<DiscoveredCharacteristic> {
    if tree == [] then None
    else
      var r := FindChar(tree[..|tree| - 1], h);
      if r.Some? then r else CharIn(tree[|tree| - 1].characteristics, h)
  }

  function DescIn(ds: seq<DiscoveredDescriptor>, h: Uint16): Option<DiscoveredDescriptor> {
    if ds == [] then None
    else
      var r := DescIn(ds[..|ds| - 1], h);
      if r.Some? then r else if ds[|ds| - 1].handle == h then Some(ds[|ds| - 1]) else None
  }

  function DescInChars(cs: seq<DiscoveredCharacteristic>, h: Uint16): Option<DiscoveredDescriptor> {
    if cs == [] then None
    else
      var r := DescInChars(cs[..|cs| - 1], h);
      if r.Some? then r else DescIn(cs[|cs| - 1].descriptors, h)
  }

  /** The first descriptor, in tree order, with the given handle. */
  function FindDesc(tree: seq<DiscoveredService>, h: Uint16): Option<DiscoveredDescriptor> {
    if tree == [] then None
    else
      var r := FindDesc(tree[..|tree| - 1], h);
      if r.Some? then r else DescInChars(tree[|tree| - 1].characteristics, h)
  }

  lemma {:induction false} CharInPrefix(cs: seq<DiscoveredCharacteristic>, h: Uint16, j: nat)
    requires j <= |cs| && CharIn(cs[..j], h).Some?
    ensures CharIn(cs, h) == CharIn(cs[..j], h)
    decreases |cs| - j
  {
    if j < |cs| {
      assert cs[..j + 1][..j] == cs[..j];
      CharInPrefix(cs, h, j + 1);
    } else {
      assert cs[..j] == cs;
    }
  }

  lemma {:induction false} FindCharPrefix(tree: seq<DiscoveredService>, h: Uint16, i: nat)
    requires i <= |tree| && FindChar(tree[..i], h).Some?
    ensures FindChar(tree, h) == FindChar(tree[..i], h)
    decreases |tree| - i
  {
    if i < |tree| {
      assert tree[..i + 1][..i] == tree[..i];
      FindCharPrefix(tree, h, i + 1);
    } else {
      assert tree[..i] == tree;
    }
  }

  lemma {:induction false} DescInPrefix(ds: seq<DiscoveredDescriptor>, h: Uint16, j: nat)
    requires j <= |ds| && DescIn(ds[..j], h).Some?
    ensures DescIn(ds, h) == DescIn(ds[..j], h)
    decreases |ds| - j
  {
    if j < |ds| {
      assert ds[..j + 1][..j] == ds[..j];
      DescInPrefix(ds, h, j + 1);
    } else {
      assert ds[..j] == ds;
    }
  }

  lemma {:induction false} DescInCharsPrefix(cs: seq<DiscoveredCharacteristic>, h: Uint16, j: nat)
    requires j <= |cs| && DescInChars(cs[..j], h).Some?
    ensures DescInChars(cs, h) == DescInChars(cs[..j], h)
    decreases |cs| - j
  {
    if j < |cs| {
      assert cs[..j + 1][..j] == cs[..j];
      DescInCharsPrefix(cs, h, j + 1);
    } else {
      assert cs[..j] == cs;
    }
  }

  lemma {:induction false} FindDescPrefix(tree: seq<DiscoveredService>, h: Uint16, i: nat)
    requires i <= |tree| && FindDesc(tree[..i], h).Some?
    ensures FindDesc(tree, h) == FindDesc(tree[..i], h)
    decreases |tree| - i
  {
    if i < |tree| {
      assert tree[..i + 1][..i] == tree[..i];
      FindDescPrefix(tree, h, i + 1);
    } else {
      assert tree[..i] == tree;
    }
  }

  method GetCharacteristic(services: seq<DiscoveredService>, handle: Uint16) returns (r: Option<DiscoveredCharacteristic>)
    ensures r == FindChar(services, handle)
  {
    for i := 0 to |services|
      invariant FindChar(services[..i], handle).None?
    {
      var cs := services[i].characteristics;
      assert services[..i + 1][..i] == services[..i];
      for j := 0 to |cs|
        invariant CharIn(cs[..j], handle).None?
      {
        assert cs[..j + 1][..j] == cs[..j];
        if cs[j].handle == handle {
          CharInPrefix(cs, handle, j + 1);
          FindCharPrefix(services, handle, i + 1);
          return Some(cs[j]);
        }
      }
      assert cs[..|cs|] == cs;
    }
    assert services[..|services|] == services;
    return None;
  }

  method DescriptorAmong(ds: seq<DiscoveredDescriptor>, handle: Uint16) returns (r: Option<DiscoveredDescriptor>)
    ensures r == DescIn(ds, handle)
  {
    for k := 0 to |ds|
      invariant DescIn(ds[..k], handle).None?
    {
      assert ds[..k + 1][..k] == ds[..k];
      if ds[k].handle == handle {
        DescInPrefix(ds, handle, k + 1);
        return Some(ds[k]);
      }
    }
    assert ds[..|ds|] == ds;
    return None;
  }

  method DescriptorBelow(cs: seq<DiscoveredCharacteristic>, handle: Uint16) returns (r: Option<DiscoveredDescriptor>)
    ensures r == DescInChars(cs, handle)
  {
    for j := 0 to |cs|
      invariant DescInChars(cs[..j], handle).None?
    {
      assert cs[..j + 1][..j] == cs[..j];
      r := DescriptorAmong(cs[j].descriptors, handle);
      if r.Some? {
        DescInCharsPrefix(cs, handle, j + 1);
        return;
      }
    }
    assert cs[..|cs|] == cs;
    return None;
  }

  method GetDescriptor(services: seq<DiscoveredService>, handle: Uint16) returns (r: Option<DiscoveredDescriptor>)
    ensures r == FindDesc(services, handle)
  {
    for i := 0 to |services|
      invariant FindDesc(services[..i], handle).None?
    {
      assert services[..i + 1][..i] == services[..i];
      r := DescriptorBelow(services[i].characteristics, handle);
      if r.Some? {
        FindDescPrefix(services, handle, i + 1);
        return;
      }
    }
    assert services[..|services|] == services;
    return None;
  }

  ghost predicate CharAt(n: Node, h: Uint16) {
    n.attr.kind == CHAR && n.attr.handle == h
  }

  ghost predicate DescAt(n: Node, h: Uint16) {
    n.attr.kind == DESC && n.attr.handle == h
  }

  lemma {:induction false} BlockKinds(objs: seq<GattObj>, s: GattObj, c: GattObj)
    requires c.kind == CHAR
    ensures forall n :: n in DescNodes(s, c, DescsOf(objs, c)) <==> n.service == s && n.owner == c && n.attr in DescsOf(objs, c)
    ensures forall d :: d in DescsOf(objs, c) ==> d.kind == DESC
  {
    ChildrenMembers(objs, DESC, c.path, |objs|);
    DescNodesMembers(s, c, DescsOf(objs, c));
  }

  lemma {:induction false} CharInNodes(objs: seq<GattObj>, s: GattObj, cs: seq<GattObj>, h: Uint16)
    requires forall c :: c in cs ==> c.kind == CHAR
    ensures var r := CharIn(CharTree(objs, cs), h);
            if r.Some? then exists n :: n in CharNodes(objs, s, cs) && CharAt(n, h) && r.value == CharLeaf(objs, n.attr)
            else forall n :: n in CharNodes(objs, s, cs) ==> !CharAt(n, h)
  {
    if cs != [] {
      var rest, c := cs[..|cs| - 1], cs[|cs| - 1];
      CharInNodes(objs, s, rest, h);
      BlockKinds(objs, s, c);
      assert CharTree(objs, cs)[..|CharTree(objs, cs)| - 1] == CharTree(objs, rest);
      if CharIn(CharTree(objs, rest), h).None? && c.handle == h {
        var n := Node(s, c, c);
        assert n in CharBlock(objs, s, c) && CharAt(n, h);
      }
    }
  }

  lemma {:induction false} FindCharNodes(objs: seq<GattObj>, ss: seq<GattObj>, h: Uint16)
    ensures var r := FindChar(ServiceTree(objs, ss), h);
            if r.Some? then exists n :: n in ServiceNodes(objs, ss) && CharAt(n, h) && r.value == CharLeaf(objs, n.attr)
            else forall n :: n in ServiceNodes(objs, ss) ==> !CharAt(n, h)
  {
    if ss != [] {
      var rest, s := ss[..|ss| - 1], ss[|ss| - 1];
      FindCharNodes(objs, rest, h);
      ChildrenMembers(objs, CHAR, s.path, |objs|);
      CharInNodes(objs, s, CharsOf(objs, s), h);
      assert ServiceTree(objs, ss)[..|ServiceTree(objs, ss)| - 1] == ServiceTree(objs, rest);
    }
  }

  lemma {:induction false} DescInNodes(s: GattObj, c: GattObj, ds: seq<GattObj>, h: Uint16)
    requires forall d :: d in ds ==> d.kind == DESC
    ensures var r := DescIn(DescTree(ds), h);
            if r.Some? then exists n :: n in DescNodes(s, c, ds) && DescAt(n, h) && r.value == DiscoveredDescriptor(n.attr.uuid, h)
            else forall n :: n in DescNodes(s, c, ds) ==> !DescAt(n, h)
  {
    if ds != [] {
      var rest, d := ds[..|ds| - 1], ds[|ds| - 1];
      DescInNodes(s, c, rest, h);
      assert DescTree(ds)[..|DescTree(ds)| - 1] == DescTree(rest);
      if DescIn(DescTree(rest), h).None? && d.handle == h {
        assert Node(s, c, d) in DescNodes(s, c, ds) && DescAt(Node(s, c, d), h);
      }
    }
  }

  lemma {:induction false} DescInCharNodes(objs: seq<GattObj>, s: GattObj, cs: seq<GattObj>, h: Uint16)
    requires forall c :: c in cs ==> c.kind == CHAR
    ensures var r := DescInChars(CharTree(objs, cs), h);
            if r.Some? then exists n :: n in CharNodes(objs, s, cs) && DescAt(n, h) && r.value == DiscoveredDescriptor(n.attr.uuid, h)
            else forall n :: n in CharNodes(objs, s, cs) ==> !DescAt(n, h)
  {
    if cs != [] {
      var rest, c := cs[..|cs| - 1], cs[|cs| - 1];
      DescInCharNodes(objs, s, rest, h);
      BlockKinds(objs, s, c);
      DescInNodes(s, c, DescsOf(objs, c), h);
      assert CharTree(objs, cs)[..|CharTree(objs, cs)| - 1] == CharTree(objs, rest);
      assert !DescAt(Node(s, c, c), h);
      assert forall n :: n in DescNodes(s, c, DescsOf(objs, c)) ==> n in CharBlock(objs, s, c);
    }
  }

  lemma {:induction false} FindDescNodes(objs: seq<GattObj>, ss: seq<GattObj>, h: Uint16)
    ensures var r := FindDesc(ServiceTree(objs, ss), h);
            if r.Some? then exists n :: n in ServiceNodes(objs, ss) && DescAt(n, h) && r.value == DiscoveredDescriptor(n.attr.uuid, h)
            else forall n :: n in ServiceNodes(objs, ss) ==> !DescAt(n, h)
  {
    if ss != [] {
      var rest, s := ss[..|ss| - 1], ss[|ss| - 1];
      FindDescNodes(objs, rest, h);
      ChildrenMembers(objs, CHAR, s.path, |objs|);
      DescInCharNodes(objs, s, CharsOf(objs, s), h);
      assert ServiceTree(objs, ss)[..|ServiceTree(objs, ss)| - 1] == ServiceTree(objs, rest);
    }
  }

  /** An index entry is that of some node with the handle, and every node's handle is indexed. */
  lemma {:induction false} IndexLookup(ns: seq<Node>, h: Uint16)
    ensures h in Index(ns) ==> exists n :: n in ns && n.attr.handle == h && Index(ns)[h] == Entry(n)
    ensures forall n :: n in ns && n.attr.handle == h ==> h in Index(ns)
  {
    if ns != [] {
      var rest, last := ns[..|ns| - 1], ns[|ns| - 1];
      IndexLookup(rest, h);
      assert ns == rest + [last];
      assert last in ns;
    }
  }

  predicate CharRoutable(m: HandleMap, synthetic: map<Uint16, seq<Byte>>, h: Uint16) {
    h in synthetic || (h in m && m[h].kind == CharEntry)
  }

  predicate DescRoutable(m: HandleMap, h: Uint16) {
    h in m && m[h].kind == DescEntry
  }

  /** The main thread finds a handle exactly when the worker can route it as the same kind. */
  ghost predicate Agrees(tree: seq<DiscoveredService>, m: HandleMap, synthetic: map<Uint16, seq<Byte>>) {
    forall h: Uint16 ::
      && (FindChar(tree, h).Some? <==> CharRoutable(m, synthetic, h))
      && (FindDesc(tree, h).Some? <==> DescRoutable(m, h))
  }

  /** No characteristic and descriptor of the tree share a handle. */
  ghost predicate NoClash(objs: seq<GattObj>) {
    forall m, n :: m in Nodes(objs) && n in Nodes(objs) && m.attr.kind == CHAR && n.attr.kind == DESC
      ==> m.attr.handle != n.attr.handle
  }

  ghost predicate LowHandles(objs: seq<GattObj>) {
    forall n :: n in Nodes(objs) ==> n.attr.handle < H_SVC
  }

  lemma {:induction false} GapLookups(h: Uint16)
    ensures CharIn(GapService().characteristics, h).Some? <==> h in {H_NAME, H_APPEARANCE, H_CAR}
    ensures DescInChars(GapService().characteristics, h).None?
  {
    var cs := GapService().characteristics;
    assert cs[..2][..1] == cs[..1];
    assert cs[..1][..0] == [];
    assert |cs| == 3;
    assert CharIn(cs[..1], h).Some? <==> h == H_NAME;
    assert CharIn(cs[..2], h).Some? <==> h in {H_NAME, H_APPEARANCE};
    assert DescInChars(cs[..1], h).None?;
    assert DescInChars(cs[..2], h).None?;
  }

  lemma {:induction false} GapTreeLookups(tree: seq<DiscoveredService>, device: Device1, h: Uint16)
    requires TreeUuidsValid(tree)
    ensures FindChar(WithGap(tree), h).Some? <==> FindChar(tree, h).Some? || h in GapReads(tree, device)
    ensures FindChar(tree, h).Some? ==> FindChar(WithGap(tree), h) == FindChar(tree, h)
    ensures FindDesc(WithGap(tree), h) == FindDesc(tree, h)
    ensures h < H_SVC ==> h !in GapReads(tree, device)
  {
    if !HasShortGap(tree) {
      assert (tree + [GapService()])[..|tree|] == tree;
      GapLookups(h);
    }
  }

  lemma {:induction false} NodeKinds(objs: seq<GattObj>, n: Node)
    requires n in Nodes(objs)
    ensures n.attr.kind == CHAR || n.attr.kind == DESC
  {
    NodesAreChains(objs);
  }

  /** After a successful walk lookups and routing agree if and only if no characteristic and
      descriptor share a handle. */
  lemma {:induction false} IndexAgreesWithTree(objs: seq<GattObj>, device: Device1)
    requires UuidsValid(objs) && LowHandles(objs)
    ensures TreeUuidsValid(Tree(objs))
    ensures Agrees(WithGap(Tree(objs)), Index(Nodes(objs)), GapReads(Tree(objs), device)) <==> NoClash(objs)
  {
    TreeIsValid(objs);
    var tree, m, synthetic := Tree(objs), Index(Nodes(objs)), GapReads(Tree(objs), device);
    forall h: Uint16 | NoClash(objs)
      ensures FindChar(WithGap(tree), h).Some? <==> CharRoutable(m, synthetic, h)
      ensures FindDesc(WithGap(tree), h).Some? <==> DescRoutable(m, h)
    {
      HandleAgrees(objs, device, h);
    }
    if !NoClash(objs) {
      var c, d :| c in Nodes(objs) && d in Nodes(objs) && c.attr.kind == CHAR && d.attr.kind == DESC
                  && c.attr.handle == d.attr.handle;
      SharedHandleFoundTwice(objs, device, c, d);
    }
  }

  /** A peer that reports one handle for a characteristic and its descriptor. */
  function ClashingObjects(h: Uint16): seq<GattObj> {
    [ GattObj("/s", SERVICE, FromUint16(0x180A), 1, true, "/", 0),
      GattObj("/s/c", CHAR, FromUint16(0x2A29), h, true, "/s", PROP_READ),
      GattObj("/s/c/d", DESC, FromUint16(0x2902), h, true, "/s/c", 0) ]
  }

  lemma {:induction false} SharedHandleDisagrees(objs: seq<GattObj>, device: Device1, c: Node, d: Node)
    requires UuidsValid(objs) && LowHandles(objs) && Chain(objs, c) && Chain(objs, d)
    requires c.attr.kind == CHAR && d.attr.kind == DESC && c.attr.handle == d.attr.handle
    ensures TreeUuidsValid(Tree(objs))
    ensures !Agrees(WithGap(Tree(objs)), Index(Nodes(objs)), GapReads(Tree(objs), device))
  {
    NodesAreChains(objs);
    IndexAgreesWithTree(objs, device);
  }

  lemma {:induction false} ClashIsWalkable(h: Uint16)
    requires 1 < h < H_SVC
    ensures var objs := ClashingObjects(h); UuidsValid(objs) && DistinctPaths(objs) && Walkable(objs) && LowHandles(objs)
  {
    var objs := ClashingObjects(h);
    assert forall o <- objs :: o.hasHandle && o.handle < H_SVC;
    LowIsWalkable(objs);
  }

  lemma {:induction false} LowIsWalkable(objs: seq<GattObj>)
    requires forall o <- objs :: o.hasHandle && o.handle < H_SVC
    ensures Walkable(objs) && LowHandles(objs)
  {
    NodesAreChains(objs);
  }

  /** Its walk succeeds, and lookups and routing disagree. */
  lemma {:induction false} ClashDisagrees(h: Uint16, device: Device1)
    requires 1 < h < H_SVC
    ensures var objs := ClashingObjects(h);
            && UuidsValid(objs) && DistinctPaths(objs) && Walkable(objs) && TreeUuidsValid(Tree(objs))
            && !Agrees(WithGap(Tree(objs)), Index(Nodes(objs)), GapReads(Tree(objs), device))
  {
    var objs := ClashingObjects(h);
    ClashIsWalkable(h);
    SharedHandleDisagrees(objs, device, Node(objs[0], objs[1], objs[1]), Node(objs[0], objs[1], objs[2]));
  }

  lemma {:induction false} SharedHandleFoundTwice(objs: seq<GattObj>, device: Device1, c: Node, d: Node)
    requires TreeUuidsValid(Tree(objs)) && c in Nodes(objs) && d in Nodes(objs)
    requires c.attr.kind == CHAR && d.attr.kind == DESC && c.attr.handle == d.attr.handle < H_SVC
    ensures FindChar(WithGap(Tree(objs)), c.attr.handle).Some? && FindDesc(WithGap(Tree(objs)), c.attr.handle).Some?
    ensures c.attr.handle !in GapReads(Tree(objs), device)
  {
    var h := c.attr.handle;
    GapTreeLookups(Tree(objs), device, h);
    FindCharNodes(objs, Services(objs, |objs|), h);
    FindDescNodes(objs, Services(objs, |objs|), h);
    assert CharAt(c, h) && DescAt(d, h);
  }

  lemma {:induction false} HandleAgrees(objs: seq<GattObj>, device: Device1, h: Uint16)
    requires UuidsValid(objs) && TreeUuidsValid(Tree(objs)) && NoClash(objs)
    ensures FindChar(WithGap(Tree(objs)), h).Some? <==> CharRoutable(Index(Nodes(objs)), GapReads(Tree(objs), device), h)
    ensures FindDesc(WithGap(Tree(objs)), h).Some? <==> DescRoutable(Index(Nodes(objs)), h)
  {
    var ns := Nodes(objs);
    GapTreeLookups(Tree(objs), device, h);
    FindCharNodes(objs, Services(objs, |objs|), h);
    FindDescNodes(objs, Services(objs, |objs|), h);
    IndexLookup(ns, h);
    if h in Index(ns) {
      var n :| n in ns && n.attr.handle == h && Index(ns)[h] == Entry(n);
      NodeKinds(objs, n);
      assert CharAt(n, h) || DescAt(n, h);
    }
  }

  ghost predicate DistinctHandles(objs: seq<GattObj>) {
    forall m, n :: m in Nodes(objs) && n in Nodes(objs) && m.attr.handle == n.attr.handle ==> m == n
  }

  /** What a look-up finds is the characteristic of the node. */
  predicate FoundChar(found: Option<DiscoveredCharacteristic>, n: Node) {
    if n.attr.kind != CHAR then found.None?
    else found.Some? && found.value.uuid == n.attr.uuid && found.value.handle == n.attr.handle && found.value.properties == n.attr.props
  }

  /** With distinct handles the looked-up attribute and the routed path belong to one object. */
  lemma {:induction false} SameObject(objs: seq<GattObj>, device: Device1, n: Node)
    requires UuidsValid(objs) && LowHandles(objs) && DistinctHandles(objs) && n in Nodes(objs)
    ensures TreeUuidsValid(Tree(objs))
    ensures var h := n.attr.handle;
            && h in Index(Nodes(objs))
            && Index(Nodes(objs))[h] ==
               ObjEntry(n.attr.path, if n.attr.kind == CHAR then CharEntry else DescEntry, n.owner.handle)
            && h !in GapReads(Tree(objs), device)
            && FoundChar(FindChar(WithGap(Tree(objs)), h), n)
            && FindDesc(WithGap(Tree(objs)), h) == (if n.attr.kind == DESC then Some(DiscoveredDescriptor(n.attr.uuid, h)) else None)
  {
    TreeIsValid(objs);
    var h := n.attr.handle;
    NodeKinds(objs, n);
    assert CharAt(n, h) || DescAt(n, h);
    GapTreeLookups(Tree(objs), device, h);
    FindCharNodes(objs, Services(objs, |objs|), h);
    FindDescNodes(objs, Services(objs, |objs|), h);
    IndexLookup(Nodes(objs), h);
  }

  // ----- reading the synthetic GAP service -----

  /** A characteristic of the synthetic service, found by its handle in the client's tree, has this
      UUID, is readable, and the worker serves these bytes for it. */
  ghost predicate Serves(tree: seq<DiscoveredService>, cached: map<Uint16, seq<Byte>>, h: Uint16, uuid: Uint16, value: seq<Byte>) {
    && h in cached && cached[h] == value
    && FindChar(tree, h) == Some(DiscoveredCharacteristic(FromUint16(uuid), h, 0x02, []))
  }

  /** A device without an exported GAP service is given one: Device Name reads as the device's name or,
      when that is empty, its alias; Appearance as its appearance, least significant byte first;
      Central Address Resolution as supported; and nothing else is cached. */
  lemma {:induction false} GapIsServed(objs: seq<GattObj>, device: Device1)
    requires UuidsValid(objs) && LowHandles(objs) && TreeUuidsValid(Tree(objs)) && !HasShortGap(Tree(objs))
    ensures var tree, cached := WithGap(Tree(objs)), GapReads(Tree(objs), device);
            && cached.Keys == {0xFF01, 0xFF02, 0xFF03}
            && Serves(tree, cached, 0xFF01, 0x2A00, if device.name != [] then device.name else device.alias)
            && (exists b :: |b| == 2 && LittleEndian(b) == device.appearance && Serves(tree, cached, 0xFF02, 0x2A01, b))
            && Serves(tree, cached, 0xFF03, 0x2AA6, [1])
  {
    var tree := Tree(objs);
    forall h: Uint16 | h >= 0xFF00 ensures FindChar(tree, h).None? {
      FindCharNodes(objs, Services(objs, |objs|), h);
    }
    assert (tree + [GapService()])[..|tree|] == tree;
    GapCharacteristics();
    var b := [device.appearance % 256, device.appearance / 256];
    assert LittleEndian(b) == device.appearance by {
      assert b[1..][1..] == [];
      assert LittleEndian(b[1..]) == device.appearance / 256;
    }
    assert Serves(WithGap(tree), GapReads(tree, device), 0xFF02, 0x2A01, b);
  }

  lemma {:induction false} CharInNext(cs: seq<DiscoveredCharacteristic>, c: DiscoveredCharacteristic, h: Uint16)
    ensures CharIn(cs + [c], h) == if CharIn(cs, h).Some? then CharIn(cs, h) else if c.handle == h then Some(c) else None
  {
    assert (cs + [c])[..|cs|] == cs;
  }

  lemma {:induction false} GapCharacteristics()
    ensures CharIn(GapService().characteristics, 0xFF01) == Some(DiscoveredCharacteristic(FromUint16(0x2A00), 0xFF01, 0x02, []))
    ensures CharIn(GapService().characteristics, 0xFF02) == Some(DiscoveredCharacteristic(FromUint16(0x2A01), 0xFF02, 0x02, []))
    ensures CharIn(GapService().characteristics, 0xFF03) == Some(DiscoveredCharacteristic(FromUint16(0x2AA6), 0xFF03, 0x02, []))
  {
    var cs := GapService().characteristics;
    assert cs == [] + [cs[0]] + [cs[1]] + [cs[2]];
    forall h: Uint16
      ensures CharIn(cs, h) == if h == cs[0].handle then Some(cs[0]) else if h == cs[1].handle then Some(cs[1])
                               else if h == cs[2].handle then Some(cs[2]) else None
    {
      CharInNext([], cs[0], h);
      CharInNext([] + [cs[0]], cs[1], h);
      CharInNext([] + [cs[0]] + [cs[1]], cs[2], h);
    }
  }

  // ----- the duplicate check for the GAP service -----

  ghost predicate IsGap(s: DiscoveredService)
    requires Valid(s.uuid)
  {
    As128bit(s.uuid) == As128bit(FromUint16(GAP_UUID))
  }

  function GapCount(tree: seq<DiscoveredService>): nat
    requires TreeUuidsValid(tree)
  {
    if tree == [] then 0
    else GapCount(tree[..|tree| - 1]) + if As128bit(tree[|tree| - 1].uuid) == As128bit(FromUint16(GAP_UUID)) then 1 else 0
  }

  lemma {:induction false} GapCountZero(tree: seq<DiscoveredService>)
    requires TreeUuidsValid(tree)
    ensures GapCount(tree) == 0 <==> forall i :: 0 <= i < |tree| ==> !IsGap(tree[i])
  {
    if tree != [] {
      var rest := tree[..|tree| - 1];
      GapCountZero(rest);
      assert forall i :: 0 <= i < |rest| ==> rest[i] == tree[i];
    }
  }

  /** UUIDs read from BlueZ are always 16 bytes long, so the length-sensitive comparison never
      recognises an exported GAP service: the tree ends with a single one only if BlueZ
      exported none. */
  lemma {:induction false} SingleGapService(tree: seq<DiscoveredService>)
    requires TreeUuidsValid(tree) && forall i :: 0 <= i < |tree| ==> tree[i].uuid.len == 16
    ensures TreeUuidsValid(WithGap(tree)) && WithGap(tree) == tree + [GapService()]
    ensures GapCount(WithGap(tree)) == 1 <==> forall i :: 0 <= i < |tree| ==> !IsGap(tree[i])
  {
    assert (tree + [GapService()])[..|tree|] == tree;
    GapCountZero(tree);
  }

  /** A tree whose only service is the exported GAP service ends up with two. */
  lemma {:induction false} ExportedGapIsDuplicated()
    ensures var exported := DiscoveredService(Parse(ToStr(FromUint16(GAP_UUID))), 1, 1, []);
            TreeUuidsValid([exported]) && TreeUuidsValid(WithGap([exported])) && GapCount(WithGap([exported])) == 2
  {
    var u := FromUint16(GAP_UUID);
    ParsePrinted(u);
    var exported := DiscoveredService(Parse(ToStr(u)), 1, 1, []);
    SingleGapService([exported]);
    var w := WithGap([exported]);
    assert w[..1] == [exported] && [exported][..0] == [];
    assert GapCount([exported]) == 1;
  }
}
