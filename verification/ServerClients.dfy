/**
  * How the GATT server tracks its centrals: device paths are interned as connection ids on the
  * worker (components/esp32_ble_server/ble_gatt_server.cpp), connect and disconnect events are
  * drained into the client list on the main thread (components/esp32_ble_server/ble_server.cpp).
  */
module ServerClients {
  import opened Common

  datatype ServerEvent = ServerEvent(connected: bool, connId: Uint16)
  datatype Callback = Callback(onConnect: bool, connId: Uint16)

  // ----- interning -----

  /** `order` lists the paths as they were first seen. */
  datatype Interner = Interner(ids: map<string, Uint16>, next: Uint16, order: seq<string>)

  function Intern(s: Interner, path: string): Interner {
    if path in s.ids then s
    else Interner(s.ids[path := s.next], (s.next + 1) % 0x1_0000, s.order + [path])
  }

  ghost predicate Interned(s: Interner) {
    && s.next == (|s.order| + 1) % 0x1_0000
    && (forall p :: p in s.ids <==> p in s.order)
    && (forall i, j :: 0 <= i < j < |s.order| ==> s.order[i] != s.order[j])
    && (forall i :: 0 <= i < |s.order| ==> s.ids[s.order[i]] == (i + 1) % 0x1_0000)
  }

  lemma {:induction false} InternStaysInterned(s: Interner, path: string)
    requires Interned(s) && path !in s.ids
    ensures Interned(Intern(s, path))
  {
    var t := Intern(s, path);
    assert t.order[|s.order|] == path && t.ids[path] == (|s.order| + 1) % 0x1_0000;
    forall i | 0 <= i < |s.order| ensures t.order[i] == s.order[i] && t.ids[t.order[i]] == (i + 1) % 0x1_0000 {
      assert s.order[i] in s.order;
    }
  }

  /** Ids never change once given. */
  lemma {:induction false} InternKeeps(s: Interner, path: string)
    requires Interned(s)
    ensures Interned(Intern(s, path))
    ensures path in Intern(s, path).ids
    ensures forall p :: p in s.ids ==> p in Intern(s, path).ids && Intern(s, path).ids[p] == s.ids[p]
  {
    if path !in s.ids {
      InternStaysInterned(s, path);
    }
  }

  ghost predicate Faithful(ids: map<string, Uint16>) {
    && (forall p :: p in ids ==> ids[p] != 0)
    && (forall p, q :: p in ids && q in ids && ids[p] == ids[q] ==> p == q)
  }

  /** Distinct, non-zero ids for all paths seen, if and only if there are at most 65535. */
  lemma {:induction false} IdsFaithfulIff(s: Interner)
    requires Interned(s)
    ensures Faithful(s.ids) <==> |s.order| <= 65535
  {
    if |s.order| <= 65535 {
    } else {
      assert s.ids[s.order[65535]] == 0;
    }
  }

  // ----- the client list -----

  datatype Tracking = Tracking(clients: seq<Uint16>, callbacks: seq<Callback>)

  function Without(s: seq<Uint16>, id: Uint16): seq<Uint16> {
    if s == [] then [] else if s[0] == id then s[1..] else [s[0]] + Without(s[1..], id)
  }

  /** `host_on_connect` and `host_on_disconnect`. */
  function Handle(t: Tracking, e: ServerEvent): Tracking {
    if e.connected then
      if e.connId in t.clients then t
      else Tracking(t.clients + [e.connId], t.callbacks + [Callback(true, e.connId)])
    else
      if e.connId !in t.clients then t
      else Tracking(Without(t.clients, e.connId), t.callbacks + [Callback(false, e.connId)])
  }

  function HandleUpTo(t: Tracking, es: seq<ServerEvent>, n: nat): Tracking
    requires n <= |es|
  {
    if n == 0 then t else Handle(HandleUpTo(t, es, n - 1), es[n - 1])
  }

  ghost predicate NoDuplicates(s: seq<Uint16>) {
    forall i, j :: 0 <= i < j < |s| ==> s[i] != s[j]
  }

  lemma {:induction false} WithoutRemoves(s: seq<Uint16>, id: Uint16)
    requires NoDuplicates(s)
    ensures NoDuplicates(Without(s, id))
    ensures forall x :: x in Without(s, id) <==> x in s && x != id
  {
    if s != [] && s[0] != id {
      WithoutRemoves(s[1..], id);
      assert s[0] !in s[1..];
      var rest := Without(s[1..], id);
      forall i, j | 0 <= i < j < |rest| + 1 ensures ([s[0]] + rest)[i] != ([s[0]] + rest)[j] {
        assert rest[j - 1] in rest;
      }
    }
  }

  /** The last of the first n events for the id was CONNECT. */
  function LastConnected(es: seq<ServerEvent>, n: nat, id: Uint16): bool
    requires n <= |es|
  {
    n > 0 && if es[n - 1].connId == id then es[n - 1].connected else LastConnected(es, n - 1, id)
  }

  /** The last callback for the id was on_connect. */
  function CalledConnected(cs: seq<Callback>, n: nat, id: Uint16): bool
    requires n <= |cs|
  {
    n > 0 && if cs[n - 1].connId == id then cs[n - 1].onConnect else CalledConnected(cs, n - 1, id)
  }

  /** For every id the callbacks strictly alternate, beginning with on_connect. */
  ghost predicate Alternating(cs: seq<Callback>) {
    forall k :: 0 <= k < |cs| ==> cs[k].onConnect != CalledConnected(cs, k, cs[k].connId)
  }

  ghost predicate TrackingInv(t: Tracking) {
    && NoDuplicates(t.clients)
    && Alternating(t.callbacks)
    && forall id: Uint16 :: id in t.clients <==> CalledConnected(t.callbacks, |t.callbacks|, id)
  }

  lemma {:induction false} CalledPrefix(a: seq<Callback>, b: seq<Callback>, n: nat, id: Uint16)
    requires n <= |a|
    ensures CalledConnected(a + b, n, id) == CalledConnected(a, n, id)
  {
    if n > 0 {
      CalledPrefix(a, b, n - 1, id);
    }
  }

  lemma {:induction false} CallbackAppended(cs: seq<Callback>, c: Callback)
    requires Alternating(cs) && c.onConnect != CalledConnected(cs, |cs|, c.connId)
    ensures Alternating(cs + [c])
    ensures forall id: Uint16 :: CalledConnected(cs + [c], |cs| + 1, id) ==
              if id == c.connId then c.onConnect else CalledConnected(cs, |cs|, id)
  {
    var d := cs + [c];
    forall id: Uint16, n: nat | n <= |cs| ensures CalledConnected(d, n, id) == CalledConnected(cs, n, id) {
      CalledPrefix(cs, [c], n, id);
    }
  }

  lemma {:induction false} HandleKeepsInv(t: Tracking, e: ServerEvent)
    requires TrackingInv(t)
    ensures TrackingInv(Handle(t, e))
    ensures forall id: Uint16 :: id in Handle(t, e).clients <==> if id == e.connId then e.connected else id in t.clients
  {
    WithoutRemoves(t.clients, e.connId);
    if e.connected != (e.connId in t.clients) {
      CallbackAppended(t.callbacks, Callback(e.connected, e.connId));
    }
  }

  /** For any event sequence the client list has no duplicates and holds exactly the ids whose
      last event was CONNECT, and the callbacks for each id strictly alternate. */
  lemma {:induction false} ClientsFollowEvents(t: Tracking, es: seq<ServerEvent>, n: nat)
    requires n <= |es| && t.clients == [] && TrackingInv(t)
    ensures var r := HandleUpTo(t, es, n);
            && TrackingInv(r)
            && forall id: Uint16 :: id in r.clients <==> LastConnected(es, n, id)
  {
    if n > 0 {
      ClientsFollowEvents(t, es, n - 1);
      HandleKeepsInv(HandleUpTo(t, es, n - 1), es[n - 1]);
    }
  }

  // ----- from device paths to clients -----

  /** A Connected change of a device, or a device found connected at start-up. */
  datatype DeviceSignal = DeviceSignal(path: string, connected: bool)

  function InternUpTo(s: Interner, sigs: seq<DeviceSignal>, n: nat): Interner
    requires n <= |sigs|
  {
    if n == 0 then s else Intern(InternUpTo(s, sigs, n - 1), sigs[n - 1].path)
  }

  /** The event posted for the n-th signal carries the id its path is interned as. */
  function EventsUpTo(s: Interner, sigs: seq<DeviceSignal>, n: nat): (es: seq<ServerEvent>)
    requires n <= |sigs|
    ensures |es| == n
  {
    if n == 0 then []
    else
      var after := InternUpTo(s, sigs, n);
      EventsUpTo(s, sigs, n - 1) + [ServerEvent(sigs[n - 1].connected, if sigs[n - 1].path in after.ids then after.ids[sigs[n - 1].path] else 0)]
  }

  /** The objects that report Connected, in order. */
  function ConnectedUpTo(objects: seq<DeviceSignal>, n: nat): seq<DeviceSignal>
    requires n <= |objects|
  {
    if n == 0 then []
    else if objects[n - 1].connected then ConnectedUpTo(objects, n - 1) + [objects[n - 1]]
    else ConnectedUpTo(objects, n - 1)
  }

  lemma {:induction false} SignalsPrefix(s: Interner, a: seq<DeviceSignal>, b: seq<DeviceSignal>, n: nat)
    requires n <= |a|
    ensures InternUpTo(s, a + b, n) == InternUpTo(s, a, n) && EventsUpTo(s, a + b, n) == EventsUpTo(s, a, n)
  {
    if n > 0 {
      SignalsPrefix(s, a, b, n - 1);
    }
  }

  lemma {:induction false} OneMoreSignal(s: Interner, sigs: seq<DeviceSignal>, sig: DeviceSignal)
    ensures var after := Intern(InternUpTo(s, sigs, |sigs|), sig.path);
            && InternUpTo(s, sigs + [sig], |sigs| + 1) == after
            && sig.path in after.ids
            && EventsUpTo(s, sigs + [sig], |sigs| + 1) ==
               EventsUpTo(s, sigs, |sigs|) + [ServerEvent(sig.connected, after.ids[sig.path])]
  {
    SignalsPrefix(s, sigs, [sig], |sigs|);
  }

  function LastSignal(sigs: seq<DeviceSignal>, n: nat, path: string): bool
    requires n <= |sigs|
  {
    n > 0 && if sigs[n - 1].path == path then sigs[n - 1].connected else LastSignal(sigs, n - 1, path)
  }

  lemma {:induction false} InternRun(s: Interner, sigs: seq<DeviceSignal>, n: nat)
    requires n <= |sigs| && Interned(s)
    ensures Interned(InternUpTo(s, sigs, n))
    ensures forall p :: p in s.ids ==> p in InternUpTo(s, sigs, n).ids && InternUpTo(s, sigs, n).ids[p] == s.ids[p]
  {
    if n > 0 {
      InternRun(s, sigs, n - 1);
      InternKeeps(InternUpTo(s, sigs, n - 1), sigs[n - 1].path);
    }
  }

  lemma {:induction false} LastConnectedPrefix(a: seq<ServerEvent>, b: seq<ServerEvent>, n: nat, id: Uint16)
    requires n <= |a|
    ensures LastConnected(a + b, n, id) == LastConnected(a, n, id)
  {
    if n > 0 {
      LastConnectedPrefix(a, b, n - 1, id);
    }
  }

  /** While the ids are faithful, an id's last event is its path's last signal. */
  lemma {:induction false} EventsFollowSignals(s: Interner, sigs: seq<DeviceSignal>, n: nat, path: string, last: Interner)
    requires n <= |sigs| && Interned(s) && path in last.ids && Faithful(last.ids)
    requires forall p :: p in InternUpTo(s, sigs, n).ids ==> p in last.ids && last.ids[p] == InternUpTo(s, sigs, n).ids[p]
    ensures LastConnected(EventsUpTo(s, sigs, n), n, last.ids[path]) == LastSignal(sigs, n, path)
  {
    if n > 0 {
      var before, after := InternUpTo(s, sigs, n - 1), InternUpTo(s, sigs, n);
      InternRun(s, sigs, n - 1);
      InternKeeps(before, sigs[n - 1].path);
      EventsFollowSignals(s, sigs, n - 1, path, last);
      var es := EventsUpTo(s, sigs, n - 1);
      var e := ServerEvent(sigs[n - 1].connected, after.ids[sigs[n - 1].path]);
      assert EventsUpTo(s, sigs, n) == es + [e];
      LastConnectedPrefix(es, [e], n - 1, last.ids[path]);
    }
  }

  /** With at most 65535 device paths, once every event has been handled a path's id is in the
      client list exactly when the last signal of that path said it was connected. */
  lemma {:induction false} ClientsAreConnectedPaths(s: Interner, t: Tracking, sigs: seq<DeviceSignal>, path: string)
    requires Interned(s) && t.clients == [] && TrackingInv(t)
    requires |InternUpTo(s, sigs, |sigs|).order| <= 65535 && path in InternUpTo(s, sigs, |sigs|).ids
    ensures var id := InternUpTo(s, sigs, |sigs|).ids[path];
            && id != 0
            && (id in HandleUpTo(t, EventsUpTo(s, sigs, |sigs|), |sigs|).clients <==> LastSignal(sigs, |sigs|, path))
  {
    var n := |sigs|;
    var last := InternUpTo(s, sigs, n);
    InternRun(s, sigs, n);
    IdsFaithfulIff(last);
    EventsFollowSignals(s, sigs, n, path, last);
    ClientsFollowEvents(t, EventsUpTo(s, sigs, n), n);
  }

  // ----- start-up -----

  /** Start-up is heard as signals of exactly the objects that report Connected, in their order. */
  lemma {:induction false} EnumeratedAreConnected(objects: seq<DeviceSignal>, n: nat, path: string)
    requires n <= |objects|
    ensures var sigs := ConnectedUpTo(objects, n);
            && (forall sig <- sigs :: sig.connected)
            && (LastSignal(sigs, |sigs|, path) <==> exists i :: 0 <= i < n && objects[i] == DeviceSignal(path, true))
  {
    if n > 0 {
      EnumeratedAreConnected(objects, n - 1, path);
      var before := ConnectedUpTo(objects, n - 1);
      if objects[n - 1].connected {
        LastSignalPrefix(before, [objects[n - 1]], |before|, path);
        if objects[n - 1].path == path {
          assert objects[n - 1] == DeviceSignal(path, true);
        }
      }
    }
  }

  lemma {:induction false} LastSignalPrefix(a: seq<DeviceSignal>, b: seq<DeviceSignal>, n: nat, path: string)
    requires n <= |a|
    ensures LastSignal(a + b, n, path) == LastSignal(a, n, path)
  {
    if n > 0 {
      LastSignalPrefix(a, b, n - 1, path);
    }
  }

  lemma {:induction false} PathsInterned(s: Interner, sigs: seq<DeviceSignal>, n: nat, path: string)
    requires n <= |sigs| && Interned(s)
    ensures path in InternUpTo(s, sigs, n).ids <==> path in s.ids || exists i :: 0 <= i < n && sigs[i].path == path
  {
    if n > 0 {
      PathsInterned(s, sigs, n - 1, path);
    }
  }

  /** A server that starts up among connected centrals has, once its first events are handled, exactly
      them as clients: a path has an id in the client list if and only if its object was connected. */
  lemma {:induction false} StartupClients(s: Interner, t: Tracking, objects: seq<DeviceSignal>, path: string)
    requires Interned(s) && s.order == [] && t.clients == [] && TrackingInv(t)
    requires var sigs := ConnectedUpTo(objects, |objects|); |InternUpTo(s, sigs, |sigs|).order| <= 65535
    ensures var sigs := ConnectedUpTo(objects, |objects|);
            var ids, clients := InternUpTo(s, sigs, |sigs|).ids, HandleUpTo(t, EventsUpTo(s, sigs, |sigs|), |sigs|).clients;
            DeviceSignal(path, true) in objects <==> path in ids && ids[path] in clients
  {
    var sigs := ConnectedUpTo(objects, |objects|);
    EnumeratedAreConnected(objects, |objects|, path);
    PathsInterned(s, sigs, |sigs|, path);
    if LastSignal(sigs, |sigs|, path) {
      LastSignalSeen(sigs, |sigs|, path);
    }
    if path in InternUpTo(s, sigs, |sigs|).ids {
      ClientsAreConnectedPaths(s, t, sigs, path);
    }
  }

  lemma {:induction false} LastSignalSeen(sigs: seq<DeviceSignal>, n: nat, path: string)
    requires n <= |sigs| && LastSignal(sigs, n, path)
    ensures exists i :: 0 <= i < n && sigs[i].path == path
  {
    if sigs[n - 1].path != path {
      LastSignalSeen(sigs, n - 1, path);
    }
  }

  // ----- the two objects -----

  class GattServer {
    var deviceConnIds: map<string, Uint16>
    var nextConnId: Uint16
    var events: seq<ServerEvent>
    ghost var order: seq<string>

    ghost function View(): Interner
      reads this
    {
      Interner(deviceConnIds, nextConnId, order)
    }

    constructor ()
      ensures View() == Interner(map[], 1, []) && Interned(View()) && events == []
    {
      deviceConnIds, nextConnId, events, order := map[], 1, [], [];
    }

    method InternDevice(path: string) returns (id: Uint16)
      modifies this`deviceConnIds, this`nextConnId, this`order
      ensures View() == Intern(old(View()), path)
      ensures path in deviceConnIds && id == deviceConnIds[path]
    {
      if path in deviceConnIds {
        return deviceConnIds[path];
      }
      id := nextConnId;
      nextConnId := (nextConnId + 1) % 0x1_0000;
      deviceConnIds := deviceConnIds[path := id];
      order := order + [path];
    }

    /** A Connected change, from the signal handler or the start-up enumeration. */
    method OnDeviceConnected(sig: DeviceSignal)
      modifies this
      ensures View() == Intern(old(View()), sig.path)
      ensures sig.path in deviceConnIds
      ensures events == old(events) + [ServerEvent(sig.connected, deviceConnIds[sig.path])]
    {
      var id := InternDevice(sig.path);
      events := events + [ServerEvent(sig.connected, id)];
    }

    /** The start-up enumeration is heard as one Connected signal for each device already connected. */
    method EnumerateConnectedDevices(objects: seq<DeviceSignal>)
      modifies this
      ensures var sigs := ConnectedUpTo(objects, |objects|);
              && View() == InternUpTo(old(View()), sigs, |sigs|)
              && events == old(events) + EventsUpTo(old(View()), sigs, |sigs|)
    {
      ghost var s := View();
      for i := 0 to |objects|
        invariant var sigs := ConnectedUpTo(objects, i);
                  && View() == InternUpTo(s, sigs, |sigs|)
                  && events == old(events) + EventsUpTo(s, sigs, |sigs|)
      {
        if objects[i].connected {
          OneMoreSignal(s, ConnectedUpTo(objects, i), objects[i]);
          OnDeviceConnected(objects[i]);
        }
      }
    }

    method DrainEvents() returns (out: seq<ServerEvent>)
      modifies this`events
      ensures out == old(events) && events == []
    {
      out := [];
      out, events := events, out;
    }
  }

  class BleServer {
    var clients: seq<Uint16>
    var callbacks: seq<Callback>

    ghost function View(): Tracking
      reads this
    {
      Tracking(clients, callbacks)
    }

    constructor ()
      ensures View() == Tracking([], []) && TrackingInv(View())
    {
      clients, callbacks := [], [];
    }

    method Find(id: Uint16) returns (k: nat)
      ensures k <= |clients| && (k < |clients| ==> clients[k] == id)
      ensures forall j :: 0 <= j < k ==> clients[j] != id
    {
      k := 0;
      while k < |clients| && clients[k] != id
        invariant k <= |clients| && forall j :: 0 <= j < k ==> clients[j] != id
      {
        k := k + 1;
      }
    }

    method HostOnConnect(id: Uint16)
      modifies this
      ensures View() == Handle(old(View()), ServerEvent(true, id))
    {
      var k := Find(id);
      if k < |clients| {
        return;
      }
      clients := clients + [id];
      callbacks := callbacks + [Callback(true, id)];
    }

    method HostOnDisconnect(id: Uint16)
      modifies this
      ensures View() == Handle(old(View()), ServerEvent(false, id))
    {
      var k := Find(id);
      if k == |clients| {
        return;
      }
      EraseIsWithout(clients, id, k);
      clients := clients[..k] + clients[k + 1..];
      callbacks := callbacks + [Callback(false, id)];
    }

    method Loop(server: GattServer)
      modifies this, server`events
      ensures View() == HandleUpTo(old(View()), old(server.events), |old(server.events)|) && server.events == []
    {
      var drained := server.DrainEvents();
      ghost var t := View();
      for i := 0 to |drained|
        invariant View() == HandleUpTo(t, drained, i) && server.events == []
      {
        if drained[i].connected {
          HostOnConnect(drained[i].connId);
        } else {
          HostOnDisconnect(drained[i].connId);
        }
      }
    }
  }

  lemma {:induction false} EraseIsWithout(s: seq<Uint16>, id: Uint16, k: nat)
    requires k < |s| && s[k] == id && forall j :: 0 <= j < k ==> s[j] != id
    ensures s[..k] + s[k + 1..] == Without(s, id)
  {
    if k > 0 {
      EraseIsWithout(s[1..], id, k - 1);
      assert s[..k] + s[k + 1..] == [s[0]] + (s[1..][..k - 1] + s[1..][k..]);
    }
  }
}
