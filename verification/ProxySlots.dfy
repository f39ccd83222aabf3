/**
  * The proxy's connection slots (components/bluetooth_proxy/bluetooth_connection.cpp,
  * bluetooth_proxy.cpp, bluetooth_proxy.h). Which slots are in use is recorded three times: in
  * each connection's address, in the `free` counter, and in the `allocated` array (here `table`)
  * that is sent to the API client.
  */
module ProxySlots {
  import opened Common

  type Address = Uint64

  datatype Slots = Slots(addresses: seq<Address>, table: seq<Address>, free: int)

  // ----- the accounting -----

  /** `update_allocated_slot_`: the first entry from i on equal to `find` becomes `value`. */
  function UpdateAllocated(table: seq<Address>, find: Address, value: Address, i: nat): (r: seq<Address>)
    requires i <= |table|
    ensures |r| == |table|
    decreases |table| - i
  {
    if i == |table| then table
    else if table[i] == find then table[i := value]
    else UpdateAllocated(table, find, value, i + 1)
  }

  function SetAddress(s: Slots, i: nat, address: Address): Slots
    requires i < |s.addresses|
  {
    var held := s.addresses[i];
    var t := s.(addresses := s.addresses[i := address]);
    if address == 0 && held != 0 then t.(free := s.free + 1, table := UpdateAllocated(s.table, held, 0, 0))
    else if address != 0 && held == 0 then t.(free := s.free - 1, table := UpdateAllocated(s.table, 0, address, 0))
    else t
  }

  /** The slot `get_connection_` settles on: the first that holds the address or, when
      reserving, is free. */
  function Chosen(addresses: seq<Address>, address: Address, reserve: bool, i: nat): (r: Option<nat>)
    requires i <= |addresses|
    ensures r.Some? ==> i <= r.value < |addresses|
    ensures r.Some? ==> addresses[r.value] == address || (reserve && addresses[r.value] == 0)
    ensures forall k :: i <= k < (if r.Some? then r.value else |addresses|)
              ==> addresses[k] != address && !(reserve && addresses[k] == 0)
    decreases |addresses| - i
  {
    if i == |addresses| then None
    else if addresses[i] == address || (reserve && addresses[i] == 0) then Some(i)
    else Chosen(addresses, address, reserve, i + 1)
  }

  function GetConnection(s: Slots, address: Address, reserve: bool): Slots {
    var c := Chosen(s.addresses, address, reserve, 0);
    if c.Some? && s.addresses[c.value] != address then SetAddress(s, c.value, address) else s
  }

  /** What can touch a slot: a connection is registered at setup, the API client connects or
      disconnects, a DISCONNECTED event completes. `idle` is the client state at that moment. */
  datatype Step =
    | Register
    | ConnectRequest(address: Address)
    | DisconnectRequest(address: Address, idle: bool)
    | DisconnectComplete(index: nat)

  function Next(s: Slots, step: Step): Slots {
    match step
    case Register => if |s.addresses| < |s.table| then s.(addresses := s.addresses + [0]) else s
    case ConnectRequest(a) => GetConnection(s, a, true)
    case DisconnectRequest(a, idle) =>
      var c := Chosen(s.addresses, a, false, 0);
      if c.Some? && idle then SetAddress(s, c.value, 0) else s
    case DisconnectComplete(i) => if i < |s.addresses| && s.addresses[i] != 0 then SetAddress(s, i, 0) else s
  }

  function Run(s: Slots, steps: seq<Step>, n: nat): Slots
    requires n <= |steps|
  {
    if n == 0 then s else Next(Run(s, steps, n - 1), steps[n - 1])
  }

  // ----- conservation -----

  ghost function NonZero(s: seq<Address>): multiset<Address> {
    multiset(s)[0 := 0]
  }

  /** The three records agree. */
  ghost predicate Consistent(s: Slots) {
    && |s.addresses| <= |s.table|
    && NonZero(s.table) == NonZero(s.addresses)
    && s.free + |NonZero(s.addresses)| == |s.table|
  }

  ghost function One(a: Address): multiset<Address> {
    if a == 0 then multiset{} else multiset{a}
  }

  lemma {:induction false} NonZeroUpdate(s: seq<Address>, i: nat, a: Address)
    requires i < |s|
    ensures NonZero(s[i := a]) == NonZero(s) - One(s[i]) + One(a)
    ensures One(s[i]) <= NonZero(s)
  {
    assert multiset(s[i := a]) == multiset(s) - multiset{s[i]} + multiset{a};
  }

  lemma {:induction false} UpdateAllocatedUpdates(table: seq<Address>, find: Address, value: Address, i: nat) returns (k: nat)
    requires i <= |table| && find in table[i..]
    ensures i <= k < |table| && table[k] == find && UpdateAllocated(table, find, value, i) == table[k := value]
    ensures forall j :: i <= j < k ==> table[j] != find
    decreases |table| - i
  {
    if table[i] == find {
      k := i;
    } else {
      k := UpdateAllocatedUpdates(table, find, value, i + 1);
    }
  }

  lemma {:induction false} SetAddressConsistent(s: Slots, i: nat, a: Address)
    requires Consistent(s) && i < |s.addresses|
    requires a == 0 || s.addresses[i] == 0
    ensures Consistent(SetAddress(s, i, a))
    ensures a != 0 ==> s.free > 0
  {
    var held := s.addresses[i];
    NonZeroUpdate(s.addresses, i, a);
    if held != 0 {
      assert held in NonZero(s.table);
      assert s.table[0..] == s.table;
      var k := UpdateAllocatedUpdates(s.table, held, 0, 0);
      NonZeroUpdate(s.table, k, 0);
    } else if a != 0 {
      assert s.table[0..] == s.table;
      var k := UpdateAllocatedUpdates(s.table, 0, a, 0);
      NonZeroUpdate(s.table, k, a);
    }
  }

  lemma {:induction false} StepConsistent(s: Slots, step: Step)
    requires Consistent(s)
    ensures Consistent(Next(s, step))
  {
    match step
    case Register => assert multiset(s.addresses + [0]) == multiset(s.addresses) + multiset{0};
    case ConnectRequest(a) =>
      var c := Chosen(s.addresses, a, true, 0);
      if c.Some? && s.addresses[c.value] != a {
        SetAddressConsistent(s, c.value, a);
      }
    case DisconnectRequest(a, idle) =>
      var c := Chosen(s.addresses, a, false, 0);
      if c.Some? && idle {
        SetAddressConsistent(s, c.value, 0);
      }
    case DisconnectComplete(i) =>
      if i < |s.addresses| && s.addresses[i] != 0 {
        SetAddressConsistent(s, i, 0);
      }
  }

  /** Every run of registrations, requests and disconnects keeps the three records in
      agreement: free plus slots in use is the limit, the `allocated` array holds exactly the
      addresses in use, and the counter never goes below zero. */
  lemma {:induction false} SlotsConserved(s: Slots, steps: seq<Step>, n: nat)
    requires Consistent(s) && n <= |steps|
    ensures var t := Run(s, steps, n);
            && t.free + |NonZero(t.addresses)| == |t.table| == |s.table|
            && NonZero(t.table) == NonZero(t.addresses)
            && 0 <= t.free <= |t.table|
            && Consistent(t)
  {
    if n > 0 {
      SlotsConserved(s, steps, n - 1);
      var t := Run(s, steps, n - 1);
      StepConsistent(t, steps[n - 1]);
    }
  }

  // ----- who holds which slot -----

  /** The first registered slot with the property. */
  predicate FirstFree(addresses: seq<Address>, a: Address, k: nat) {
    k < |addresses| && addresses[k] == 0 && forall j :: 0 <= j < k ==> addresses[j] != 0 && addresses[j] != a
  }

  predicate FirstHolder(addresses: seq<Address>, a: Address, k: nat) {
    k < |addresses| && addresses[k] == a && forall j :: 0 <= j < k ==> addresses[j] != a
  }

  /** The slot is taken by the step, for this address. */
  predicate Takes(s: Slots, step: Step, k: nat) {
    step.ConnectRequest? && FirstFree(s.addresses, step.address, k)
  }

  /** The slot is given back by the step. */
  predicate Frees(s: Slots, step: Step, k: nat) {
    (step.DisconnectRequest? && step.idle && FirstHolder(s.addresses, step.address, k)) || (step.DisconnectComplete? && step.index == k)
  }

  /** What a step does to every slot: a connect request takes the first free slot in front of which
      nobody holds the address; a disconnect request of an idle connection gives back the first slot
      that holds it, and a completed disconnect its own; every other slot keeps its address; setup
      adds free slots up to the limit. */
  lemma {:induction false} SlotsAfter(s: Slots, step: Step)
    ensures var t := Next(s, step);
            && |t.addresses| == |s.addresses| + (if step.Register? && |s.addresses| < |s.table| then 1 else 0)
            && (step.Register? && |s.addresses| < |s.table| ==> t.addresses[|s.addresses|] == 0)
            && forall k :: 0 <= k < |s.addresses| ==>
                 t.addresses[k] == if Takes(s, step, k) then step.address else if Frees(s, step, k) then 0 else s.addresses[k]
  {
    match step
    case ConnectRequest(a) => var c := Chosen(s.addresses, a, true, 0);
    case DisconnectRequest(a, idle) => var c := Chosen(s.addresses, a, false, 0);
    case _ =>
  }

  /** With every slot registered, a connect request is refused exactly when the counter that the API
      client was sent says that no slot is free and nobody holds the address. */
  lemma {:induction false} RefusedIffNoneFree(s: Slots, a: Address)
    requires Consistent(s) && |s.addresses| == |s.table| && a != 0
    ensures Chosen(s.addresses, a, true, 0).None? <==> s.free == 0 && a !in s.addresses
  {
    InUse(s.addresses);
  }

  lemma {:induction false} InUse(addresses: seq<Address>)
    ensures |NonZero(addresses)| <= |addresses|
    ensures |NonZero(addresses)| == |addresses| <==> 0 !in addresses
  {
    if addresses != [] {
      var init, last := addresses[..|addresses| - 1], addresses[|addresses| - 1];
      InUse(init);
      assert addresses == init + [last];
      assert multiset(addresses) == multiset(init) + multiset{last};
      assert NonZero(addresses) == NonZero(init) + One(last);
    }
  }

  // ----- one slot per address does not hold -----

  ghost predicate OneSlotEach(addresses: seq<Address>) {
    forall i, j :: 0 <= i < j < |addresses| && addresses[i] != 0 ==> addresses[i] != addresses[j]
  }

  /** A connect request keeps one slot per address exactly when no free slot precedes the slot
      already holding the address. */
  lemma {:induction false} ConnectKeepsOneSlotIff(s: Slots, a: Address)
    requires OneSlotEach(s.addresses) && a != 0
    ensures OneSlotEach(GetConnection(s, a, true).addresses) <==>
            !(exists i, j :: 0 <= i < j < |s.addresses| && s.addresses[i] == 0 && s.addresses[j] == a)
  {
    var c := Chosen(s.addresses, a, true, 0);
    if c.Some? && s.addresses[c.value] == 0 {
      var t := s.addresses[c.value := a];
      assert GetConnection(s, a, true).addresses == t;
      if j :| c.value < j < |t| && s.addresses[j] == a {
        assert t[c.value] == a == t[j];
      } else {
        assert forall j :: 0 <= j < |t| && j != c.value ==> t[j] != a;
        assert forall j :: 0 <= j < |t| && j != c.value ==> t[j] == s.addresses[j];
      }
    }
  }

  /** Two slots; b takes the first and a the second; b leaves, and a asks again. */
  function SecondSlotRun(a: Address, b: Address): seq<Step> {
    [Register, Register, ConnectRequest(b), ConnectRequest(a), DisconnectRequest(b, true), ConnectRequest(a)]
  }

  /** From a new proxy with two slots, a device that asks twice ends up with both. */
  lemma {:induction false} ReservesSecondSlot(s: Slots, a: Address, b: Address)
    requires s == Slots([], [0, 0], 2) && a != 0 && b != 0 && a != b
    ensures Run(s, SecondSlotRun(a, b), 5).addresses == [0, a]
    ensures Run(s, SecondSlotRun(a, b), 6).addresses == [a, a]
  {
    var steps := SecondSlotRun(a, b);
    var t2 := Run(s, steps, 2);
    assert Run(s, steps, 0) == s && Run(s, steps, 1) == Slots([0], [0, 0], 2);
    assert t2 == Slots([0, 0], [0, 0], 2);
    var t3 := Run(s, steps, 3);
    FirstSlot([0, 0], b);
    assert t3.addresses == [b, 0] && t3.free == 1;
    var t4 := Run(s, steps, 4);
    SecondSlot([b, 0], a);
    assert t4.addresses == [b, a];
    var t5 := Run(s, steps, 5);
    FirstMatch([b, a], b);
    assert t5.addresses == [0, a];
    FirstSlot([0, a], a);
  }

  lemma {:induction false} FirstSlot(addresses: seq<Address>, a: Address)
    requires |addresses| == 2 && addresses[0] == 0
    ensures Chosen(addresses, a, true, 0) == Some(0)
  {
  }

  lemma {:induction false} SecondSlot(addresses: seq<Address>, a: Address)
    requires |addresses| == 2 && addresses[0] != 0 && addresses[0] != a && addresses[1] == 0
    ensures Chosen(addresses, a, true, 0) == Some(1)
  {
    assert Chosen(addresses, a, true, 0) == Chosen(addresses, a, true, 1);
  }

  lemma {:induction false} FirstMatch(addresses: seq<Address>, a: Address)
    requires |addresses| == 2 && addresses[0] == a
    ensures Chosen(addresses, a, false, 0) == Some(0)
  {
  }

  // ----- the proxy object -----

  class BluetoothProxy {
    const addresses: array<Address>   // one per slot; the first `count` are registered
    const table: array<Address>
    var count: nat
    var free: int

    ghost predicate Valid()
      reads this
    {
      addresses != table && addresses.Length == table.Length && count <= addresses.Length
    }

    ghost function View(): Slots
      requires Valid()
      reads this, addresses, table
    {
      Slots(addresses[..count], table[..], free)
    }

    /** setup(): every slot free, nothing allocated. */
    constructor (limit: nat)
      ensures Valid() && fresh(addresses) && fresh(table)
      ensures View() == Slots([], seq(limit, _ => 0), limit) && Consistent(View())
    {
      addresses := new Address[limit](_ => 0);
      table := new Address[limit](_ => 0);
      count := 0;
      free := limit;
      new;
      assert table[..] == seq(limit, _ => 0);
      assert multiset(table[..])[0 := 0] == multiset{};
    }

    method RegisterConnection()
      requires Valid()
      modifies this`count, addresses
      ensures Valid() && View() == Next(old(View()), Register)
    {
      if count < addresses.Length {
        addresses[count] := 0;
        count := count + 1;
      }
    }

    method UpdateAllocatedSlot(findValue: Address, setValue: Address)
      requires Valid()
      modifies table
      ensures table[..] == UpdateAllocated(old(table[..]), findValue, setValue, 0)
    {
      ghost var before := table[..];
      for i := 0 to table.Length
        invariant table[..] == before
        invariant UpdateAllocated(before, findValue, setValue, 0) == UpdateAllocated(before, findValue, setValue, i)
      {
        if table[i] == findValue {
          table[i] := setValue;
          return;
        }
      }
    }

    method SetAddressAt(i: nat, address: Address)
      requires Valid() && i < count
      modifies this`free, addresses, table
      ensures View() == SetAddress(old(View()), i, address)
    {
      if address == 0 && addresses[i] != 0 {
        free := free + 1;
        UpdateAllocatedSlot(addresses[i], 0);
      } else if address != 0 && addresses[i] == 0 {
        free := free - 1;
        UpdateAllocatedSlot(0, address);
      }
      addresses[i] := address;
      assert addresses[..count] == old(addresses[..count])[i := address];
    }

    method GetConnectionFor(address: Address, reserve: bool) returns (index: Option<nat>)
      requires Valid()
      modifies this`free, addresses, table
      ensures index == Chosen(old(addresses[..count]), address, reserve, 0)
      ensures View() == GetConnection(old(View()), address, reserve)
    {
      ghost var before := addresses[..count];
      for i := 0 to count
        invariant View() == old(View())
        invariant Chosen(before, address, reserve, 0) == Chosen(before, address, reserve, i)
      {
        var connAddr := addresses[i];
        assert before[i] == connAddr;
        if connAddr == address {
          return Some(i);
        }
        if reserve && connAddr == 0 {
          SetAddressAt(i, address);
          return Some(i);
        }
      }
      return None;
    }

    method DeviceRequestConnect(address: Address)
      requires Valid()
      modifies this`free, addresses, table
      ensures View() == Next(old(View()), ConnectRequest(address))
    {
      var _ := GetConnectionFor(address, true);
    }

    method DeviceRequestDisconnect(address: Address, idle: bool)
      requires Valid()
      modifies this`free, addresses, table
      ensures View() == Next(old(View()), DisconnectRequest(address, idle))
    {
      var index := GetConnectionFor(address, false);
      if index.Some? && idle {
        SetAddressAt(index.value, 0);
      }
    }

    method OnDisconnectComplete(i: nat)
      requires Valid() && i < count
      modifies this`free, addresses, table
      ensures View() == Next(old(View()), DisconnectComplete(i))
    {
      if addresses[i] == 0 {
        return;
      }
      SetAddressAt(i, 0);
    }
  }
}
